/** Nothing but proper markup is read: whatever document the reader accepts is the text of markup
    nested within bounds, with a prologue before it, and is read as what that markup means. */
module XmlExact {
  import opened Text
  import opened Xml
  import opened XmlText
  import opened XmlRoundTrip

  // --- Slices and blanks ------------------------------------------------------------------------

  lemma {:induction false} SliceThere(s: string, p: nat, q: nat)
    requires p <= q <= |s|
    ensures At(s, p, s[p..q]) && |s[p..q]| == q - p
  {
    AtSlice(s, p, s[p..q]);
  }

  lemma {:induction false} CharIs(s: string, p: nat, c: char)
    requires CharAt(s, p, c)
    ensures At(s, p, [c])
  {
    assert s[p..p + 1] == [c];
    SliceThere(s, p, p + 1);
  }

  lemma {:induction false} NothingThere(s: string, p: nat)
    requires p <= |s|
    ensures At(s, p, "")
  {
    AtIndex(s, p, "");
  }

  lemma {:induction false} BlanksSound(s: string, p: nat) returns (blanks: string)
    requires p <= |s|
    ensures Blanks(blanks) && At(s, p, blanks) && Skip(s, p) == p + |blanks| <= |s|
    ensures Skip(s, p) < |s| ==> !IsSpace(s[Skip(s, p)])
    decreases |s| - p
  {
    if p < |s| && IsSpace(s[p]) {
      var more := BlanksSound(s, p + 1);
      blanks := [s[p]] + more;
      CharIs(s, p, s[p]);
      AtConcat(s, p, [s[p]], more);
    } else {
      blanks := "";
      NothingThere(s, p);
    }
  }

  // --- Names ------------------------------------------------------------------------------------

  lemma {:induction false} SplitName(full: string) returns (prefix: Option<string>, name: string)
    ensures FullName(prefix, name) == full && NoChar(name, ':') && StripPrefix(full) == name
  {
    if full == "" {
      prefix, name := None, "";
    } else {
      var n := |full| - 1;
      if full[n] == ':' {
        prefix, name := Some(full[..n]), "";
        assert full == full[..n] + ":";
      } else {
        prefix, name := SplitName(full[..n]);
        LongerName(prefix, name, full[n], full);
        name := name + [full[n]];
      }
    }
  }

  lemma {:induction false} LongerName(prefix: Option<string>, name: string, c: char, full: string)
    requires full != "" && full[|full| - 1] == c && FullName(prefix, name) == full[..|full| - 1]
    ensures FullName(prefix, name + [c]) == full
  {
    assert full == full[..|full| - 1] + [c];
    if prefix.Some? { assert prefix.value + (":" + (name + [c])) == prefix.value + (":" + name) + [c]; }
  }

  lemma {:induction false} NameCharsEnd(s: string, p: nat)
    requires p <= |s|
    ensures forall i | p <= i < SkipNameChars(s, p) :: IsNameChar(s[i])
    ensures SkipNameChars(s, p) < |s| ==> !IsNameChar(s[SkipNameChars(s, p)])
    decreases |s| - p
  {
    if p < |s| && IsNameChar(s[p]) { NameCharsEnd(s, p + 1); }
  }

  lemma {:induction false} NameSound(s: string, p: nat) returns (prefix: Option<string>, name: string)
    requires p <= |s| && NameEnd(s, p) > p
    ensures ProperName(prefix, name) && At(s, p, FullName(prefix, name))
    ensures NameEnd(s, p) == p + |FullName(prefix, name)| <= |s| && LocalName(s[p..NameEnd(s, p)]) == name
    ensures NameEnd(s, p) < |s| ==> !IsNameChar(s[NameEnd(s, p)])
  {
    var n := NameEnd(s, p);
    NameCharsEnd(s, p + 1);
    prefix, name := SplitName(s[p..n]);
    SliceThere(s, p, n);
    NameIsProper(s, p, n, prefix, name);
  }

  lemma {:induction false} NameIsProper(s: string, p: nat, n: nat, prefix: Option<string>, name: string)
    requires p < n <= |s| && IsNameStart(s[p]) && forall i | p < i < n :: IsNameChar(s[i])
    requires FullName(prefix, name) == s[p..n] && NoChar(name, ':')
    ensures ProperName(prefix, name)
  {
    var full := s[p..n];
    forall i | 0 <= i < |full| ensures IsNameChar(full[i]) { assert full[i] == s[p + i]; }
  }

  // --- Attributes -------------------------------------------------------------------------------

  lemma {:induction false} FindSound(s: string, p: nat, c: char)
    requires p <= |s| && FindFrom(s, p, c) < |s|
    ensures p <= FindFrom(s, p, c) && s[FindFrom(s, p, c)] == c
    ensures At(s, p, s[p..FindFrom(s, p, c)]) && NoChar(s[p..FindFrom(s, p, c)], c)
  {
    NotBefore(s, p, c);
    SliceThere(s, p, FindFrom(s, p, c));
  }

  lemma {:induction false} NotBefore(s: string, p: nat, c: char)
    requires p <= |s|
    ensures p <= FindFrom(s, p, c) <= |s| && forall i | p <= i < FindFrom(s, p, c) :: s[i] != c
    decreases |s| - p
  {
    if p < |s| && s[p] != c { NotBefore(s, p + 1, c); }
  }

  /** Where the parts of an attribute are: its name up to `n`, `=` at `e`, its value from `v` to `end`. */
  lemma {:induction false} AttributeFound(s: string, p: nat) returns (n: nat, e: nat, v: nat, end: nat)
    requires p <= |s| && ParseAttribute(s, p).Ok?
    ensures p < n == NameEnd(s, p) <= |s| && e == Skip(s, n) && CharAt(s, e, '=') && e + 1 <= |s|
    ensures v == Skip(s, e + 1) + 1 && (CharAt(s, v - 1, '\"') || CharAt(s, v - 1, '\'')) && v <= |s|
    ensures end == FindFrom(s, v, s[v - 1]) < |s| && v <= end
    ensures ParseAttribute(s, p) == Ok(Attribute(LocalName(s[p..n]), Decoded(s[v..end])), end + 1)
  {
    n := NameEnd(s, p);
    e := SkipSpace(s, n);
    v := SkipSpace(s, e + 1) + 1;
    end := FindChar(s, v, s[v - 1]);
  }

  /** An attribute with the blanks before it. */
  lemma {:induction false} AttrSound(s: string, p: nat, before: string) returns (a: Attr, next: nat)
    requires Blanks(before) && At(s, p, before) && p + |before| <= |s| && ParseAttribute(s, p + |before|).Ok?
    ensures ProperAttr(a) && a.before == before && At(s, p, AttrText(a)) && next == p + |AttrText(a)| <= |s|
    ensures ParseAttribute(s, p + |before|) == Ok(Attribute(a.name, Decoded(a.value)), next)
  {
    var start := p + |before|;
    var n, e, v, end := AttributeFound(s, start);
    var prefix, name := NameSound(s, start);
    var beforeEquals := BlanksSound(s, n);
    var afterEquals := BlanksSound(s, e + 1);
    FindSound(s, v, s[v - 1]);
    a := Attr(before, prefix, name, beforeEquals, afterEquals, if s[v - 1] == '\'' then Single else Double, s[v..end]);
    next := end + 1;
    AttrThere(s, p, a, start, n, e, v, end);
  }

  lemma {:induction false} AttrThere(s: string, p: nat, a: Attr, start: nat, n: nat, e: nat, v: nat, end: nat)
    requires At(s, p, a.before) && start == p + |a.before| && At(s, start, FullName(a.prefix, a.name))
    requires n == start + |FullName(a.prefix, a.name)| && At(s, n, a.beforeEquals) && e == n + |a.beforeEquals|
    requires CharAt(s, e, '=') && At(s, e + 1, a.afterEquals) && v == e + |a.afterEquals| + 2
    requires CharAt(s, v - 1, QuoteChar(a.quote)) && At(s, v, a.value) && end == v + |a.value|
    requires CharAt(s, end, QuoteChar(a.quote))
    ensures At(s, p, AttrText(a)) && end + 1 == p + |AttrText(a)|
  {
    var q := [QuoteChar(a.quote)];
    CharIs(s, end, QuoteChar(a.quote));
    CharIs(s, v - 1, QuoteChar(a.quote));
    CharIs(s, e, '=');
    AtConcat(s, v, a.value, q);
    AtConcat(s, v - 1, q, a.value + q);
    AtConcat(s, e + 1, a.afterEquals, q + (a.value + q));
    AtConcat(s, e, "=", a.afterEquals + (q + (a.value + q)));
    AtConcat(s, n, a.beforeEquals, "=" + (a.afterEquals + (q + (a.value + q))));
    AtConcat(s, start, FullName(a.prefix, a.name), a.beforeEquals + ("=" + (a.afterEquals + (q + (a.value + q)))));
    AtConcat(s, p, a.before,
             FullName(a.prefix, a.name) + (a.beforeEquals + ("=" + (a.afterEquals + (q + (a.value + q))))));
    AttrLength(a);
  }

  /** What the attribute loop meets after blanks up to `q`: the end of the tag, or an attribute. */
  lemma {:induction false} AttributesFound(s: string, p: nat, q: nat, acc: seq<Attribute>)
    requires p <= |s| && q == Skip(s, p) && q <= |s| && Attributes(s, p, acc).Ok?
    ensures q < |s|
    ensures s[q] == '>' || At(s, q, "/>") ==> Attributes(s, p, acc) == Ok(acc, q)
    ensures !(s[q] == '>' || At(s, q, "/>")) ==>
              var a := ParseAttribute(s, q);
              a.Ok? && q < a.pos <= |s| && Attributes(s, p, acc) == Attributes(s, a.pos, acc + [a.value])
  {
  }

  /** One more attribute, where the loop does not end. */
  lemma {:induction false} NextAttrSound(s: string, p: nat, before: string, acc: seq<Attribute>)
      returns (a: Attr, next: nat)
    requires p <= |s| && Attributes(s, p, acc).Ok? && Blanks(before) && At(s, p, before) && Skip(s, p) == p + |before|
    requires p + |before| < |s| && s[p + |before|] != '>' && !At(s, p + |before|, "/>")
    ensures ProperAttr(a) && At(s, p, AttrText(a)) && next == p + |AttrText(a)| && p < next <= |s|
    ensures Attributes(s, p, acc) == Attributes(s, next, acc + [Attribute(a.name, Decoded(a.value))])
  {
    AttributesFound(s, p, p + |before|, acc);
    a, next := AttrSound(s, p, before);
  }

  lemma {:induction false} AttrsSound(s: string, p: nat, acc: seq<Attribute>)
      returns (attributes: seq<Attr>, blanks: string, mid: nat, end: nat)
    requires p <= |s| && Attributes(s, p, acc).Ok?
    ensures ProperAttrs(attributes) && At(s, p, Listed(attributes)) && mid == p + |Listed(attributes)|
    ensures Blanks(blanks) && At(s, mid, blanks) && end == mid + |blanks| < |s| && (s[end] == '>' || At(s, end, "/>"))
    ensures Attributes(s, p, acc) == Ok(acc + AttrsMean(attributes), end)
    decreases |s| - p
  {
    blanks := BlanksSound(s, p);
    end := p + |blanks|;
    AttributesFound(s, p, end, acc);
    if s[end] == '>' || At(s, end, "/>") {
      attributes, mid := [], p;
      NoAttrs(s, p, acc);
    } else {
      var a, next := NextAttrSound(s, p, blanks, acc);
      var more;
      more, blanks, mid, end := AttrsSound(s, next, acc + [Attribute(a.name, Decoded(a.value))]);
      attributes := [a] + more;
      AttrsThere(s, p, next, mid, a, more, attributes, acc);
    }
  }

  lemma {:induction false} NoAttrs(s: string, p: nat, acc: seq<Attribute>)
    requires p <= |s|
    ensures ProperAttrs([]) && At(s, p, Listed([])) && |Listed([])| == 0 && acc + AttrsMean([]) == acc
  {
    NothingThere(s, p);
  }

  lemma {:induction false} AttrsThere(s: string, p: nat, next: nat, mid: nat, a: Attr, more: seq<Attr>,
                                      attributes: seq<Attr>, acc: seq<Attribute>)
    requires attributes == [a] + more && ProperAttr(a) && ProperAttrs(more) && At(s, p, AttrText(a))
    requires next == p + |AttrText(a)| && At(s, next, Listed(more)) && mid == next + |Listed(more)|
    ensures ProperAttrs(attributes) && At(s, p, Listed(attributes)) && mid == p + |Listed(attributes)|
    ensures acc + [Attribute(a.name, Decoded(a.value))] + AttrsMean(more) == acc + AttrsMean(attributes)
  {
    assert attributes[0] == a && attributes[1..] == more;
    AtConcat(s, p, AttrText(a), Listed(more));
    MoreAttrs(acc, [Attribute(a.name, Decoded(a.value))], AttrsMean(more));
  }

  lemma {:induction false} MoreAttrs(a: seq<Attribute>, b: seq<Attribute>, c: seq<Attribute>)
    ensures a + b + c == a + (b + c)
  {
  }

  /** Right after a name comes no attribute. */
  lemma {:induction false} ApartFromName(s: string, n: nat, attributes: seq<Attr>)
    requires n < |s| && !IsNameChar(s[n]) && ProperAttrs(attributes) && At(s, n, Listed(attributes))
    ensures Apart(attributes)
  {
    if attributes != [] && attributes[0].before == "" {
      var a, rest := attributes[0], Listed(attributes[1..]);
      assert Listed(attributes) == AttrText(a) + rest;
      AtConcat(s, n, AttrText(a), rest);
      FirstOfAttr(a);
      AtHead(s, n, AttrText(a));
    }
  }

  lemma {:induction false} FirstOfAttr(a: Attr)
    requires ProperAttr(a) && a.before == ""
    ensures AttrText(a) != "" && IsNameStart(AttrText(a)[0])
  {
    assert AttrText(a)[0] == FullName(a.prefix, a.name)[0];
  }

  // --- Sections ---------------------------------------------------------------------------------

  lemma {:induction false} WordFound(s: string, p: nat, w: string, q: nat)
    requires p <= |s| && Find(s, p, w) == Some(q)
    ensures p <= q && q + |w| <= |s| && At(s, q, w) && forall i | p <= i < q :: !At(s, i, w)
    decreases |s| - p
  {
    if !At(s, p, w) { WordFound(s, p + 1, w, q); }
  }

  /** What lies between `p` and the end of the first mark after it. */
  lemma {:induction false} SectionSound(s: string, p: nat, mark: string, q: nat)
    requires p <= |s| && Find(s, p, mark) == Some(q)
    ensures p <= q && q + |mark| <= |s|
    ensures var text := s[p..q + |mark|]; At(s, p, text) && EndsWith(text, mark) && EndsOnce(text, mark)
  {
    WordFound(s, p, mark, q);
    var text := s[p..q + |mark|];
    SliceThere(s, p, q + |mark|);
    AtSlice(s, q, mark);
    assert text[|text| - |mark|..] == s[q..q + |mark|];
    forall i | 0 <= i < |text| - |mark| ensures !At(text, i, mark) {
      AtInside(s, p, text, i, mark);
      assert !At(s, p + i, mark);
    }
  }

  /** A section that starts with `start` and whose mark cannot begin before `start` does but for its
      last characters. */
  lemma {:induction false} StartsWith(s: string, p: nat, text: string, start: string)
    requires At(s, p, text) && At(s, p, start) && |start| <= |text|
    ensures At(text, 0, start)
  {
    AtInside(s, p, text, 0, start);
  }

  lemma {:induction false} CommentSound(s: string, p: nat, q: nat) returns (comment: string)
    requires At(s, p, "<!--") && p <= |s| && Find(s, p, "-->") == Some(q)
    ensures ProperComment(comment) && At(s, p, comment) && p + |comment| == q + 3 <= |s|
  {
    SectionSound(s, p, "-->", q);
    comment := s[p..q + 3];
    CommentLong(s, p, q);
    StartsWith(s, p, comment, "<!--");
  }

  lemma {:induction false} CommentLong(s: string, p: nat, q: nat)
    requires At(s, p, "<!--") && p <= |s| && Find(s, p, "-->") == Some(q)
    ensures q >= p + 2
  {
    WordFound(s, p, "-->", q);
    AtIndex(s, p, "<!--");
    assert s[p + 0] == "<!--"[0] && s[p + 1] == "<!--"[1];
    AtHead(s, q, "-->");
  }

  lemma {:induction false} CDataSound(s: string, p: nat, q: nat) returns (raw: string)
    requires At(s, p, "<![CDATA[") && p + 9 <= |s| && Find(s, p + 9, "]]>") == Some(q)
    ensures EndsOnce(raw + "]]>", "]]>") && At(s, p, CDataText(raw)) && p + |CDataText(raw)| == q + 3 <= |s|
    ensures p + 9 <= q && raw == s[p + 9..q]
  {
    SectionSound(s, p + 9, "]]>", q);
    raw := s[p + 9..q];
    assert s[p + 9..q + 3] == raw + "]]>" by { WordFound(s, p + 9, "]]>", q); AtSlice(s, q, "]]>"); }
    AtConcat(s, p, "<![CDATA[", raw + "]]>");
  }

  // --- Closing tags -----------------------------------------------------------------------------

  lemma {:induction false} CloseFound(s: string, p: nat, name: string) returns (n: nat, q: nat)
    requires p <= |s| && ParseClose(s, p, name).Ok?
    ensures p <= n == NameEnd(s, p) <= |s| && LocalName(s[p..n]) == name && q == Skip(s, n) && CharAt(s, q, '>')
    ensures ParseClose(s, p, name) == Ok((), q + 1)
  {
    n := NameEnd(s, p);
    q := SkipSpace(s, n);
  }

  lemma {:induction false} ClosingNameSound(s: string, p: nat, name: string) returns (prefix: Option<string>)
    requires p <= |s| && NameEnd(s, p) <= |s| && LocalName(s[p..NameEnd(s, p)]) == name
    ensures ProperClosing(prefix, name) && At(s, p, FullName(prefix, name))
    ensures NameEnd(s, p) == p + |FullName(prefix, name)|
  {
    if NameEnd(s, p) == p {
      assert s[p..p] == "";
      prefix := None;
      NothingThere(s, p);
    } else {
      var local;
      prefix, local := NameSound(s, p);
    }
  }

  lemma {:induction false} CloseSound(s: string, p: nat, name: string)
      returns (prefix: Option<string>, blanks: string, end: nat)
    requires At(s, p, "</") && p + 2 <= |s| && ParseClose(s, p + 2, name).Ok?
    ensures ProperClosing(prefix, name) && Blanks(blanks) && At(s, p, CloseTag(prefix, name, blanks))
    ensures end == p + |CloseTag(prefix, name, blanks)| <= |s| && ParseClose(s, p + 2, name) == Ok((), end)
  {
    var n, q := CloseFound(s, p + 2, name);
    prefix := ClosingNameSound(s, p + 2, name);
    blanks := BlanksSound(s, n);
    end := q + 1;
    CloseThere(s, p, prefix, name, blanks, n, q);
  }

  lemma {:induction false} CloseThere(s: string, p: nat, prefix: Option<string>, name: string, blanks: string, n: nat,
                                      q: nat)
    requires At(s, p, "</") && At(s, p + 2, FullName(prefix, name)) && n == p + 2 + |FullName(prefix, name)|
    requires At(s, n, blanks) && q == n + |blanks| && CharAt(s, q, '>')
    ensures At(s, p, CloseTag(prefix, name, blanks)) && q + 1 == p + |CloseTag(prefix, name, blanks)|
  {
    CharIs(s, q, '>');
    AtConcat(s, n, blanks, ">");
    AtConcat(s, p + 2, FullName(prefix, name), blanks + ">");
    AtConcat(s, p, "</", FullName(prefix, name) + (blanks + ">"));
  }

  // --- Contents ---------------------------------------------------------------------------------

  lemma {:induction false} ContentNotEnd(s: string, p: nat, depth: nat, node: Node)
    requires p <= |s| && Content(s, p, depth, node).Ok?
    ensures p < |s| && (At(s, p, "</") ==> p + 2 <= |s| && ParseClose(s, p + 2, node.name).Ok?)
  {
    if At(s, p, "</") { AtIndex(s, p, "</"); }
  }

  lemma {:induction false} CommentFound(s: string, p: nat, depth: nat, node: Node) returns (q: nat)
    requires p < |s| && Content(s, p, depth, node).Ok? && At(s, p, "<!--")
    ensures Find(s, p, "-->") == Some(q) && p <= q && q + 3 <= |s|
    ensures Content(s, p, depth, node) == Content(s, q + 3, depth, node)
  {
    AtIndex(s, p, "<!--");
    assert s[p + 1] == "<!--"[1];
    SecondDiffers(s, p, "</");
    q := Find(s, p, "-->").value;
  }

  lemma {:induction false} CDataFound(s: string, p: nat, depth: nat, node: Node) returns (q: nat)
    requires p < |s| && Content(s, p, depth, node).Ok? && At(s, p, "<![CDATA[")
    ensures p + 9 <= |s| && Find(s, p + 9, "]]>") == Some(q)
  {
    CDataStarts(s, p);
    q := Find(s, p + 9, "]]>").value;
  }

  lemma {:induction false} ChildFound(s: string, p: nat, depth: nat, node: Node) returns (t: nat)
    requires p < |s| && Content(s, p, depth, node).Ok? && s[p] == '<'
    requires !At(s, p, "</") && !At(s, p, "<!--") && !At(s, p, "<![CDATA[")
    ensures depth < MAX_DEPTH && Element(s, p, depth + 1).Ok? && t == Element(s, p, depth + 1).pos && p < t <= |s|
    ensures Content(s, p, depth, node) == AfterChild(s, t, depth, node, Element(s, p, depth + 1).value)
  {
    t := ParseElement(s, p, depth + 1).pos;
  }

  /** One item of the content, and where the next one starts. */
  lemma {:induction false} ItemSound(s: string, p: nat, depth: nat, node: Node) returns (c: Item, t: nat)
    requires p < |s| && Content(s, p, depth, node).Ok? && !At(s, p, "</") && depth <= MAX_DEPTH
    ensures ProperItem(c) && At(s, p, One(c)) && t == p + |One(c)| && p < t <= |s|
    ensures Content(s, p, depth, node) == Content(s, t, depth, With(node, c)) && depth + LevelsOf(c) <= MAX_DEPTH
    decreases |s| - p, 2
  {
    if s[p] != '<' {
      c, t := Chars([s[p]]), p + 1;
      CharIs(s, p, s[p]);
      ContentChar(s, p, depth, node);
    } else if At(s, p, "<!--") {
      var q := CommentFound(s, p, depth, node);
      var comment := CommentSound(s, p, q);
      c, t := Remark(comment), q + 3;
    } else if At(s, p, "<![CDATA[") {
      c, t := CDataItem(s, p, depth, node);
    } else {
      c, t := ChildSound(s, p, depth, node);
    }
  }

  lemma {:induction false} CDataItem(s: string, p: nat, depth: nat, node: Node) returns (c: Item, t: nat)
    requires p < |s| && Content(s, p, depth, node).Ok? && At(s, p, "<![CDATA[")
    ensures c.CData? && ProperItem(c) && At(s, p, One(c)) && t == p + |One(c)| && p < t <= |s|
    ensures Content(s, p, depth, node) == Content(s, t, depth, With(node, c))
  {
    var q := CDataFound(s, p, depth, node);
    var raw := CDataSound(s, p, q);
    c, t := CData(raw), q + 3;
    ContentCData(s, p, depth, node, q);
  }

  lemma {:induction false} ChildSound(s: string, p: nat, depth: nat, node: Node) returns (c: Item, t: nat)
    requires p < |s| && Content(s, p, depth, node).Ok? && s[p] == '<' && depth <= MAX_DEPTH
    requires !At(s, p, "</") && !At(s, p, "<!--") && !At(s, p, "<![CDATA[")
    ensures ProperItem(c) && At(s, p, One(c)) && t == p + |One(c)| && p < t <= |s|
    ensures Content(s, p, depth, node) == Content(s, t, depth, With(node, c)) && depth + LevelsOf(c) <= MAX_DEPTH
    decreases |s| - p, 1
  {
    t := ChildFound(s, p, depth, node);
    var m, end := ElementSound(s, p, depth + 1);
    c := Child(m);
  }

  /** The content up to and with its closing tag, which starts at `q`. */
  lemma {:induction false} ContentSound(s: string, p: nat, depth: nat, node: Node)
      returns (items: seq<Item>, prefix: Option<string>, blanks: string, q: nat, end: nat)
    requires p <= |s| && Content(s, p, depth, node).Ok? && depth <= MAX_DEPTH
    ensures ProperItems(items) && At(s, p, Joined(items)) && q == p + |Joined(items)|
    ensures ProperClosing(prefix, node.name) && Blanks(blanks) && At(s, q, CloseTag(prefix, node.name, blanks))
    ensures end == q + |CloseTag(prefix, node.name, blanks)| <= |s|
    ensures Content(s, p, depth, node) == Ok(Finished(WithAll(node, items)), end) && depth + Levels(items) <= MAX_DEPTH
    decreases |s| - p, 3
  {
    ContentNotEnd(s, p, depth, node);
    if At(s, p, "</") {
      items, q := [], p;
      prefix, blanks, end := CloseSound(s, p, node.name);
      ContentCloses(s, p, depth, node, end);
      NothingThere(s, p);
    } else {
      var c, t := ItemSound(s, p, depth, node);
      var more;
      more, prefix, blanks, q, end := ContentSound(s, t, depth, With(node, c));
      items := [c] + more;
      ItemsThere(s, p, c, more, items, node);
    }
  }

  /** The node with its text decoded. */
  ghost function Finished(node: Node): Node { node.(text := Decoded(node.text)) }

  lemma {:induction false} ItemsThere(s: string, p: nat, c: Item, more: seq<Item>, items: seq<Item>, node: Node)
    requires items == [c] + more && ProperItem(c) && ProperItems(more) && At(s, p, One(c))
    requires At(s, p + |One(c)|, Joined(more))
    ensures ProperItems(items) && At(s, p, Joined(items)) && |Joined(items)| == |One(c)| + |Joined(more)|
    ensures WithAll(node, items) == WithAll(With(node, c), more) && With(node, c).name == node.name
    ensures Levels(items) == if LevelsOf(c) < Levels(more) then Levels(more) else LevelsOf(c)
  {
    assert items[0] == c && items[1..] == more;
    AtConcat(s, p, One(c), Joined(more));
  }

  // --- Elements ---------------------------------------------------------------------------------

  /** An element's name up to `n` and its attributes up to `end`. */
  lemma {:induction false} TagFound(s: string, p: nat, depth: nat) returns (n: nat, end: nat)
    requires p <= |s| && Element(s, p, depth).Ok?
    ensures CharAt(s, p, '<') && p + 1 < n == NameEnd(s, p + 1) <= |s|
    ensures Attributes(s, n, []).Ok? && end == Attributes(s, n, []).pos && end < |s|
    ensures var node := Node(LocalName(s[p + 1..n]), Attributes(s, n, []).value, "", []);
            Element(s, p, depth)
              == if s[end] == '>' then Content(s, end + 1, depth, node) else Ok(node, end + 2)
  {
    n := NameEnd(s, p + 1);
    end := ParseAttributes(s, n, []).pos;
  }

  /** Where the parts of a start tag are: `n` is after the name, `mid` after the attributes, `t` at
      what ends the tag. */
  ghost predicate TagLaid(s: string, p: nat, m: Markup, n: nat, mid: nat, t: nat) {
    && CharAt(s, p, '<') && At(s, p + 1, FullName(m.prefix, m.name)) && n == p + 1 + |FullName(m.prefix, m.name)|
    && At(s, n, Listed(m.attributes)) && mid == n + |Listed(m.attributes)|
    && At(s, mid, m.blanks) && t == mid + |m.blanks|
  }

  /** A tag from its name on, `rest` being what ends it and all that follows. */
  lemma {:induction false} TagThere(s: string, p: nat, m: Markup, n: nat, mid: nat, t: nat, rest: string)
    requires TagLaid(s, p, m, n, mid, t) && At(s, t, rest) && rest == TagRest(m)
    ensures At(s, p, Whole(m)) && p + |Whole(m)| == t + |rest| && Below(m) == Levels(m.contents)
  {
    CharIs(s, p, '<');
    AtConcat(s, mid, m.blanks, rest);
    AtConcat(s, n, Listed(m.attributes), m.blanks + rest);
    AtConcat(s, p + 1, FullName(m.prefix, m.name), Listed(m.attributes) + (m.blanks + rest));
    AtConcat(s, p, "<", FullName(m.prefix, m.name) + (Listed(m.attributes) + (m.blanks + rest)));
    WholeIs(m);
  }

  lemma {:induction false} FilledThere(s: string, t: nat, m: Markup, q: nat)
    requires CharAt(s, t, '>') && !m.closed && At(s, t + 1, Joined(m.contents)) && q == t + 1 + |Joined(m.contents)|
    requires At(s, q, CloseTag(m.closingPrefix, m.name, m.closingBlanks))
    ensures At(s, t, TagRest(m)) && t + |TagRest(m)| == q + |CloseTag(m.closingPrefix, m.name, m.closingBlanks)|
  {
    var close := CloseTag(m.closingPrefix, m.name, m.closingBlanks);
    CharIs(s, t, '>');
    AtConcat(s, t + 1, Joined(m.contents), close);
    AtConcat(s, t, ">", Joined(m.contents) + close);
  }

  lemma {:induction false} FilledMeans(m: Markup, start: Node)
    requires ProperMarkup(m) && start == Node(m.name, AttrsMean(m.attributes), "", [])
    ensures Finished(WithAll(start, m.contents)) == MarkupMeans(m)
  {
    WithAllIs(start, m.contents);
    assert "" + RawText(m.contents) == RawText(m.contents);
    assert [] + ChildrenMean(m.contents) == ChildrenMean(m.contents);
  }

  /** A start tag of any element that is accepted; `t` is at what ends it. */
  lemma {:induction false} TagSound(s: string, p: nat, depth: nat) returns (m: Markup, n: nat, mid: nat, t: nat)
    requires p <= |s| && Element(s, p, depth).Ok?
    ensures ProperName(m.prefix, m.name) && ProperAttrs(m.attributes) && Apart(m.attributes) && Blanks(m.blanks)
    ensures TagLaid(s, p, m, n, mid, t) && m.closed && m.contents == [] && m.closingPrefix.None?
            && m.closingBlanks == ""
    ensures p < t < |s| && (s[t] == '>' || At(s, t, "/>"))
    ensures var node := Node(m.name, AttrsMean(m.attributes), "", []);
            Element(s, p, depth) == if s[t] == '>' then Content(s, t + 1, depth, node) else Ok(node, t + 2)
  {
    n, t := TagFound(s, p, depth);
    var prefix, name := NameSound(s, p + 1);
    var attributes, blanks, last;
    attributes, blanks, mid, last := AttrsSound(s, n, []);
    assert [] + AttrsMean(attributes) == AttrsMean(attributes);
    ApartFromName(s, n, attributes);
    m := Markup(prefix, name, attributes, blanks, true, [], None, "");
  }

  lemma {:induction false} ElementSound(s: string, p: nat, depth: nat) returns (m: Markup, end: nat)
    requires p <= |s| && Element(s, p, depth).Ok? && depth <= MAX_DEPTH
    ensures ProperMarkup(m) && At(s, p, Whole(m)) && end == p + |Whole(m)| <= |s|
    ensures Element(s, p, depth) == Ok(MarkupMeans(m), end) && depth + Below(m) <= MAX_DEPTH
    decreases |s| - p, 0
  {
    var tag, n, mid, t := TagSound(s, p, depth);
    if s[t] == '>' {
      var start := Node(tag.name, AttrsMean(tag.attributes), "", []);
      var items, prefix, blanks, q;
      items, prefix, blanks, q, end := ContentSound(s, t + 1, depth, start);
      m := FilledSound(s, p, tag, n, mid, t, items, prefix, blanks, q, end, start, Element(s, p, depth));
    } else {
      m, end := tag, t + 2;
      EmptySound(s, p, m, n, mid, t, Element(s, p, depth));
    }
  }

  lemma {:induction false} FilledSound(s: string, p: nat, tag: Markup, n: nat, mid: nat, t: nat, items: seq<Item>,
                                       prefix: Option<string>, blanks: string, q: nat, end: nat, start: Node,
                                       read: Parsed<Node>)
      returns (m: Markup)
    requires ProperMarkup(tag) && TagLaid(s, p, tag, n, mid, t) && CharAt(s, t, '>')
    requires ProperItems(items) && At(s, t + 1, Joined(items)) && q == t + 1 + |Joined(items)|
    requires ProperClosing(prefix, tag.name) && Blanks(blanks) && At(s, q, CloseTag(prefix, tag.name, blanks))
    requires end == q + |CloseTag(prefix, tag.name, blanks)|
    requires start == Node(tag.name, AttrsMean(tag.attributes), "", [])
    requires read == Ok(Finished(WithAll(start, items)), end)
    ensures ProperMarkup(m) && At(s, p, Whole(m)) && end == p + |Whole(m)| && Below(m) == Levels(items)
    ensures read == Ok(MarkupMeans(m), end)
  {
    m := tag.(closed := false, contents := items, closingPrefix := prefix, closingBlanks := blanks);
    FilledThere(s, t, m, q);
    TagThere(s, p, m, n, mid, t, TagRest(m));
    FilledMeans(m, start);
  }

  lemma {:induction false} EmptySound(s: string, p: nat, m: Markup, n: nat, mid: nat, t: nat, read: Parsed<Node>)
    requires ProperMarkup(m) && TagLaid(s, p, m, n, mid, t) && At(s, t, "/>") && m.closed
    ensures At(s, p, Whole(m)) && t + 2 == p + |Whole(m)| <= |s|
    requires read == Ok(Node(m.name, AttrsMean(m.attributes), "", []), t + 2)
    ensures read == Ok(MarkupMeans(m), t + 2) && Below(m) == 0
  {
    AtIndex(s, t, "/>");
    TagThere(s, p, m, n, mid, t, TagRest(m));
    NothingInside(m);
  }

  // --- Documents --------------------------------------------------------------------------------

  lemma {:induction false} InstructionSound(s: string, p: nat) returns (x: Misc, t: nat)
    requires p <= |s| && Prologue(s, p).Ok? && Skip(s, p) == p && At(s, p, "<?")
    ensures ProperMisc(x) && At(s, p, MiscText(x)) && t == p + |MiscText(x)| && p < t <= |s|
    ensures Prologue(s, p) == Prologue(s, t)
  {
    var q := Find(s, p, "?>").value;
    SectionSound(s, p, "?>", q);
    InstructionLong(s, p, q);
    x, t := Instruction(s[p..q + 2]), q + 2;
    StartsWith(s, p, s[p..q + 2], "<?");
  }

  lemma {:induction false} InstructionLong(s: string, p: nat, q: nat)
    requires At(s, p, "<?") && p <= |s| && Find(s, p, "?>") == Some(q)
    ensures q >= p + 1
  {
    WordFound(s, p, "?>", q);
    AtHead(s, p, "<?");
    AtHead(s, q, "?>");
  }

  lemma {:induction false} NoteSound(s: string, p: nat) returns (x: Misc, t: nat)
    requires p <= |s| && Prologue(s, p).Ok? && Skip(s, p) == p && At(s, p, "<!--")
    ensures ProperMisc(x) && At(s, p, MiscText(x)) && t == p + |MiscText(x)| && p < t <= |s|
    ensures Prologue(s, p) == Prologue(s, t)
  {
    AtIndex(s, p, "<!--");
    assert s[p + 1] == "<!--"[1];
    SecondDiffers(s, p, "<?");
    var q := Find(s, p, "-->").value;
    var comment := CommentSound(s, p, q);
    x, t := Note(comment), q + 3;
  }

  lemma {:induction false} DeclarationSound(s: string, p: nat) returns (x: Misc, t: nat)
    requires p <= |s| && Prologue(s, p).Ok? && Skip(s, p) == p
    requires At(s, p, "<!") && !At(s, p, "<!--") && !At(s, p, "<?")
    ensures ProperMisc(x) && At(s, p, MiscText(x)) && t == p + |MiscText(x)| && p < t <= |s|
    ensures Prologue(s, p) == Prologue(s, t)
  {
    var q := FindFrom(s, p, '>');
    NotBefore(s, p, '>');
    assert q < |s|;
    MarkLong(s, p, q);
    x, t := Declaration(s[p + 2..q]), q + 1;
    DeclarationThere(s, p, q);
    DeclarationProper(s, p, q);
  }

  lemma {:induction false} MarkLong(s: string, p: nat, q: nat)
    requires At(s, p, "<!") && p <= q < |s| && s[q] == '>'
    ensures q >= p + 2
  {
    AtIndex(s, p, "<!");
    assert s[p + 0] == "<!"[0] && s[p + 1] == "<!"[1];
  }

  lemma {:induction false} DeclarationThere(s: string, p: nat, q: nat)
    requires At(s, p, "<!") && p + 2 <= q < |s| && s[q] == '>'
    ensures At(s, p, MiscText(Declaration(s[p + 2..q]))) && |MiscText(Declaration(s[p + 2..q]))| == q + 1 - p
  {
    var text := s[p + 2..q];
    CharIs(s, q, '>');
    SliceThere(s, p + 2, q);
    AtConcat(s, p + 2, text, ">");
    AtConcat(s, p, "<!", text + ">");
  }

  lemma {:induction false} DashesThere(s: string, p: nat)
    requires At(s, p, "<!") && p + 4 <= |s| && s[p + 2] == '-' && s[p + 3] == '-'
    ensures At(s, p, "<!--")
  {
    assert s[p + 2..p + 4] == "--";
    SliceThere(s, p + 2, p + 4);
    AtConcat(s, p, "<!", "--");
    assert "<!" + "--" == "<!--";
  }

  lemma {:induction false} CommentIsMark(s: string, p: nat)
    requires At(s, p, "<!--")
    ensures At(s, p, "<!")
  {
    assert "<!" + "--" == "<!--";
    AtConcat(s, p, "<!", "--");
  }

  lemma {:induction false} DeclarationProper(s: string, p: nat, q: nat)
    requires At(s, p, "<!") && !At(s, p, "<!--") && p + 2 <= q <= |s| && forall i | p <= i < q :: s[i] != '>'
    ensures ProperMisc(Declaration(s[p + 2..q]))
  {
    var text := s[p + 2..q];
    forall i | 0 <= i < |text| ensures text[i] != '>' { assert text[i] == s[p + 2 + i]; }
    if |text| >= 2 && text[0] == '-' && text[1] == '-' {
      DashesThere(s, p);
    }
  }

  /** What precedes the root, which starts at `q`. */
  lemma {:induction false} PrologueSound(s: string, p: nat) returns (miscs: seq<Misc>, q: nat)
    requires p <= |s| && Prologue(s, p).Ok?
    ensures ProperMiscs(miscs) && At(s, p, Preface(miscs)) && q == p + |Preface(miscs)| <= |s|
    ensures Prologue(s, p) == Ok((), q)
    decreases |s| - p
  {
    var blanks := BlanksSound(s, p);
    var g := Skip(s, p);
    GapPasses(s, p, blanks, g);
    NoSpace(s, g);
    if At(s, g, "<?") || At(s, g, "<!") {
      var x, t := MiscSound(s, g);
      var more;
      more, q := PrologueSound(s, t);
      miscs := [Gap(blanks)] + ([x] + more);
      MiscThere(s, g, x, more);
      MiscThere(s, p, Gap(blanks), [x] + more);
    } else {
      q := g;
      miscs := [Gap(blanks)] + [];
      NothingThere(s, g);
      MiscThere(s, p, Gap(blanks), []);
      PrologueEnds(s, g);
    }
  }

  lemma {:induction false} MiscSound(s: string, g: nat) returns (x: Misc, t: nat)
    requires g <= |s| && Prologue(s, g).Ok? && Skip(s, g) == g && (At(s, g, "<?") || At(s, g, "<!"))
    ensures ProperMisc(x) && At(s, g, MiscText(x)) && t == g + |MiscText(x)| && g < t <= |s|
    ensures Prologue(s, g) == Prologue(s, t)
  {
    if At(s, g, "<?") {
      x, t := InstructionSound(s, g);
    } else if At(s, g, "<!--") {
      x, t := NoteSound(s, g);
    } else {
      x, t := DeclarationSound(s, g);
    }
  }

  lemma {:induction false} PrologueEnds(s: string, g: nat)
    requires g <= |s| && Skip(s, g) == g && !At(s, g, "<?") && !At(s, g, "<!")
    ensures Prologue(s, g) == Ok((), g)
  {
    if At(s, g, "<!--") { CommentIsMark(s, g); }
  }

  lemma {:induction false} MiscThere(s: string, p: nat, x: Misc, more: seq<Misc>)
    requires ProperMisc(x) && ProperMiscs(more) && At(s, p, MiscText(x)) && At(s, p + |MiscText(x)|, Preface(more))
    ensures ProperMiscs([x] + more) && At(s, p, Preface([x] + more))
    ensures |Preface([x] + more)| == |MiscText(x)| + |Preface(more)|
  {
    var all := [x] + more;
    assert all[0] == x && all[1..] == more;
    AtConcat(s, p, MiscText(x), Preface(more));
  }

  /** Whatever is accepted is a prologue, markup with at most 64 levels below its root, and anything
      after it, and is read as what the markup means. */
  lemma {:induction false} AcceptedIsMarkup(s: string) returns (before: seq<Misc>, m: Markup, after: string)
    requires Parse(s).Ok?
    ensures ProperMiscs(before) && ProperMarkup(m) && s == MiscsText(before) + (MarkupText(m) + after)
    ensures Height(m) <= 64 && Parse(s) == Ok(MarkupMeans(m), |MiscsText(before)| + |MarkupText(m)|)
  {
    var p, end;
    RootFound(s);
    before, p := PrologueSound(s, 0);
    m, end := ElementSound(s, p, 0);
    after := s[end..];
    WholeText(s, p, end, Preface(before), Whole(m));
  }

  lemma {:induction false} RootFound(s: string)
    requires Parse(s).Ok?
    ensures Prologue(s, 0).Ok? && Prologue(s, 0).pos <= |s| && Parse(s) == Element(s, Prologue(s, 0).pos, 0)
  {
  }

  lemma {:induction false} WholeText(s: string, p: nat, end: nat, before: string, text: string)
    requires At(s, 0, before) && p == |before| && At(s, p, text) && end == p + |text| && end <= |s|
    ensures s == before + (text + s[end..])
  {
    AtSlice(s, 0, before);
    AtSlice(s, p, text);
    assert s == s[..p] + (s[p..end] + s[end..]);
  }

  /** The reader accepts exactly such documents. */
  lemma {:induction false} AcceptsExactly(s: string)
    ensures Parse(s).Ok? <==> exists before, m, after :: IsDocument(s, before, m, after)
  {
    if Parse(s).Ok? {
      var before, m, after := AcceptedIsMarkup(s);
      assert IsDocument(s, before, m, after);
    }
    if before, m, after :| IsDocument(s, before, m, after) { DocumentReads(before, m, after); }
  }

  ghost predicate IsDocument(s: string, before: seq<Misc>, m: Markup, after: string) {
    && ProperMiscs(before) && ProperMarkup(m) && Height(m) <= 64
    && s == MiscsText(before) + (MarkupText(m) + after)
  }
}
