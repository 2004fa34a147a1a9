/** Markup of every shape the reader understands: names with prefixes, either quote, blanks
    wherever they may be, empty-element tags, text, comments, CDATA sections and children in any
    order, and a prologue. It is read as what it means, exactly when it is nested no deeper than
    the reader allows. */
module XmlRoundTrip {
  import opened Text
  import opened Xml
  import opened XmlText

  // --- Markup (XML 1.0, sections 2.4 to 2.8 and 3.1) ----------------------------------------------

  datatype Quote = Single | Double

  /** `blanks prefix:name blanks = blanks "value"`. */
  datatype Attr = Attr(
    before: string, prefix: Option<string>, name: string, beforeEquals: string, afterEquals: string, quote: Quote,
    value: string)

  datatype Item =
    | Chars(raw: string)
    | Remark(comment: string)
    | CData(raw: string)
    | Child(child: Markup)

  /** `<prefix:name attributes blanks/>`, or with `>`, contents and `</prefix:name blanks>`, where the
      prefix may be another. */
  datatype Markup = Markup(
    prefix: Option<string>, name: string, attributes: seq<Attr>, blanks: string, closed: bool, contents: seq<Item>,
    closingPrefix: Option<string>, closingBlanks: string)

  function FullName(prefix: Option<string>, name: string): string {
    if prefix.None? then name else prefix.value + (":" + name)
  }

  function QuoteChar(q: Quote): char { if q.Single? then '\'' else '\"' }

  function AttrText(a: Attr): string {
    a.before + (FullName(a.prefix, a.name)
    + (a.beforeEquals + ("=" + (a.afterEquals + ([QuoteChar(a.quote)] + (a.value + [QuoteChar(a.quote)]))))))
  }

  function AttrsText(attributes: seq<Attr>): string {
    if attributes == [] then "" else AttrText(attributes[0]) + AttrsText(attributes[1..])
  }

  function CDataText(raw: string): string { "<![CDATA[" + (raw + "]]>") }

  function CloseTag(prefix: Option<string>, name: string, blanks: string): string {
    "</" + (FullName(prefix, name) + (blanks + ">"))
  }

  function MarkupText(m: Markup): string
    decreases m, 1
  {
    "<" + (FullName(m.prefix, m.name) + (AttrsText(m.attributes) + (m.blanks
    + if m.closed then "/>"
      else ">" + (ItemsText(m.contents) + CloseTag(m.closingPrefix, m.name, m.closingBlanks)))))
  }

  function ItemText(c: Item): string
    decreases c, 2
  {
    match c
    case Chars(raw) => raw
    case Remark(comment) => comment
    case CData(raw) => CDataText(raw)
    case Child(m) => MarkupText(m)
  }

  function ItemsText(contents: seq<Item>): string
    decreases contents
  {
    if contents == [] then "" else ItemText(contents[0]) + ItemsText(contents[1..])
  }

  // --- What it means -------------------------------------------------------------------------

  ghost function AttrsMean(attributes: seq<Attr>): seq<Attribute>
    requires ProperAttrs(attributes)
  {
    if attributes == [] then [] else
    [Attribute(attributes[0].name, Decoded(attributes[0].value))] + AttrsMean(attributes[1..])
  }

  /** The text of the contents, as it stands. */
  function RawText(contents: seq<Item>): string {
    if contents == [] then "" else
    (match contents[0]
     case Chars(raw) => raw
     case CData(raw) => raw
     case _ => "") + RawText(contents[1..])
  }

  ghost function ChildrenMean(contents: seq<Item>): seq<Node>
    requires ProperItems(contents)
    decreases contents
  {
    if contents == [] then [] else ChildMeans(contents[0]) + ChildrenMean(contents[1..])
  }

  ghost function ChildMeans(c: Item): seq<Node>
    requires ProperItem(c)
    decreases c, 2
  {
    match c
    case Child(m) => [MarkupMeans(m)]
    case _ => []
  }

  /** The local name, the attributes, the text with its entities replaced, and the children. */
  ghost function MarkupMeans(m: Markup): Node
    requires ProperMarkup(m)
    decreases m, 1
  {
    Node(m.name, AttrsMean(m.attributes), Decoded(RawText(m.contents)), ChildrenMean(m.contents))
  }

  /** Levels below the element. */
  function Height(m: Markup): nat
    decreases m, 1
  {
    ItemsHeight(m.contents)
  }

  function ItemsHeight(contents: seq<Item>): nat
    decreases contents
  {
    if contents == [] then 0 else
    var h := ItemHeight(contents[0]);
    var rest := ItemsHeight(contents[1..]);
    if h < rest then rest else h
  }

  function ItemHeight(c: Item): nat
    decreases c, 2
  {
    match c
    case Child(m) => 1 + Height(m)
    case _ => 0
  }

  // --- Which markup is proper ------------------------------------------------------------------

  ghost predicate Blanks(s: string) { forall i | 0 <= i < |s| :: IsSpace(s[i]) }

  /** The name has no colon, and with its prefix is a name. */
  ghost predicate ProperName(prefix: Option<string>, name: string) {
    var full := FullName(prefix, name);
    full != "" && IsNameStart(full[0]) && NoChar(name, ':') && forall i | 0 <= i < |full| :: IsNameChar(full[i])
  }

  ghost predicate ProperAttr(a: Attr) {
    && Blanks(a.before) && ProperName(a.prefix, a.name) && Blanks(a.beforeEquals) && Blanks(a.afterEquals)
    && NoChar(a.value, QuoteChar(a.quote))
  }

  ghost predicate ProperAttrs(attributes: seq<Attr>) {
    attributes == [] || (ProperAttr(attributes[0]) && ProperAttrs(attributes[1..]))
  }

  /** The first attribute is apart from the name of the element. */
  ghost predicate Apart(attributes: seq<Attr>) { attributes == [] || attributes[0].before != "" }

  /** The mark that ends a section comes at its end only. */
  ghost predicate EndsOnce(text: string, mark: string) {
    forall i | 0 <= i < |text| - |mark| :: !At(text, i, mark)
  }

  /** From its `<!--` to the first `-->`; the two may share dashes. */
  ghost predicate ProperComment(comment: string) {
    At(comment, 0, "<!--") && EndsWith(comment, "-->") && EndsOnce(comment, "-->")
  }

  ghost predicate EndsWith(text: string, mark: string) { |mark| <= |text| && text[|text| - |mark|..] == mark }

  ghost predicate ProperItem(c: Item)
    decreases c, 2
  {
    match c
    case Chars(raw) => NoChar(raw, '<')
    case Remark(comment) => ProperComment(comment)
    case CData(raw) => EndsOnce(raw + "]]>", "]]>")
    case Child(m) => ProperMarkup(m)
  }

  ghost predicate ProperItems(contents: seq<Item>)
    decreases contents
  {
    contents == [] || (ProperItem(contents[0]) && ProperItems(contents[1..]))
  }

  /** A closing tag may do without a name when the name it repeats is nothing but a prefix. */
  ghost predicate ProperClosing(prefix: Option<string>, name: string) {
    FullName(prefix, name) == "" || ProperName(prefix, name)
  }

  /** An empty-element tag has no contents. */
  ghost predicate ProperMarkup(m: Markup)
    decreases m, 1
  {
    && ProperName(m.prefix, m.name) && ProperAttrs(m.attributes) && Apart(m.attributes) && Blanks(m.blanks)
    && ProperItems(m.contents) && Blanks(m.closingBlanks)
    && if m.closed then m.contents == [] else ProperClosing(m.closingPrefix, m.name)
  }

  // --- Names, blanks and sections ----------------------------------------------------------------

  lemma {:induction false} StripAfterColon(prefix: string, name: string)
    requires NoChar(name, ':')
    ensures StripPrefix(prefix + (":" + name)) == name
    decreases |name|
  {
    var full := prefix + (":" + name);
    if name != "" {
      var n := |name| - 1;
      assert full[..|full| - 1] == prefix + (":" + name[..n]);
      StripAfterColon(prefix, name[..n]);
      assert name == name[..n] + [name[n]];
    }
  }

  lemma {:induction false} StripPlain(name: string)
    requires NoChar(name, ':')
    ensures StripPrefix(name) == name
  {
    if name != "" { StripPlain(name[..|name| - 1]); }
  }

  lemma {:induction false} SkipNameTo(s: string, p: nat, q: nat)
    requires p <= q <= |s| && (forall i | p <= i < q :: IsNameChar(s[i])) && (q < |s| ==> !IsNameChar(s[q]))
    ensures SkipNameChars(s, p) == q
    decreases q - p
  {
    if p < q { SkipNameTo(s, p + 1, q); }
  }

  lemma {:induction false} LocalIs(prefix: Option<string>, name: string)
    requires NoChar(name, ':')
    ensures LocalName(FullName(prefix, name)) == name
  {
    if prefix.None? { StripPlain(name); } else { StripAfterColon(prefix.value, name); }
  }

  lemma {:induction false} NameReads(s: string, p: nat, prefix: Option<string>, name: string, end: nat)
    requires At(s, p, FullName(prefix, name)) && ProperName(prefix, name) && end == p + |FullName(prefix, name)|
    requires end < |s| ==> !IsNameChar(s[end])
    ensures end <= |s| && IsNameStart(s[p]) && NameEnd(s, p) == end && LocalName(s[p..end]) == name
  {
    var full := FullName(prefix, name);
    AtIndex(s, p, full);
    AtSlice(s, p, full);
    AtHead(s, p, full);
    forall i | p <= i < end ensures IsNameChar(s[i]) { assert s[p + (i - p)] == full[i - p]; }
    SkipNameTo(s, p + 1, end);
    LocalIs(prefix, name);
  }

  // The reader's recursive helpers under names that do not unfold by themselves.

  ghost function Skip(s: string, p: nat): nat
    requires p <= |s|
  {
    SkipSpace(s, p)
  }

  lemma {:induction false} SkipTo(s: string, p: nat, q: nat)
    requires p <= q <= |s| && (forall i | p <= i < q :: IsSpace(s[i])) && (q < |s| ==> !IsSpace(s[q]))
    ensures Skip(s, p) == q
    decreases q - p
  {
    if p < q { SkipTo(s, p + 1, q); }
  }

  /** Blanks are skipped up to what follows them. */
  lemma {:induction false} BlanksSkip(s: string, p: nat, blanks: string, rest: string, q: nat)
    requires At(s, p, blanks + rest) && Blanks(blanks) && q == p + |blanks| && rest != "" && !IsSpace(rest[0])
    ensures p <= |s| && Skip(s, p) == q && At(s, q, rest) && q < |s| && s[q] == rest[0]
  {
    AtConcat(s, p, blanks, rest);
    AtIndex(s, p, blanks);
    AtHead(s, q, rest);
    forall i | p <= i < q ensures IsSpace(s[i]) { assert s[p + (i - p)] == blanks[i - p]; }
    SkipTo(s, p, q);
  }

  lemma {:induction false} CharThere(s: string, p: nat, c: char, rest: string)
    requires At(s, p, [c] + rest)
    ensures CharAt(s, p, c) && At(s, p + 1, rest)
  {
    AtConcat(s, p, [c], rest);
    AtHead(s, p, [c]);
  }

  lemma {:induction false} Assoc(a: string, b: string, c: string)
    ensures a + b + c == a + (b + c)
  {
  }

  // --- Attributes ----------------------------------------------------------------------------

  ghost function Listed(attributes: seq<Attr>): string { AttrsText(attributes) }

  /** The attribute loop, under a name that does not unfold. */
  ghost function Attributes(s: string, p: nat, acc: seq<Attribute>): Parsed<seq<Attribute>>
    requires p <= |s|
  {
    ParseAttributes(s, p, acc)
  }

  /** From the equals sign on. */
  ghost function ValueThen(a: Attr, rest: string): string {
    "=" + (a.afterEquals + ([QuoteChar(a.quote)] + (a.value + ([QuoteChar(a.quote)] + rest))))
  }

  ghost function AttrThen(a: Attr, rest: string): string {
    a.before + (FullName(a.prefix, a.name) + (a.beforeEquals + ValueThen(a, rest)))
  }

  lemma {:induction false} AttrThenIs(a: Attr, rest: string)
    ensures AttrText(a) + rest == AttrThen(a, rest)
  {
    var q, v := [QuoteChar(a.quote)], a.value;
    Assoc(v, q, rest);
    Assoc(q, v + q, rest);
    Assoc(a.afterEquals, q + (v + q), rest);
    Assoc("=", a.afterEquals + (q + (v + q)), rest);
    Assoc(a.beforeEquals, "=" + (a.afterEquals + (q + (v + q))), rest);
    Assoc(FullName(a.prefix, a.name), a.beforeEquals + ("=" + (a.afterEquals + (q + (v + q)))), rest);
    Assoc(a.before, FullName(a.prefix, a.name) + (a.beforeEquals + ("=" + (a.afterEquals + (q + (v + q))))), rest);
  }

  lemma {:induction false} AttrLength(a: Attr)
    ensures |AttrText(a)| == |a.before| + |FullName(a.prefix, a.name)| + |a.beforeEquals| + |a.afterEquals|
                             + |a.value| + 3
  {
  }

  /** The name of an attribute, and the blanks around it. */
  lemma {:induction false} AttrNameReads(s: string, p: nat, a: Attr, rest: string, start: nat, n: nat, e: nat)
    requires ProperAttr(a) && At(s, p, AttrThen(a, rest)) && start == p + |a.before|
    requires n == start + |FullName(a.prefix, a.name)| && e == n + |a.beforeEquals|
    ensures p <= |s| && Skip(s, p) == start < n <= |s| && IsNameStart(s[start])
    ensures NameEnd(s, start) == n && LocalName(s[start..n]) == a.name
    ensures Skip(s, n) == e && At(s, e, ValueThen(a, rest))
  {
    var full, after := FullName(a.prefix, a.name), a.beforeEquals + ValueThen(a, rest);
    BlanksSkip(s, p, a.before, full + after, start);
    AtConcat(s, start, full, after);
    BlanksSkip(s, n, a.beforeEquals, ValueThen(a, rest), e);
    assert after[0] == if a.beforeEquals == "" then '=' else a.beforeEquals[0];
    AtHead(s, n, after);
    NameReads(s, start, a.prefix, a.name, n);
  }

  /** The value between its quotes. */
  lemma {:induction false} AttrValueReads(s: string, e: nat, a: Attr, rest: string, v: nat, end: nat)
    requires ProperAttr(a) && At(s, e, ValueThen(a, rest))
    requires v == e + |a.afterEquals| + 2 && end == v + |a.value|
    ensures CharAt(s, e, '=') && e + 1 <= |s| && Skip(s, e + 1) == v - 1 && CharAt(s, v - 1, QuoteChar(a.quote))
    ensures v <= |s| && FindFrom(s, v, QuoteChar(a.quote)) == end < |s| && s[v..end] == a.value
    ensures At(s, end + 1, rest)
  {
    QuotedReads(s, e, a.afterEquals, QuoteChar(a.quote), a.value, rest, v, end);
  }

  lemma {:induction false} QuotedReads(s: string, e: nat, blanks: string, q: char, text: string, rest: string, v: nat,
                                       end: nat)
    requires At(s, e, "=" + (blanks + ([q] + (text + ([q] + rest))))) && Blanks(blanks) && (q == '\'' || q == '\"')
    requires NoChar(text, q) && v == e + |blanks| + 2 && end == v + |text|
    ensures CharAt(s, e, '=') && e + 1 <= |s| && Skip(s, e + 1) == v - 1 && CharAt(s, v - 1, q)
    ensures v <= |s| && FindFrom(s, v, q) == end < |s| && s[v..end] == text && At(s, end + 1, rest)
  {
    var inner := text + ([q] + rest);
    CharThere(s, e, '=', blanks + ([q] + inner));
    BlanksSkip(s, e + 1, blanks, [q] + inner, v - 1);
    CharThere(s, v - 1, q, inner);
    AtConcat(s, v, text, [q] + rest);
    CharThere(s, end, q, rest);
    QuoteFound(s, v, text, q, end);
  }

  lemma {:induction false} QuoteFound(s: string, v: nat, text: string, q: char, end: nat)
    requires At(s, v, text) && end == v + |text| && CharAt(s, end, q) && NoChar(text, q)
    ensures v <= |s| && FindFrom(s, v, q) == end && s[v..end] == text
  {
    AtSlice(s, v, text);
    AtIndex(s, v, text);
    forall i | v <= i < end ensures s[i] != q { assert s[v + (i - v)] == text[i - v]; }
    FindCharAt(s, v, end, q);
  }

  lemma {:induction false} AttributeParsed(s: string, start: nat, n: nat, e: nat, v: nat, end: nat, name: string,
                                           q: char,
                                           text: string)
    requires start < n <= e < v <= end < |s| && NameEnd(s, start) == n && LocalName(s[start..n]) == name
    requires Skip(s, n) == e && CharAt(s, e, '=') && Skip(s, e + 1) == v - 1 && CharAt(s, v - 1, q)
    requires (q == '\'' || q == '\"') && FindFrom(s, v, q) == end && s[v..end] == text
    ensures ParseAttribute(s, start) == Ok(Attribute(name, Decoded(text)), end + 1)
  {
  }

  lemma {:induction false} AttributeStep(s: string, p: nat, start: nat, next: nat, a: Attribute, acc: seq<Attribute>)
    requires p <= start < |s| && Skip(s, p) == start && IsNameStart(s[start]) && ParseAttribute(s, start) == Ok(a, next)
    ensures next <= |s| && Attributes(s, p, acc) == Attributes(s, next, acc + [a])
  {
    AtDiffers(s, start, "/>");
  }

  lemma {:induction false} AttrParses(s: string, p: nat, a: Attr, rest: string, start: nat, n: nat, e: nat, v: nat,
                                      end: nat)
    requires ProperAttr(a) && At(s, p, AttrThen(a, rest)) && start == p + |a.before|
    requires n == start + |FullName(a.prefix, a.name)| && e == n + |a.beforeEquals| && v == e + |a.afterEquals| + 2
    requires end == v + |a.value|
    ensures p <= start < |s| && Skip(s, p) == start && IsNameStart(s[start]) && At(s, end + 1, rest)
    ensures ParseAttribute(s, start) == Ok(Attribute(a.name, Decoded(a.value)), end + 1)
  {
    AttrNameReads(s, p, a, rest, start, n, e);
    AttrValueReads(s, e, a, rest, v, end);
    AttributeParsed(s, start, n, e, v, end, a.name, QuoteChar(a.quote), a.value);
  }

  lemma {:induction false} AttrReads(s: string, p: nat, next: nat, a: Attr, rest: string, acc: seq<Attribute>)
    requires ProperAttr(a) && At(s, p, AttrText(a) + rest) && next == p + |AttrText(a)|
    ensures p <= |s| && next <= |s| && At(s, next, rest)
    ensures Attributes(s, p, acc) == Attributes(s, next, acc + [Attribute(a.name, Decoded(a.value))])
  {
    var start := p + |a.before|;
    var n := start + |FullName(a.prefix, a.name)|;
    var e := n + |a.beforeEquals|;
    var v := e + |a.afterEquals| + 2;
    AttrLength(a);
    AttrThenIs(a, rest);
    AttrParses(s, p, a, rest, start, n, e, v, next - 1);
    AttributeStep(s, p, start, next, Attribute(a.name, Decoded(a.value)), acc);
  }

  lemma {:induction false} ListedText(attributes: seq<Attr>, rest: string)
    requires attributes != []
    ensures Listed(attributes) + rest == AttrText(attributes[0]) + (Listed(attributes[1..]) + rest)
    ensures |Listed(attributes)| == |AttrText(attributes[0])| + |Listed(attributes[1..])|
  {
    assert Listed(attributes) == AttrText(attributes[0]) + Listed(attributes[1..]);
    Assoc(AttrText(attributes[0]), Listed(attributes[1..]), rest);
  }

  lemma {:induction false} AttributesRead(s: string, p: nat, end: nat, attributes: seq<Attr>, rest: string,
                                          acc: seq<Attribute>)
    requires ProperAttrs(attributes) && At(s, p, Listed(attributes) + rest) && end == p + |Listed(attributes)|
    ensures p <= |s| && end <= |s| && At(s, end, rest)
    ensures Attributes(s, p, acc) == Attributes(s, end, acc + AttrsMean(attributes))
    decreases |attributes|
  {
    if attributes == [] {
      assert "" + rest == rest && acc + [] == acc;
    } else {
      var a, more := attributes[0], attributes[1..];
      var q := p + |AttrText(a)|;
      ListedText(attributes, rest);
      AttrReads(s, p, q, a, Listed(more) + rest, acc);
      AttributesRead(s, q, end, more, rest, acc + [Attribute(a.name, Decoded(a.value))]);
      assert acc + [Attribute(a.name, Decoded(a.value))] + AttrsMean(more) == acc + AttrsMean(attributes);
    }
  }

  // --- Tags ----------------------------------------------------------------------------------

  ghost function Element(s: string, p: nat, depth: nat): Parsed<Node>
    requires p <= |s|
  {
    ParseElement(s, p, depth)
  }

  /** The blanks before the end of a tag. */
  lemma {:induction false} TagEnds(s: string, p: nat, blanks: string, rest: string, end: nat, acc: seq<Attribute>)
    requires At(s, p, blanks + rest) && Blanks(blanks) && end == p + |blanks|
    requires rest != "" && (rest[0] == '>' || (|rest| >= 2 && rest[..2] == "/>"))
    ensures p <= |s| && end < |s| && At(s, end, rest) && s[end] == rest[0] && Attributes(s, p, acc) == Ok(acc, end)
    ensures rest[0] == '/' ==> At(s, end, "/>")
  {
    BlanksSkip(s, p, blanks, rest, end);
    if rest[0] == '/' {
      assert rest == "/>" + rest[2..];
      AtConcat(s, end, "/>", rest[2..]);
    }
  }

  /** What follows the name of a tag is no part of it. */
  lemma {:induction false} AfterName(attributes: seq<Attr>, blanks: string, rest: string)
    requires ProperAttrs(attributes) && Apart(attributes) && Blanks(blanks)
    requires rest != "" && (rest[0] == '>' || rest[0] == '/')
    ensures var tail := Listed(attributes) + (blanks + rest); tail != "" && !IsNameChar(tail[0])
  {
    if attributes == [] {
      assert Listed(attributes) + (blanks + rest) == blanks + rest;
      assert (blanks + rest)[0] == if blanks == "" then rest[0] else blanks[0];
    } else {
      ListedText(attributes, blanks + rest);
      assert AttrText(attributes[0])[0] == attributes[0].before[0];
    }
  }

  /** A tag up to its end: `n` is after the name, `end` at what ends the tag. */
  lemma {:induction false} TagReads(s: string, p: nat, m: Markup, rest: string, n: nat, end: nat)
    requires ProperName(m.prefix, m.name) && ProperAttrs(m.attributes) && Apart(m.attributes) && Blanks(m.blanks)
    requires rest != "" && (rest[0] == '>' || (|rest| >= 2 && rest[..2] == "/>"))
    requires At(s, p, "<" + (FullName(m.prefix, m.name) + (Listed(m.attributes) + (m.blanks + rest))))
    requires n == p + 1 + |FullName(m.prefix, m.name)| && end == n + |Listed(m.attributes)| + |m.blanks|
    ensures CharAt(s, p, '<') && p + 1 < n <= |s| && IsNameStart(s[p + 1])
    ensures NameEnd(s, p + 1) == n && LocalName(s[p + 1..n]) == m.name
    ensures Attributes(s, n, []) == Ok(AttrsMean(m.attributes), end) && end < |s| && At(s, end, rest)
    ensures s[end] == rest[0] && (rest[0] == '/' ==> At(s, end, "/>"))
  {
    AfterName(m.attributes, m.blanks, rest);
    TagNameReads(s, p, m.prefix, m.name, Listed(m.attributes) + (m.blanks + rest), n);
    TagAttributesRead(s, n, m, rest, n + |Listed(m.attributes)|, end);
  }

  lemma {:induction false} TagNameReads(s: string, p: nat, prefix: Option<string>, name: string, tail: string, n: nat)
    requires ProperName(prefix, name) && At(s, p, "<" + (FullName(prefix, name) + tail))
    requires tail != "" && !IsNameChar(tail[0]) && n == p + 1 + |FullName(prefix, name)|
    ensures CharAt(s, p, '<') && p + 1 < n <= |s| && IsNameStart(s[p + 1]) && At(s, n, tail)
    ensures NameEnd(s, p + 1) == n && LocalName(s[p + 1..n]) == name
  {
    CharThere(s, p, '<', FullName(prefix, name) + tail);
    AtConcat(s, p + 1, FullName(prefix, name), tail);
    AtHead(s, n, tail);
    NameReads(s, p + 1, prefix, name, n);
  }

  lemma {:induction false} TagAttributesRead(s: string, n: nat, m: Markup, rest: string, next: nat, end: nat)
    requires ProperAttrs(m.attributes) && Blanks(m.blanks)
    requires rest != "" && (rest[0] == '>' || (|rest| >= 2 && rest[..2] == "/>"))
    requires At(s, n, Listed(m.attributes) + (m.blanks + rest))
    requires next == n + |Listed(m.attributes)| && end == next + |m.blanks|
    ensures n <= |s| && Attributes(s, n, []) == Ok(AttrsMean(m.attributes), end) && end < |s| && At(s, end, rest)
    ensures s[end] == rest[0] && (rest[0] == '/' ==> At(s, end, "/>"))
  {
    AttributesRead(s, n, next, m.attributes, m.blanks + rest, []);
    assert [] + AttrsMean(m.attributes) == AttrsMean(m.attributes);
    TagEnds(s, next, m.blanks, rest, end, AttrsMean(m.attributes));
  }

  lemma {:induction false} ElementOpens(s: string, p: nat, n: nat, end: nat, name: string, attributes: seq<Attribute>,
                                        depth: nat)
    requires CharAt(s, p, '<') && NameEnd(s, p + 1) == n && n > p + 1 && n <= |s| && LocalName(s[p + 1..n]) == name
    requires Attributes(s, n, []) == Ok(attributes, end) && CharAt(s, end, '>')
    ensures Element(s, p, depth) == Content(s, end + 1, depth, Node(name, attributes, "", []))
  {
  }

  lemma {:induction false} ElementIsEmpty(s: string, p: nat, n: nat, end: nat, name: string, attributes: seq<Attribute>,
                                          depth: nat)
    requires CharAt(s, p, '<') && NameEnd(s, p + 1) == n && n > p + 1 && n <= |s| && LocalName(s[p + 1..n]) == name
    requires Attributes(s, n, []) == Ok(attributes, end) && end < |s| && s[end] == '/'
    ensures Element(s, p, depth) == Ok(Node(name, attributes, "", []), end + 2)
  {
  }

  lemma {:induction false} CloseReads(s: string, p: nat, depth: nat, node: Node, m: Markup, end: nat)
    requires ProperClosing(m.closingPrefix, m.name) && Blanks(m.closingBlanks) && node.name == m.name
    requires At(s, p, CloseTag(m.closingPrefix, m.name, m.closingBlanks))
    requires end == p + |CloseTag(m.closingPrefix, m.name, m.closingBlanks)|
    ensures p <= |s| && Content(s, p, depth, node) == Ok(node.(text := Decoded(node.text)), end)
  {
    var full, tail := FullName(m.closingPrefix, m.name), m.closingBlanks + ">";
    var n := p + 2 + |full|;
    AtConcat(s, p, "</", full + tail);
    AtConcat(s, p + 2, full, tail);
    BlanksSkip(s, n, m.closingBlanks, ">", n + |m.closingBlanks|);
    assert tail[0] == if m.closingBlanks == "" then '>' else m.closingBlanks[0];
    AtHead(s, n, tail);
    ClosingNameReads(s, p + 2, m.closingPrefix, m.name, n);
    CloseParsed(s, p + 2, n, n + |m.closingBlanks|, m.name);
    ContentCloses(s, p, depth, node, end);
  }

  lemma {:induction false} ClosingNameReads(s: string, p: nat, prefix: Option<string>, name: string, n: nat)
    requires ProperClosing(prefix, name) && At(s, p, FullName(prefix, name)) && n == p + |FullName(prefix, name)|
    requires n < |s| ==> !IsNameChar(s[n])
    ensures n <= |s| && NameEnd(s, p) == n && LocalName(s[p..n]) == name
  {
    if FullName(prefix, name) == "" {
      assert prefix.None? && name == "" && s[p..p] == "";
    } else {
      NameReads(s, p, prefix, name, n);
    }
  }

  lemma {:induction false} CloseParsed(s: string, p: nat, n: nat, end: nat, name: string)
    requires p <= n <= end < |s| && NameEnd(s, p) == n && LocalName(s[p..n]) == name && Skip(s, n) == end
    requires CharAt(s, end, '>')
    ensures ParseClose(s, p, name) == Ok((), end + 1)
  {
  }

  lemma {:induction false} ContentCloses(s: string, p: nat, depth: nat, node: Node, end: nat)
    requires p + 2 <= |s| && At(s, p, "</") && ParseClose(s, p + 2, node.name) == Ok((), end)
    ensures Content(s, p, depth, node) == Ok(node.(text := Decoded(node.text)), end)
  {
  }

  // --- Contents ------------------------------------------------------------------------------

  lemma {:induction false} NoMarkup(s: string, p: nat)
    requires p < |s| && s[p] != '<'
    ensures !At(s, p, "</") && !At(s, p, "<!--") && !At(s, p, "<![CDATA[")
  {
    AtDiffers(s, p, "</");
    AtDiffers(s, p, "<!--");
    AtDiffers(s, p, "<![CDATA[");
  }

  lemma {:induction false} ContentChar(s: string, p: nat, depth: nat, node: Node)
    requires p < |s| && s[p] != '<'
    ensures Content(s, p, depth, node) == Content(s, p + 1, depth, node.(text := node.text + [s[p]]))
  {
    NoMarkup(s, p);
  }

  lemma {:induction false} TextReads(s: string, p: nat, t: string, depth: nat, node: Node)
    requires At(s, p, t) && NoChar(t, '<')
    ensures p + |t| <= |s| && Content(s, p, depth, node) == Content(s, p + |t|, depth, node.(text := node.text + t))
    decreases |t|
  {
    if t == "" {
      assert node.text + "" == node.text;
    } else {
      assert t == [t[0]] + t[1..];
      CharThere(s, p, t[0], t[1..]);
      ContentChar(s, p, depth, node);
      TextReads(s, p + 1, t[1..], depth, node.(text := node.text + [t[0]]));
      assert node.text + [t[0]] + t[1..] == node.text + t;
    }
  }

  lemma {:induction false} SecondDiffers(s: string, p: nat, w: string)
    requires p + 1 < |s| && |w| >= 2 && s[p + 1] != w[1]
    ensures !At(s, p, w)
  {
    AtIndex(s, p, w);
    assert p + |w| <= |s| ==> exists i | 0 <= i < |w| :: s[p + i] != w[i] by { assert s[p + 1] != w[1]; }
  }

  /** A child element, where its start tag begins. */
  lemma {:induction false} ContentChild(s: string, p: nat, depth: nat, node: Node)
    requires p + 1 < |s| && s[p] == '<' && IsNameStart(s[p + 1])
    ensures Content(s, p, depth, node)
         == if depth >= MAX_DEPTH then Fail(TooDeep, p)
            else if Element(s, p, depth + 1).Fail? then Element(s, p, depth + 1)
            else AfterChild(s, Element(s, p, depth + 1).pos, depth, node, Element(s, p, depth + 1).value)
  {
    SecondDiffers(s, p, "</");
    SecondDiffers(s, p, "<!--");
    SecondDiffers(s, p, "<![CDATA[");
  }

  ghost function AfterChild(s: string, p: nat, depth: nat, node: Node, child: Node): Parsed<Node>
    requires p <= |s|
  {
    ParseContent(s, p, depth, node.(children := node.children + [child]))
  }

  lemma {:induction false} FindAt(s: string, p: nat, q: nat, w: string)
    requires p <= q <= |s| && At(s, q, w) && forall i | p <= i < q :: !At(s, i, w)
    ensures q + |w| <= |s| && Find(s, p, w) == Some(q)
    decreases q - p
  {
    AtIndex(s, q, w);
    if p < q { FindAt(s, p + 1, q, w); }
  }

  /** What a piece of text has at an index, the text has there. */
  lemma {:induction false} AtInside(s: string, p: nat, t: string, i: nat, w: string)
    requires At(s, p, t) && i + |w| <= |t|
    ensures At(s, p + i, w) <==> At(t, i, w)
  {
    AtIndex(s, p, t);
    AtIndex(s, p + i, w);
    AtIndex(t, i, w);
    if At(s, p + i, w) {
      forall k | 0 <= k < |w| ensures t[i + k] == w[k] { assert s[p + (i + k)] == t[i + k] && s[p + i + k] == w[k]; }
    }
    if At(t, i, w) {
      forall k | 0 <= k < |w| ensures s[p + i + k] == w[k] { assert s[p + (i + k)] == t[i + k] == w[k]; }
    }
  }

  lemma {:induction false} CDataStarts(s: string, p: nat)
    requires At(s, p, "<![CDATA[")
    ensures p + 9 <= |s| && !At(s, p, "</") && !At(s, p, "<!--")
  {
    AtIndex(s, p, "<![CDATA[");
    assert s[p + 1] == "<![CDATA["[1] && s[p + 2] == "<![CDATA["[2];
    AtIndex(s, p, "</");
    AtIndex(s, p, "<!--");
    assert "</"[1] == '/' && "<!--"[2] == '-';
  }

  lemma {:induction false} ContentCData(s: string, p: nat, depth: nat, node: Node, end: nat)
    requires At(s, p, "<![CDATA[") && p + 9 <= |s| && Find(s, p + 9, "]]>") == Some(end)
    ensures p + 9 <= end && end + 3 <= |s|
    ensures Content(s, p, depth, node) == Content(s, end + 3, depth, node.(text := node.text + s[p + 9..end]))
  {
    CDataStarts(s, p);
  }

  lemma {:induction false} ContentComment(s: string, p: nat, depth: nat, node: Node, end: nat)
    requires At(s, p, "<!--") && Find(s, p, "-->") == Some(end)
    ensures p <= end && end + 3 <= |s| && Content(s, p, depth, node) == Content(s, end + 3, depth, node)
  {
    AtIndex(s, p, "<!--");
    assert s[p + 1] == "<!--"[1];
    SecondDiffers(s, p, "</");
  }

  /** Where a section ends whose end mark comes once. */
  lemma {:induction false} SectionEnds(s: string, p: nat, text: string, mark: string, end: nat)
    requires At(s, p, text) && EndsOnce(text, mark) && |mark| <= |text| && text[|text| - |mark|..] == mark
    requires end == p + |text| - |mark|
    ensures p <= end && end + |mark| <= |s| && Find(s, p, mark) == Some(end)
  {
    var body := text[..|text| - |mark|];
    assert text == body + mark;
    AtConcat(s, p, body, mark);
    AtIndex(s, p, text);
    forall i | p <= i < end ensures !At(s, i, mark) { AtInside(s, p, text, i - p, mark); }
    FindAt(s, p, end, mark);
  }

  lemma {:induction false} CommentPasses(s: string, p: nat, depth: nat, node: Node, comment: string, end: nat)
    requires At(s, p, comment) && ProperComment(comment) && end == p + |comment|
    ensures p <= |s| && end <= |s| && Content(s, p, depth, node) == Content(s, end, depth, node)
  {
    AtIndex(comment, 0, "<!--");
    AtInside(s, p, comment, 0, "<!--");
    SectionEnds(s, p, comment, "-->", end - 3);
    ContentComment(s, p, depth, node, end - 3);
  }

  lemma {:induction false} CDataPasses(s: string, p: nat, depth: nat, node: Node, raw: string, end: nat)
    requires At(s, p, CDataText(raw)) && EndsOnce(raw + "]]>", "]]>") && end == p + |CDataText(raw)|
    ensures p <= |s| && end <= |s|
    ensures Content(s, p, depth, node) == Content(s, end, depth, node.(text := node.text + raw))
  {
    AtConcat(s, p, "<![CDATA[", raw + "]]>");
    AtConcat(s, p + 9, raw, "]]>");
    AtSlice(s, p + 9, raw);
    assert (raw + "]]>")[|raw + "]]>"| - 3..] == "]]>";
    SectionEnds(s, p + 9, raw + "]]>", "]]>", end - 3);
    ContentCData(s, p, depth, node, end - 3);
  }

  // Serialisations and heights under names that do not unfold.

  ghost function Whole(m: Markup): string { MarkupText(m) }

  ghost function One(c: Item): string { ItemText(c) }

  ghost function Joined(items: seq<Item>): string { ItemsText(items) }

  ghost function Below(m: Markup): nat { Height(m) }

  ghost function LevelsOf(c: Item): nat { ItemHeight(c) }

  ghost function Levels(items: seq<Item>): nat { ItemsHeight(items) }

  /** A node with one more item, and with some. */
  ghost function With(node: Node, c: Item): Node
    requires ProperItem(c)
  {
    match c
    case Chars(raw) => node.(text := node.text + raw)
    case Remark(_) => node
    case CData(raw) => node.(text := node.text + raw)
    case Child(m) => node.(children := node.children + [MarkupMeans(m)])
  }

  ghost function WithAll(node: Node, items: seq<Item>): Node
    requires ProperItems(items)
    decreases |items|
  {
    if items == [] then node else WithAll(With(node, items[0]), items[1..])
  }

  lemma {:induction false} WithAllIs(node: Node, items: seq<Item>)
    requires ProperItems(items)
    ensures WithAll(node, items)
         == node.(text := node.text + RawText(items), children := node.children + ChildrenMean(items))
    decreases |items|
  {
    if items == [] {
      assert node.text + "" == node.text && node.children + [] == node.children;
    } else {
      WithAllIs(With(node, items[0]), items[1..]);
      OneMoreIs(node, items[0], items[1..]);
    }
  }

  lemma {:induction false} OneMoreIs(node: Node, c: Item, more: seq<Item>)
    requires ProperItem(c) && ProperItems(more)
    ensures With(node, c).text + RawText(more) == node.text + RawText([c] + more)
    ensures With(node, c).children + ChildrenMean(more) == node.children + ChildrenMean([c] + more)
    ensures With(node, c).name == node.name && With(node, c).attributes == node.attributes
  {
    assert ([c] + more)[1..] == more;
    match c
    case Chars(raw) => Assoc(node.text, raw, RawText(more));
    case Remark(_) => assert "" + RawText(more) == RawText(more);
    case CData(raw) => Assoc(node.text, raw, RawText(more));
    case Child(m) =>
      assert "" + RawText(more) == RawText(more);
      NodesAssoc(node.children, [MarkupMeans(m)], ChildrenMean(more));
  }

  lemma {:induction false} NodesAssoc(a: seq<Node>, b: seq<Node>, c: seq<Node>)
    ensures a + b + c == a + (b + c)
  {
  }

  /** Reading stopped because the elements are nested too deeply. */
  ghost predicate StoppedTooDeep(r: Parsed<Node>) { r.Fail? && r.problem == TooDeep }

  /** What ends a start tag, and what follows. */
  ghost function TagRest(m: Markup): string {
    if m.closed then "/>" else ">" + (Joined(m.contents) + CloseTag(m.closingPrefix, m.name, m.closingBlanks))
  }

  lemma {:induction false} WholeIs(m: Markup)
    ensures Whole(m) == "<" + (FullName(m.prefix, m.name) + (Listed(m.attributes) + (m.blanks + TagRest(m))))
    ensures Below(m) == Levels(m.contents)
  {
  }

  lemma {:induction false} WholeStarts(m: Markup, s: string, p: nat)
    requires ProperMarkup(m) && At(s, p, Whole(m))
    ensures p + 1 < |s| && s[p] == '<' && IsNameStart(s[p + 1])
  {
    var full, rest := FullName(m.prefix, m.name), Listed(m.attributes) + (m.blanks + TagRest(m));
    WholeIs(m);
    CharThere(s, p, '<', full + rest);
    AtHead(s, p + 1, full + rest);
  }

  lemma {:induction false} ChildReads(s: string, p: nat, t: nat, m: Markup, depth: nat, node: Node)
    requires ProperMarkup(m) && p + 1 < |s| && s[p] == '<' && IsNameStart(s[p + 1]) && t <= |s|
    requires depth + 1 + Below(m) <= MAX_DEPTH ==> Element(s, p, depth + 1) == Ok(MarkupMeans(m), t)
    requires depth + 1 <= MAX_DEPTH < depth + 1 + Below(m) ==> StoppedTooDeep(Element(s, p, depth + 1))
    ensures depth + 1 + Below(m) <= MAX_DEPTH ==>
              Content(s, p, depth, node) == Content(s, t, depth, With(node, Child(m)))
    ensures depth <= MAX_DEPTH < depth + 1 + Below(m) ==> StoppedTooDeep(Content(s, p, depth, node))
  {
    ContentChild(s, p, depth, node);
  }

  lemma {:induction false} ItemReads(s: string, p: nat, t: nat, c: Item, depth: nat, node: Node)
    requires ProperItem(c) && At(s, p, One(c)) && t == p + |One(c)|
    ensures p <= |s| && t <= |s|
    ensures depth + LevelsOf(c) <= MAX_DEPTH ==> Content(s, p, depth, node) == Content(s, t, depth, With(node, c))
    ensures depth <= MAX_DEPTH < depth + LevelsOf(c) ==> StoppedTooDeep(Content(s, p, depth, node))
    decreases c, 2
  {
    match c
    case Chars(raw) => TextReads(s, p, raw, depth, node);
    case Remark(comment) => CommentPasses(s, p, depth, node, comment, t);
    case CData(raw) => CDataPasses(s, p, depth, node, raw, t);
    case Child(m) => ChildItemReads(s, p, t, m, depth, node);
  }

  lemma {:induction false} ChildItemReads(s: string, p: nat, t: nat, m: Markup, depth: nat, node: Node)
    requires ProperMarkup(m) && At(s, p, Whole(m)) && t == p + |Whole(m)|
    ensures p <= |s| && t <= |s|
    ensures depth + 1 + Below(m) <= MAX_DEPTH ==>
              Content(s, p, depth, node) == Content(s, t, depth, With(node, Child(m)))
    ensures depth <= MAX_DEPTH < depth + 1 + Below(m) ==> StoppedTooDeep(Content(s, p, depth, node))
    decreases m, 2
  {
    WholeStarts(m, s, p);
    MarkupReads(s, p, t, m, depth + 1);
    ChildReads(s, p, t, m, depth, node);
  }

  lemma {:induction false} JoinedText(items: seq<Item>, rest: string)
    requires items != []
    ensures Joined(items) + rest == One(items[0]) + (Joined(items[1..]) + rest)
    ensures |Joined(items)| == |One(items[0])| + |Joined(items[1..])|
    ensures Levels(items) == if LevelsOf(items[0]) < Levels(items[1..]) then Levels(items[1..]) else LevelsOf(items[0])
  {
    assert Joined(items) == One(items[0]) + Joined(items[1..]);
    Assoc(One(items[0]), Joined(items[1..]), rest);
  }

  /** Items one after the other, then `rest`. */
  lemma {:induction false} ItemsRead(s: string, p: nat, q: nat, items: seq<Item>, depth: nat, node: Node, rest: string)
    requires ProperItems(items) && At(s, p, Joined(items) + rest) && q == p + |Joined(items)|
    ensures p <= |s| && q <= |s| && At(s, q, rest)
    ensures depth + Levels(items) <= MAX_DEPTH ==>
              Content(s, p, depth, node) == Content(s, q, depth, WithAll(node, items))
    ensures depth <= MAX_DEPTH < depth + Levels(items) ==> StoppedTooDeep(Content(s, p, depth, node))
    decreases items, 1
  {
    if items == [] {
      assert "" + rest == rest;
      AtIndex(s, p, rest);
    } else {
      MoreItems(s, p, p + |One(items[0])|, q, items, depth, node, rest);
    }
  }

  lemma {:induction false} MoreItems(s: string, p: nat, t: nat, q: nat, items: seq<Item>, depth: nat, node: Node,
                                     rest: string)
    requires items != [] && ProperItems(items) && At(s, p, Joined(items) + rest)
    requires t == p + |One(items[0])| && q == p + |Joined(items)|
    ensures p <= |s| && q <= |s| && At(s, q, rest)
    ensures depth + Levels(items) <= MAX_DEPTH ==>
              Content(s, p, depth, node) == Content(s, q, depth, WithAll(node, items))
    ensures depth <= MAX_DEPTH < depth + Levels(items) ==> StoppedTooDeep(Content(s, p, depth, node))
    decreases items, 0
  {
    JoinedText(items, rest);
    AtConcat(s, p, One(items[0]), Joined(items[1..]) + rest);
    ItemReads(s, p, t, items[0], depth, node);
    ItemsRead(s, t, q, items[1..], depth, With(node, items[0]), rest);
  }

  /** An element, met at `depth`. */
  lemma {:induction false} MarkupReads(s: string, p: nat, end: nat, m: Markup, depth: nat)
    requires ProperMarkup(m) && At(s, p, Whole(m)) && end == p + |Whole(m)|
    ensures p <= |s| && end <= |s|
    ensures depth + Below(m) <= MAX_DEPTH ==> Element(s, p, depth) == Ok(MarkupMeans(m), end)
    ensures depth <= MAX_DEPTH < depth + Below(m) ==> StoppedTooDeep(Element(s, p, depth))
    decreases m, 1
  {
    var n := p + 1 + |FullName(m.prefix, m.name)|;
    var t := n + |Listed(m.attributes)| + |m.blanks|;
    WholeIs(m);
    TagReads(s, p, m, TagRest(m), n, t);
    if m.closed {
      ElementIsEmpty(s, p, n, t, m.name, AttrsMean(m.attributes), depth);
      NothingInside(m);
    } else {
      ElementOpens(s, p, n, t, m.name, AttrsMean(m.attributes), depth);
      InsideReads(s, t, end, m, depth, Node(m.name, AttrsMean(m.attributes), "", []));
    }
  }

  lemma {:induction false} NothingInside(m: Markup)
    requires ProperMarkup(m) && m.contents == []
    ensures MarkupMeans(m) == Node(m.name, AttrsMean(m.attributes), "", []) && Below(m) == 0
  {
    assert Height(m) == ItemsHeight(m.contents) && ItemsHeight([]) == 0;
  }

  /** From the end of the start tag on. */
  lemma {:induction false} InsideReads(s: string, t: nat, end: nat, m: Markup, depth: nat, start: Node)
    requires ProperMarkup(m) && !m.closed && At(s, t, TagRest(m)) && end == t + |TagRest(m)|
    requires start == Node(m.name, AttrsMean(m.attributes), "", [])
    ensures t + 1 <= |s| && end <= |s|
    ensures depth + Below(m) <= MAX_DEPTH ==> Content(s, t + 1, depth, start) == Ok(MarkupMeans(m), end)
    ensures depth <= MAX_DEPTH < depth + Below(m) ==> StoppedTooDeep(Content(s, t + 1, depth, start))
    decreases m, 0
  {
    var close := CloseTag(m.closingPrefix, m.name, m.closingBlanks);
    var c := t + 1 + |Joined(m.contents)|;
    CharThere(s, t, '>', Joined(m.contents) + close);
    ItemsRead(s, t + 1, c, m.contents, depth, start, close);
    AtIndex(s, c, close);
    WithAllIs(start, m.contents);
    CloseReads(s, c, depth, WithAll(start, m.contents), m, end);
    assert "" + RawText(m.contents) == RawText(m.contents);
    assert [] + ChildrenMean(m.contents) == ChildrenMean(m.contents);
  }

  // --- Documents -----------------------------------------------------------------------------

  /** What may come before the root (XML 1.0, section 2.8). */
  datatype Misc = Gap(blanks: string) | Instruction(text: string) | Note(comment: string) | Declaration(text: string)

  function MiscText(x: Misc): string {
    match x
    case Gap(blanks) => blanks
    case Instruction(text) => text
    case Note(comment) => comment
    case Declaration(text) => "<!" + (text + ">")
  }

  function MiscsText(miscs: seq<Misc>): string {
    if miscs == [] then "" else MiscText(miscs[0]) + MiscsText(miscs[1..])
  }

  ghost predicate ProperMisc(x: Misc) {
    match x
    case Gap(blanks) => Blanks(blanks)
    case Instruction(text) => At(text, 0, "<?") && EndsWith(text, "?>") && EndsOnce(text, "?>")
    case Note(comment) => ProperComment(comment)
    case Declaration(text) => NoChar(text, '>') && !(|text| >= 2 && text[0] == '-' && text[1] == '-')
  }

  ghost predicate ProperMiscs(miscs: seq<Misc>) {
    miscs == [] || (ProperMisc(miscs[0]) && ProperMiscs(miscs[1..]))
  }

  /** Under a name that does not unfold. */
  ghost function Preface(miscs: seq<Misc>): string { MiscsText(miscs) }

  lemma {:induction false} PrefaceText(miscs: seq<Misc>, rest: string)
    requires miscs != []
    ensures Preface(miscs) + rest == MiscText(miscs[0]) + (Preface(miscs[1..]) + rest)
    ensures |Preface(miscs)| == |MiscText(miscs[0])| + |Preface(miscs[1..])|
  {
    assert Preface(miscs) == MiscText(miscs[0]) + Preface(miscs[1..]);
    Assoc(MiscText(miscs[0]), Preface(miscs[1..]), rest);
  }

  ghost function Prologue(s: string, p: nat): Parsed<()>
    requires p <= |s|
  {
    SkipPrologue(s, p)
  }

  lemma {:induction false} SkipFromSpace(s: string, p: nat, q: nat)
    requires p <= q <= |s| && forall i | p <= i < q :: IsSpace(s[i])
    ensures Skip(s, p) == Skip(s, q)
    decreases q - p
  {
    if p < q { SkipFromSpace(s, p + 1, q); }
  }

  lemma {:induction false} GapPasses(s: string, p: nat, blanks: string, q: nat)
    requires At(s, p, blanks) && Blanks(blanks) && q == p + |blanks|
    ensures p <= |s| && q <= |s| && Prologue(s, p) == Prologue(s, q)
  {
    AtIndex(s, p, blanks);
    forall i | p <= i < q ensures IsSpace(s[i]) { assert s[p + (i - p)] == blanks[i - p]; }
    SkipFromSpace(s, p, q);
  }

  lemma {:induction false} NoSpace(s: string, p: nat)
    requires p <= |s| && (p < |s| ==> !IsSpace(s[p]))
    ensures Skip(s, p) == p
  {
  }

  lemma {:induction false} InstructionPasses(s: string, p: nat, text: string, q: nat)
    requires At(s, p, text) && At(text, 0, "<?") && EndsWith(text, "?>") && EndsOnce(text, "?>") && q == p + |text|
    ensures p <= |s| && q <= |s| && Prologue(s, p) == Prologue(s, q)
  {
    AtIndex(text, 0, "<?");
    AtInside(s, p, text, 0, "<?");
    AtHead(s, p, "<?");
    NoSpace(s, p);
    SectionEnds(s, p, text, "?>", q - 2);
  }

  lemma {:induction false} NotePasses(s: string, p: nat, comment: string, q: nat)
    requires At(s, p, comment) && ProperComment(comment) && q == p + |comment|
    ensures p <= |s| && q <= |s| && Prologue(s, p) == Prologue(s, q)
  {
    AtIndex(comment, 0, "<!--");
    AtInside(s, p, comment, 0, "<!--");
    AtIndex(s, p, "<!--");
    assert s[p] == "<!--"[0] && s[p + 1] == "<!--"[1];
    NoSpace(s, p);
    SecondDiffers(s, p, "<?");
    SectionEnds(s, p, comment, "-->", q - 3);
  }

  lemma {:induction false} DeclarationPasses(s: string, p: nat, text: string, q: nat)
    requires At(s, p, "<!" + (text + ">")) && ProperMisc(Declaration(text)) && q == p + |text| + 3
    ensures p <= |s| && q <= |s| && Prologue(s, p) == Prologue(s, q)
  {
    AtConcat(s, p, "<!", text + ">");
    AtConcat(s, p + 2, text, ">");
    AtIndex(s, p, "<!");
    assert s[p] == "<!"[0] && s[p + 1] == "<!"[1];
    AtHead(s, q - 1, ">");
    AtIndex(s, p + 2, text);
    NoSpace(s, p);
    SecondDiffers(s, p, "<?");
    NoDashes(s, p, text, q);
    forall i | p <= i < q - 1 ensures s[i] != '>' {
      if i >= p + 2 { assert s[p + 2 + (i - p - 2)] == text[i - p - 2]; }
    }
    FindCharAt(s, p, q - 1, '>');
  }

  lemma {:induction false} NoDashes(s: string, p: nat, text: string, q: nat)
    requires At(s, p + 2, text) && q == p + |text| + 3 && CharAt(s, q - 1, '>')
    requires !(|text| >= 2 && text[0] == '-' && text[1] == '-')
    ensures !At(s, p, "<!--")
  {
    AtIndex(s, p, "<!--");
    AtIndex(s, p + 2, text);
    assert "<!--"[2] == '-' && "<!--"[3] == '-';
    assert |text| > 0 ==> s[p + 2 + 0] == text[0];
    assert |text| > 1 ==> s[p + 2 + 1] == text[1];
  }

  lemma {:induction false} MiscPasses(s: string, p: nat, x: Misc, q: nat)
    requires ProperMisc(x) && At(s, p, MiscText(x)) && q == p + |MiscText(x)|
    ensures p <= |s| && q <= |s| && Prologue(s, p) == Prologue(s, q)
  {
    match x
    case Gap(blanks) => GapPasses(s, p, blanks, q);
    case Instruction(text) => InstructionPasses(s, p, text, q);
    case Note(comment) => NotePasses(s, p, comment, q);
    case Declaration(text) => DeclarationPasses(s, p, text, q);
  }

  lemma {:induction false} MiscsPass(s: string, p: nat, miscs: seq<Misc>, rest: string, q: nat)
    requires ProperMiscs(miscs) && At(s, p, Preface(miscs) + rest) && q == p + |Preface(miscs)|
    ensures p <= |s| && q <= |s| && At(s, q, rest) && Prologue(s, p) == Prologue(s, q)
    decreases |miscs|
  {
    if miscs == [] {
      assert "" + rest == rest;
      AtIndex(s, p, rest);
    } else {
      var t := p + |MiscText(miscs[0])|;
      PrefaceText(miscs, rest);
      AtConcat(s, p, MiscText(miscs[0]), Preface(miscs[1..]) + rest);
      MiscPasses(s, p, miscs[0], t);
      MiscsPass(s, t, miscs[1..], rest, q);
    }
  }

  lemma {:induction false} RootFirst(s: string, p: nat)
    requires p + 1 < |s| && s[p] == '<' && IsNameStart(s[p + 1]) && Prologue(s, 0) == Prologue(s, p)
    ensures Parse(s) == Element(s, p, 0)
  {
    SecondDiffers(s, p, "<?");
    SecondDiffers(s, p, "<!--");
    SecondDiffers(s, p, "<!");
    NoSpace(s, p);
  }

  /** A document, whatever its root is spelled like and whatever comes before and after, reads as
      what the root means exactly when the root has at most 64 levels below it; otherwise the
      reader says that it is nested too deeply. */
  lemma {:induction false} DocumentReads(before: seq<Misc>, m: Markup, after: string)
    requires ProperMiscs(before) && ProperMarkup(m)
    ensures var s, p := MiscsText(before) + (MarkupText(m) + after), |MiscsText(before)|;
            && (Height(m) <= 64 ==> Parse(s) == Ok(MarkupMeans(m), p + |MarkupText(m)|))
            && (Height(m) > 64 ==> StoppedTooDeep(Parse(s)))
  {
    var s, p := Preface(before) + (Whole(m) + after), |Preface(before)|;
    AtAll(s);
    RootReads(s, p, p + |Whole(m)|, before, m, after);
  }

  lemma {:induction false} AtAll(s: string)
    ensures At(s, 0, s)
  {
    AtIndex(s, 0, s);
  }

  lemma {:induction false} RootReads(s: string, p: nat, end: nat, before: seq<Misc>, m: Markup, after: string)
    requires ProperMiscs(before) && ProperMarkup(m) && At(s, 0, Preface(before) + (Whole(m) + after))
    requires p == |Preface(before)| && end == p + |Whole(m)|
    ensures Below(m) <= MAX_DEPTH ==> Parse(s) == Ok(MarkupMeans(m), end)
    ensures Below(m) > MAX_DEPTH ==> StoppedTooDeep(Parse(s))
  {
    MiscsPass(s, 0, before, Whole(m) + after, p);
    AtConcat(s, p, Whole(m), after);
    WholeStarts(m, s, p);
    RootFirst(s, p);
    MarkupReads(s, p, end, m, 0);
  }

  // --- The text of an element -----------------------------------------------------------------

  /** However the text of an element is divided among characters and sections, where it is spelled
      with entities and references it is what these stand for. */
  lemma {:induction false} TextIsMeant(m: Markup, pieces: seq<Piece>)
    requires ProperMarkup(m) && ProperPieces(pieces) && RawText(m.contents) == Spell(pieces)
    ensures MarkupMeans(m).text == Mean(pieces)
  {
    SpellingReadsBack(pieces);
  }

  /** So is the value of an attribute. */
  lemma {:induction false} ValueIsMeant(attributes: seq<Attr>, i: nat, pieces: seq<Piece>)
    requires ProperAttrs(attributes) && i < |attributes| && ProperPieces(pieces) && attributes[i].value == Spell(pieces)
    ensures |AttrsMean(attributes)| == |attributes|
    ensures AttrsMean(attributes)[i] == Attribute(attributes[i].name, Mean(pieces))
    decreases i
  {
    SpellingReadsBack(pieces);
    AttrsMeanLength(attributes);
    if i > 0 { ValueIsMeant(attributes[1..], i - 1, pieces); }
  }

  lemma {:induction false} AttrsMeanLength(attributes: seq<Attr>)
    requires ProperAttrs(attributes)
    ensures |AttrsMean(attributes)| == |attributes|
  {
    if attributes != [] { AttrsMeanLength(attributes[1..]); }
  }

  // --- Sections that hold an ampersand ---------------------------------------------------------

  /** An element that holds a CDATA section only. */
  function Wrapped(name: string, raw: string): Markup { Markup(None, name, [], "", false, [CData(raw)], None, "") }

  /** Its text is what the section holds with the entities in it replaced: it is the section's own
      text exactly when decoding leaves that alone. */
  lemma {:induction false} CDataReads(name: string, raw: string, after: string)
    requires ProperName(None, name) && EndsOnce(raw + "]]>", "]]>")
    ensures var text := MarkupText(Wrapped(name, raw));
            Parse(text + after) == Ok(Node(name, [], Decoded(raw), []), |text|)
  {
    var m := Wrapped(name, raw);
    WrappedMeans(name, raw, m);
    DocumentReads([], m, after);
    assert "" + (MarkupText(m) + after) == MarkupText(m) + after;
  }

  lemma {:induction false} WrappedMeans(name: string, raw: string, m: Markup)
    requires ProperName(None, name) && EndsOnce(raw + "]]>", "]]>") && m == Wrapped(name, raw)
    ensures ProperMarkup(m) && MarkupMeans(m) == Node(name, [], Decoded(raw), []) && Height(m) == 0
  {
    var items := [CData(raw)];
    assert items[1..] == [] && ProperItem(items[0]) && ProperItems([]);
    assert RawText(items) == raw + RawText([]) == raw;
    assert ChildrenMean([]) == [] && ChildMeans(items[0]) == [] && ItemHeight(items[0]) == 0 && ItemsHeight([]) == 0;
    assert ChildrenMean(items) == [] + [] && ItemsHeight(items) == 0;
  }

  /** A section that holds the reference for `<` reads as `<`. */
  lemma {:induction false} CDataIsDecoded()
    ensures var text := MarkupText(Wrapped("a", "&lt;"));
            Parse(text + "") == Ok(Node("a", [], "<", []), |text|)
  {
    DecodesLess("&lt;");
    NoEndInside("&lt;");
    CDataReads("a", "&lt;", "");
  }

  lemma {:induction false} DecodesLess(raw: string)
    requires raw == "&lt;"
    ensures Decoded(raw) == "<" && NoChar(raw, '>')
  {
    var pieces := [ByName('<')];
    assert pieces[1..] == [] && Spell([]) == "" && ProperPieces([]) && SpellOne(pieces[0]) == raw;
    assert Spell(pieces) == raw && Mean([]) == "";
    SpellingReadsBack(pieces);
  }

  lemma {:induction false} NoEndInside(raw: string)
    requires NoChar(raw, '>')
    ensures EndsOnce(raw + "]]>", "]]>")
  {
    var text := raw + "]]>";
    forall i | 0 <= i < |text| - 3 ensures !At(text, i, "]]>") {
      AtIndex(text, i, "]]>");
      assert "]]>"[2] == '>' && text[i + 2] != '>';
    }
  }

  // --- What is refused -------------------------------------------------------------------------

  /** A closing tag with another local name. */
  lemma {:induction false} MismatchRefused(s: string, p: nat, depth: nat, node: Node, prefix: Option<string>,
                                           name: string,
                                           rest: string)
    requires ProperName(prefix, name) && name != node.name && rest != "" && !IsNameChar(rest[0])
    requires At(s, p, "</" + (FullName(prefix, name) + rest))
    ensures p <= |s| && Content(s, p, depth, node) == Fail(MismatchedClose, p + 2 + |FullName(prefix, name)|)
  {
    var n := p + 2 + |FullName(prefix, name)|;
    AtConcat(s, p, "</", FullName(prefix, name) + rest);
    AtConcat(s, p + 2, FullName(prefix, name), rest);
    AtHead(s, n, rest);
    NameReads(s, p + 2, prefix, name, n);
  }

  // --- Trees ---------------------------------------------------------------------------------

  function SpellChar(c: char): Piece { if EntityName(c) == "" then Itself(c) else ByName(c) }

  /** Text with every character that has an entity written as that. */
  function Escaped(text: string): (r: seq<Piece>)
    ensures |r| == |text|
  {
    seq(|text|, i requires 0 <= i < |text| => SpellChar(text[i]))
  }

  function AttrsOf(attributes: seq<Attribute>): seq<Attr> {
    if attributes == [] then [] else
    [Attr(" ", None, attributes[0].name, "", "", Double, Spell(Escaped(attributes[0].value)))]
        + AttrsOf(attributes[1..])
  }

  /** The markup a tree is written as. */
  function MarkupOf(node: Node): Markup
    decreases node, 1
  {
    Markup(None, node.name, AttrsOf(node.attributes), "", false,
           [Chars(Spell(Escaped(node.text)))] + ItemsOf(node.children), None, "")
  }

  function ItemsOf(children: seq<Node>): seq<Item>
    decreases children
  {
    if children == [] then [] else [Child(MarkupOf(children[0]))] + ItemsOf(children[1..])
  }

  /** Names without a colon. */
  ghost predicate PlainNode(node: Node)
    decreases node, 1
  {
    ProperName(None, node.name) && PlainAttributes(node.attributes) && PlainNodes(node.children)
  }

  ghost predicate PlainAttributes(attributes: seq<Attribute>) {
    attributes == [] || (ProperName(None, attributes[0].name) && PlainAttributes(attributes[1..]))
  }

  ghost predicate PlainNodes(nodes: seq<Node>)
    decreases nodes
  {
    nodes == [] || (PlainNode(nodes[0]) && PlainNodes(nodes[1..]))
  }

  lemma {:induction false} EscapedIs(text: string)
    ensures ProperPieces(Escaped(text)) && Mean(Escaped(text)) == text
    ensures NoChar(Spell(Escaped(text)), '<') && NoChar(Spell(Escaped(text)), '\"')
    ensures NoChar(Spell(Escaped(text)), '>')
  {
    if text != "" {
      assert Escaped(text)[1..] == Escaped(text[1..]);
      EscapedIs(text[1..]);
      EscapedOne(text[0], SpellChar(text[0]));
      assert text == [text[0]] + text[1..];
      NoCharConcat(SpellOne(SpellChar(text[0])), Spell(Escaped(text[1..])), '<');
      NoCharConcat(SpellOne(SpellChar(text[0])), Spell(Escaped(text[1..])), '\"');
      NoCharConcat(SpellOne(SpellChar(text[0])), Spell(Escaped(text[1..])), '>');
    }
  }

  lemma {:induction false} EscapedOne(c: char, piece: Piece)
    requires piece == SpellChar(c)
    ensures ProperPiece(piece) && MeanOne(piece) == [c]
    ensures NoChar(SpellOne(piece), '<') && NoChar(SpellOne(piece), '\"') && NoChar(SpellOne(piece), '>')
  {
  }

  lemma {:induction false} NoCharConcat(a: string, b: string, c: char)
    requires NoChar(a, c) && NoChar(b, c)
    ensures NoChar(a + b, c)
  {
  }

  /** For every text, decoding undoes escaping. */
  lemma {:induction false} EscapeReadsBack(text: string)
    ensures Decoded(Spell(Escaped(text))) == text
  {
    EscapedIs(text);
    SpellingReadsBack(Escaped(text));
  }

  /** A section that holds escaped text reads as the text. */
  lemma {:induction false} EscapedCData(name: string, text: string, after: string)
    requires ProperName(None, name)
    ensures var written := MarkupText(Wrapped(name, Spell(Escaped(text))));
            Parse(written + after) == Ok(Node(name, [], text, []), |written|)
  {
    EscapedIs(text);
    EscapeReadsBack(text);
    NoEndInside(Spell(Escaped(text)));
    CDataReads(name, Spell(Escaped(text)), after);
  }

  lemma {:induction false} AttrsOfMean(attributes: seq<Attribute>)
    requires PlainAttributes(attributes)
    ensures ProperAttrs(AttrsOf(attributes)) && AttrsMean(AttrsOf(attributes)) == attributes
  {
    if attributes != [] {
      AttrsOfMean(attributes[1..]);
      EscapedIs(attributes[0].value);
      EscapeReadsBack(attributes[0].value);
      assert AttrsOf(attributes)[1..] == AttrsOf(attributes[1..]);
      assert attributes == [attributes[0]] + attributes[1..];
    }
  }

  lemma {:induction false} MarkupOfMeans(node: Node)
    requires PlainNode(node)
    ensures ProperMarkup(MarkupOf(node)) && MarkupMeans(MarkupOf(node)) == node
    decreases node, 1
  {
    var text, more := Chars(Spell(Escaped(node.text))), ItemsOf(node.children);
    var items := [text] + more;
    AttrsOfMean(node.attributes);
    ItemsOfMean(node.children);
    EscapedIs(node.text);
    SpellingReadsBack(Escaped(node.text));
    assert items[1..] == more;
    assert RawText(items) == Spell(Escaped(node.text)) + "" == Spell(Escaped(node.text));
    assert ChildrenMean(items) == [] + ChildrenMean(more) == node.children;
  }

  lemma {:induction false} ItemsOfMean(children: seq<Node>)
    requires PlainNodes(children)
    ensures ProperItems(ItemsOf(children)) && ChildrenMean(ItemsOf(children)) == children
    ensures RawText(ItemsOf(children)) == ""
    decreases children, 0
  {
    if children != [] {
      var items := ItemsOf(children);
      MarkupOfMeans(children[0]);
      ItemsOfMean(children[1..]);
      assert items[1..] == ItemsOf(children[1..]) && items[0] == Child(MarkupOf(children[0]));
      assert children == [children[0]] + children[1..];
    }
  }

  /** Every element tree with names without a colon, written with its text and attributes escaped,
      is read back as itself exactly when it has at most 64 levels below the root. */
  lemma {:induction false} ElementRoundTrip(node: Node, after: string)
    requires PlainNode(node)
    ensures var m := MarkupOf(node);
            && (Height(m) <= 64 ==> Parse(MarkupText(m) + after) == Ok(node, |MarkupText(m)|))
            && (Height(m) > 64 ==> StoppedTooDeep(Parse(MarkupText(m) + after)))
  {
    MarkupOfMeans(node);
    DocumentReads([], MarkupOf(node), after);
    assert "" + (MarkupText(MarkupOf(node)) + after) == MarkupText(MarkupOf(node)) + after;
  }
}
