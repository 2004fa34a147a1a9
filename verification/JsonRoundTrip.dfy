/** What the writer writes, the reader reads back: exactly the document, exactly when
    it is nested no deeper than the reader allows. */
module JsonRoundTrip {
  import opened Text
  import W = JsonWriter
  import R = JsonReader

  /** The value a document stands for; of two members with one key the later wins. */
  function Denote(d: W.Doc): R.Value
    decreases d, 0
  {
    match d
    case Null => R.Null
    case Boolean(flag) => R.Boolean(flag)
    case Integer(number) => R.Number(IntText(number))
    case Text(text) => R.String(text)
    case Array(items) => R.Array(DenoteItems(items))
    case Object(members) => R.Object(DenoteMembers(members, map[]))
  }

  function DenoteItems(items: seq<W.Doc>): (r: seq<R.Value>)
    ensures |r| == |items|
    decreases items
  {
    if items == [] then [] else [Denote(items[0])] + DenoteItems(items[1..])
  }

  function DenoteMembers(members: seq<W.Member>, acc: map<string, R.Value>): map<string, R.Value>
    decreases members
  {
    if members == [] then acc else DenoteMembers(members[1..], acc[members[0].key := Denote(members[0].value)])
  }

  /** The number of containers around the most deeply nested value. */
  function Depth(d: W.Doc): nat
    decreases d, 0
  {
    match d
    case Array(items) => ItemsDepth(items)
    case Object(members) => MembersDepth(members)
    case _ => 0
  }

  function ItemsDepth(items: seq<W.Doc>): nat
    decreases items
  {
    if items == [] then 0 else Max(1 + Depth(items[0]), ItemsDepth(items[1..]))
  }

  function MembersDepth(members: seq<W.Member>): nat
    decreases members
  {
    if members == [] then 0 else Max(1 + Depth(members[0].value), MembersDepth(members[1..]))
  }

  function Max(a: nat, b: nat): nat { if a < b then b else a }

  ghost predicate Blank(s: string) { forall i | 0 <= i < |s| :: R.IsSpace(s[i]) }

  // --- Lexical pieces ---------------------------------------------------------------

  /** White space from `p` up to `q`. */
  ghost predicate Gap(s: string, p: nat, q: nat) {
    p <= q <= |s| && forall i | p <= i < q :: R.IsSpace(s[i])
  }

  lemma {:induction false} SkipSpaceTo(s: string, p: nat, q: nat)
    requires Gap(s, p, q)
    requires q < |s| ==> !R.IsSpace(s[q])
    ensures R.SkipSpace(s, p) == q
    decreases q - p
  {
    if p < q { SkipSpaceTo(s, p + 1, q); }
  }

  lemma {:induction false} HexReads(value: nat, n: nat)
    requires n == 0 ==> value == 0
    requires n > 0 ==> value / 16 < R.Power16(n - 1)
    ensures R.HexCode(W.HexText(value, n)) == Some(value)
  {
    if n > 0 {
      var high := W.HexText(value / 16, n - 1);
      assert (high + [HexDigit(value % 16)])[..n - 1] == high;
      HexDigitValue(value % 16);
      if n > 1 { assert R.Power16(n - 1) == 16 * R.Power16(n - 2); }
      HexReads(value / 16, n - 1);
    }
  }

  lemma {:induction false} ControlCode(c: char)
    requires c < ' '
    ensures R.HexCode(W.HexText(c as int, 4)) == Some(c as int)
  {
    assert R.Power16(3) == 4096;
    HexReads(c as int, 4);
  }

  lemma {:induction false} CharsAt(s: string, p: nat, w: string)
    requires At(s, p, w)
    ensures |w| > 0 ==> s[p] == w[0]
    ensures |w| > 1 ==> s[p + 1] == w[1]
  {
    AtIndex(s, p, w);
    if |w| > 0 { assert s[p + 0] == w[0]; }
    if |w| > 1 { assert s[p + 1] == w[1]; }
  }

  /** One escaped character reads back as that character. */
  lemma {:induction false} EscapedCharReads(s: string, p: nat, c: char, acc: string)
    requires At(s, p, W.EscapeChar(c)) && p + |W.EscapeChar(c)| < |s|
    ensures StringRest(s, p, acc) == StringRest(s, p + |W.EscapeChar(c)|, acc + [c])
  {
    var e := W.EscapeChar(c);
    CharsAt(s, p, e);
    if e == ['\\', 'u'] + W.HexText(c as int, 4) {
      AtIndex(s, p, e);
      assert s[p + 2] == e[2] && s[p + 3] == e[3] && s[p + 4] == e[4] && s[p + 5] == e[5];
      assert s[p + 2..p + 6] == W.HexText(c as int, 4);
      ControlCode(c);
    }
  }

  lemma {:induction false} QuoteEnds(s: string, p: nat, acc: string)
    requires R.CharAt(s, p, '\"')
    ensures StringRest(s, p, acc) == R.Ok(acc, p + 1)
  {
  }

  /** The rest of a string literal, under a name that does not unfold. */
  ghost function StringRest(s: string, p: nat, acc: string): R.Parsed<string>
    requires p <= |s|
  {
    R.StringBody(s, p, acc)
  }

  lemma {:induction false} EscapedReads(s: string, p: nat, end: nat, text: string, acc: string)
    requires At(s, p, W.Escape(text)) && end == p + |W.Escape(text)| && R.CharAt(s, end, '\"')
    ensures p <= |s| && StringRest(s, p, acc) == R.Ok(acc + text, end + 1)
    decreases |text|
  {
    if text == "" {
      assert acc + text == acc;
      QuoteEnds(s, p, acc);
    } else {
      var c, rest := text[0], text[1..];
      var q := p + |W.EscapeChar(c)|;
      EscapeCons(text);
      AtConcat(s, p, W.EscapeChar(c), W.Escape(rest));
      EscapedReads(s, q, end, rest, acc + [c]);
      EscapedCharReads(s, p, c, acc);
      AppendCons(acc, text);
    }
  }

  lemma {:induction false} AppendCons(acc: string, text: string)
    requires text != ""
    ensures acc + [text[0]] + text[1..] == acc + text
  {
  }

  lemma {:induction false} EscapeCons(text: string)
    requires text != ""
    ensures W.Escape(text) == W.EscapeChar(text[0]) + W.Escape(text[1..])
  {
  }

  /** A position no number lexeme extends over. */
  ghost predicate Stops(s: string, p: nat) {
    p < |s| ==> !IsDigit(s[p]) && s[p] != '.' && s[p] != 'e' && s[p] != 'E'
  }

  lemma {:induction false} IntegerReads(s: string, p: nat, n: int)
    requires At(s, p, IntText(n)) && Stops(s, p + |IntText(n)|)
    ensures R.ParseNumber(s, p) == R.Ok(R.Number(IntText(n)), p + |IntText(n)|)
  {
    var t := IntText(n);
    var end := p + |t|;
    var start := if n < 0 then p + 1 else p;
    AtIndex(s, p, t);
    NatTextDigits(if n < 0 then -n else n);
    forall i | start <= i < end ensures IsDigit(s[i]) {
      assert s[p + (i - p)] == t[i - p];
    }
    CharsAt(s, p, t);
    SkipDigitsTo(s, start, end);
    assert R.SkipSign(s, p) == start;
    AtSlice(s, p, t);
  }

  // --- Layouts of a document ----------------------------------------------------------------

  ghost function Closed(s: string, p: nat, close: char): (r: Option<nat>)
    requires p <= |s|
    ensures r.Some? ==> p < r.value <= |s|
  {
    var q := R.SkipSpace(s, p);
    if R.CharAt(s, q, close) then Some(q + 1) else None
  }

  /** The position where the next child may start: after a comma unless it is the first. */
  ghost function Next(s: string, p: nat, first: bool): (r: Option<nat>)
    requires p <= |s|
    ensures r.Some? ==> p <= r.value <= |s|
  {
    if first then Some(R.SkipSpace(s, p)) else
    var c := R.SkipSpace(s, p);
    if R.CharAt(s, c, ',') then Some(R.SkipSpace(s, c + 1)) else None
  }

  /** Where the text of `d` that starts at `p` ends, if `s` holds one, with any white space
      between its parts. */
  ghost function Layout(s: string, p: nat, d: W.Doc): (r: Option<nat>)
    requires p <= |s|
    ensures r.Some? ==> p < r.value <= |s| && !R.IsSpace(s[p]) && s[p] != ']' && s[p] != '}'
    decreases d, 0
  {
    match d
    case Array(items) =>
      if !R.CharAt(s, p, '[') then None else
      var e := LayoutItems(s, p + 1, items, true);
      if e.None? then None else Closed(s, e.value, ']')
    case Object(members) =>
      if !R.CharAt(s, p, '{') then None else
      var e := LayoutMembers(s, p + 1, members, true);
      if e.None? then None else Closed(s, e.value, '}')
    case _ => ScalarLayout(s, p, d)
  }

  ghost function ScalarLayout(s: string, p: nat, d: W.Doc): (r: Option<nat>)
    requires p <= |s| && !d.Array? && !d.Object?
    ensures r.Some? ==> p < r.value <= |s| && !R.IsSpace(s[p]) && s[p] != ']' && s[p] != '}'
  {
    var t := W.Render(d, false, 0);
    if At(s, p, t) && (d.Integer? ==> Stops(s, p + |t|)) then
      CharsAt(s, p, t);
      Some(p + |t|)
    else None
  }

  ghost function LayoutItems(s: string, p: nat, items: seq<W.Doc>, first: bool): (r: Option<nat>)
    requires p <= |s|
    ensures r.Some? ==> p <= r.value <= |s|
    decreases items
  {
    if items == [] then Some(p) else
    var v := Next(s, p, first);
    if v.None? then None else
    var q := Layout(s, v.value, items[0]);
    if q.None? then None else LayoutItems(s, q.value, items[1..], false)
  }

  /** A quoted key, a colon and the white space after it. */
  ghost function KeyLayout(s: string, p: nat, key: string): (r: Option<nat>)
    requires p <= |s|
    ensures r.Some? ==> p < r.value <= |s|
  {
    var e := W.Escape(key);
    if R.CharAt(s, p, '\"') && At(s, p + 1, e) && R.CharAt(s, p + 1 + |e|, '\"') then
      var c := R.SkipSpace(s, p + 2 + |e|);
      if R.CharAt(s, c, ':') then Some(R.SkipSpace(s, c + 1)) else None
    else None
  }

  ghost function LayoutMembers(s: string, p: nat, members: seq<W.Member>, first: bool): (r: Option<nat>)
    requires p <= |s|
    ensures r.Some? ==> p <= r.value <= |s|
    decreases members
  {
    if members == [] then Some(p) else
    var k := Next(s, p, first);
    if k.None? then None else
    var q := LayoutMember(s, k.value, members[0]);
    if q.None? then None else LayoutMembers(s, q.value, members[1..], false)
  }

  ghost function LayoutMember(s: string, p: nat, m: W.Member): (r: Option<nat>)
    requires p <= |s|
    ensures r.Some? ==> p < r.value <= |s|
    decreases m
  {
    var v := KeyLayout(s, p, m.key);
    if v.None? then None else Layout(s, v.value, m.value)
  }

  // --- Reading a layout ------------------------------------------------------------------------

  /** The reader's result for a document of nesting `deep` met at `depth`. */
  ghost predicate Reads(r: R.Parsed<R.Value>, deep: nat, depth: nat, v: R.Value, end: nat) {
    if depth + deep <= R.MAX_DEPTH then r == R.Ok(v, end) else r.Fail? && r.problem == R.TooDeep
  }

  lemma {:induction false} LiteralReads(s: string, p: nat, word: string, v: R.Value, expected: R.Problem)
    requires word != "" && At(s, p, word)
    ensures p < |s| && R.Literal(s, p, word, v, expected) == R.Ok(v, p + |word|) && s[p] == word[0]
  {
    CharsAt(s, p, word);
  }

  lemma {:induction false} QuotedReads(s: string, p: nat, text: string)
    requires R.CharAt(s, p, '\"') && At(s, p + 1, W.Escape(text)) && R.CharAt(s, p + 1 + |W.Escape(text)|, '\"')
    ensures R.Quoted(s, p + 1) == R.Ok(text, p + |W.Escape(text)| + 2)
  {
    EscapedReads(s, p + 1, p + 1 + |W.Escape(text)|, text, "");
    assert "" + text == text;
  }

  lemma {:induction false} TextReads(s: string, p: nat, text: string)
    requires At(s, p, "\"" + W.Escape(text) + "\"")
    ensures R.CharAt(s, p, '\"') && R.ParseString(s, p) == R.Ok(R.String(text), p + |W.Escape(text)| + 2)
  {
    var e := W.Escape(text);
    AtConcat(s, p, "\"" + e, "\"");
    AtConcat(s, p, "\"", e);
    CharsAt(s, p, "\"");
    CharsAt(s, p + 1 + |e|, "\"");
    QuotedReads(s, p, text);
  }

  lemma {:induction false} ScalarReads(s: string, p: nat, d: W.Doc, depth: nat)
    requires p <= |s| && !d.Array? && !d.Object? && ScalarLayout(s, p, d).Some?
    ensures R.ParseToken(s, p, depth) == R.Ok(Denote(d), ScalarLayout(s, p, d).value)
  {
    match d
    case Null => LiteralReads(s, p, "null", R.Null, R.ExpectedNull);
    case Boolean(flag) =>
      if flag {
        LiteralReads(s, p, "true", R.Boolean(true), R.ExpectedTrue);
      } else {
        LiteralReads(s, p, "false", R.Boolean(false), R.ExpectedFalse);
      }
    case Integer(n) => IntegerToken(s, p, n, depth);
    case Text(text) => TextReads(s, p, text);
  }

  lemma {:induction false} IntegerToken(s: string, p: nat, n: int, depth: nat)
    requires At(s, p, IntText(n)) && Stops(s, p + |IntText(n)|)
    ensures p < |s| && R.ParseToken(s, p, depth) == R.Ok(R.Number(IntText(n)), p + |IntText(n)|)
  {
    AtHead(s, p, IntText(n));
    IntegerReads(s, p, n);
  }

  /** Read from `p`, where `d` is laid out after any white space. */
  lemma {:induction false} ValueReads(s: string, p: nat, d: W.Doc, depth: nat)
    requires p <= |s| && Layout(s, R.SkipSpace(s, p), d).Some?
    ensures Reads(R.ParseValue(s, p, depth), Depth(d), depth, Denote(d), Layout(s, R.SkipSpace(s, p), d).value)
    decreases d, 0
  {
    if depth <= R.MAX_DEPTH {
      var q := R.SkipSpace(s, p);
      assert R.ParseValue(s, p, depth) == R.ParseToken(s, q, depth);
      match d
      case Array(items) => ArrayReads(s, q, items, depth);
      case Object(members) => ObjectReads(s, q, members, depth);
      case _ => ScalarReads(s, q, d, depth);
    }
  }

  lemma {:induction false} ArrayReads(s: string, p: nat, items: seq<W.Doc>, depth: nat)
    requires p <= |s| && Layout(s, p, W.Array(items)).Some? && depth <= R.MAX_DEPTH
    ensures Reads(R.ParseArray(s, p, depth), ItemsDepth(items), depth, R.Array(DenoteItems(items)),
                  Layout(s, p, W.Array(items)).value)
    decreases items, 1
  {
    if items != [] {
      var q := R.SkipSpace(s, p + 1);
      SkipSpaceTo(s, q, q);
      assert R.ParseArray(s, p, depth) == R.ParseItems(s, q, depth, []);
      ItemsRead(s, q, items, depth, []);
      assert [] + DenoteItems(items) == DenoteItems(items);
    }
  }

  /** The end of an array whose first element may start at `p`. */
  ghost function ItemsEnd(s: string, p: nat, items: seq<W.Doc>): Option<nat>
    requires p <= |s| && items != []
  {
    var v := Layout(s, R.SkipSpace(s, p), items[0]);
    if v.None? then None else
    var e := LayoutItems(s, v.value, items[1..], false);
    if e.None? then None else Closed(s, e.value, ']')
  }

  lemma {:induction false} ItemsSplit(s: string, p: nat, items: seq<W.Doc>) returns (q: nat, end: nat)
    requires p <= |s| && items != [] && ItemsEnd(s, p, items).Some?
    ensures q <= |s| && Layout(s, R.SkipSpace(s, p), items[0]) == Some(q) && end == ItemsEnd(s, p, items).value
    ensures items[1..] == [] ==> Closed(s, q, ']') == Some(end)
    ensures items[1..] != [] ==> R.CharAt(s, Skip(s, q), ',') && ItemsEnd(s, Skip(s, q) + 1, items[1..]) == Some(end)
  {
    q, end := Layout(s, R.SkipSpace(s, p), items[0]).value, ItemsEnd(s, p, items).value;
  }

  /** The array loop, from where an element may start. */
  lemma {:induction false} ItemsRead(s: string, p: nat, items: seq<W.Doc>, depth: nat, acc: seq<R.Value>)
    requires p <= |s| && items != [] && ItemsEnd(s, p, items).Some?
    ensures Reads(R.ParseItems(s, p, depth, acc), ItemsDepth(items), depth, R.Array(acc + DenoteItems(items)),
                  ItemsEnd(s, p, items).value)
    decreases items, 0
  {
    var q, end := ItemsSplit(s, p, items);
    ValueReads(s, p, items[0], depth + 1);
    if items[1..] == [] {
      LastItem(s, p, q, items, depth, acc, end);
    } else {
      ItemsRead(s, Skip(s, q) + 1, items[1..], depth, acc + [Denote(items[0])]);
      NextItem(s, p, q, items, depth, acc, end);
    }
  }

  /** One element read in the array loop, and what follows it. */
  lemma {:induction false} ItemStep(s: string, p: nat, v: R.Parsed<R.Value>, sep: R.Parsed<bool>, depth: nat,
                                    acc: seq<R.Value>)
    requires p <= |s| && v == R.ParseValue(s, p, depth + 1)
    requires v.Ok? ==> sep == R.Separator(s, v.pos, ']', R.UnterminatedArray, R.ExpectedItemEnd) && sep.Ok?
    ensures v.Fail? ==> R.ParseItems(s, p, depth, acc) == v
    ensures v.Ok? && !sep.value ==> R.ParseItems(s, p, depth, acc) == R.Ok(R.Array(acc + [v.value]), sep.pos)
    ensures v.Ok? && sep.value ==>
              sep.pos <= |s| && R.ParseItems(s, p, depth, acc) == R.ParseItems(s, sep.pos, depth, acc + [v.value])
  {
  }

  lemma {:induction false} LastItem(s: string, p: nat, q: nat, items: seq<W.Doc>, depth: nat, acc: seq<R.Value>,
                                    end: nat)
    requires p <= |s| && q <= |s| && items != [] && items[1..] == []
    requires Reads(R.ParseValue(s, p, depth + 1), Depth(items[0]), depth + 1, Denote(items[0]), q)
    requires Closed(s, q, ']') == Some(end)
    ensures Reads(R.ParseItems(s, p, depth, acc), ItemsDepth(items), depth, R.Array(acc + DenoteItems(items)), end)
  {
    assert DenoteItems(items) == [Denote(items[0])];
    assert ItemsDepth(items) == 1 + Depth(items[0]);
    ItemStep(s, p, R.ParseValue(s, p, depth + 1), R.Ok(false, end), depth, acc);
  }

  lemma {:induction false} NextItem(s: string, p: nat, q: nat, items: seq<W.Doc>, depth: nat, acc: seq<R.Value>,
                                    end: nat)
    requires p <= |s| && q <= |s| && |items| > 1 && R.CharAt(s, R.SkipSpace(s, q), ',')
    requires Reads(R.ParseValue(s, p, depth + 1), Depth(items[0]), depth + 1, Denote(items[0]), q)
    requires Reads(R.ParseItems(s, R.SkipSpace(s, q) + 1, depth, acc + [Denote(items[0])]), ItemsDepth(items[1..]),
             depth,
                   R.Array(acc + [Denote(items[0])] + DenoteItems(items[1..])), end)
    ensures Reads(R.ParseItems(s, p, depth, acc), ItemsDepth(items), depth, R.Array(acc + DenoteItems(items)), end)
  {
    assert acc + [Denote(items[0])] + DenoteItems(items[1..]) == acc + DenoteItems(items);
    ItemStep(s, p, R.ParseValue(s, p, depth + 1), R.Ok(true, R.SkipSpace(s, q) + 1), depth, acc);
  }

  lemma {:induction false} FirstMember(s: string, p: nat, members: seq<W.Member>) returns (q: nat)
    requires p <= |s| && members != [] && LayoutMembers(s, p, members, true).Some?
    ensures q <= |s| && MemberSpan(s, Skip(s, p), members[0]) == Some(q)
    ensures LayoutMembers(s, p, members, true) == MembersSpan(s, q, members[1..])
  {
    q := LayoutMember(s, R.SkipSpace(s, p), members[0]).value;
  }

  lemma {:induction false} ObjectReads(s: string, p: nat, members: seq<W.Member>, depth: nat)
    requires p <= |s| && Layout(s, p, W.Object(members)).Some? && depth <= R.MAX_DEPTH
    ensures Reads(R.ParseObject(s, p, depth), MembersDepth(members), depth, R.Object(DenoteMembers(members, map[])),
                  Layout(s, p, W.Object(members)).value)
    decreases members, 1
  {
    if members != [] {
      var q := R.SkipSpace(s, p + 1);
      SkipSpaceTo(s, q, q);
      var e := FirstMember(s, p + 1, members);
      assert R.ParseObject(s, p, depth) == R.ParseMembers(s, q, depth, map[]);
      MembersRead(s, q, members, depth, map[], e, LayoutMembers(s, p + 1, members, true).value,
                  Layout(s, p, W.Object(members)).value);
    }
  }

  lemma {:induction false} KeyReads(s: string, p: nat, key: string) returns (c: nat)
    requires p <= |s| && KeyLayout(s, Skip(s, p), key).Some?
    ensures c <= |s| && R.ParseKey(s, p) == R.Ok(key, c) && Skip(s, c) == KeyLayout(s, Skip(s, p), key).value
  {
    var k := Skip(s, p);
    var e := k + |W.Escape(key)| + 2;
    KeyParts(s, k, e, key);
    QuotedReads(s, k, key);
    KeyFound(s, p, k, key, e);
    c := Skip(s, e) + 1;
  }

  lemma {:induction false} KeyParts(s: string, k: nat, e: nat, key: string)
    requires k <= |s| && KeyLayout(s, k, key).Some? && e == k + |W.Escape(key)| + 2
    ensures R.CharAt(s, k, '\"') && At(s, k + 1, W.Escape(key)) && R.CharAt(s, k + 1 + |W.Escape(key)|, '\"')
    ensures e <= |s| && R.CharAt(s, Skip(s, e), ':') && KeyLayout(s, k, key).value == Skip(s, Skip(s, e) + 1)
  {
  }

  lemma {:induction false} KeyFound(s: string, p: nat, k: nat, key: string, e: nat)
    requires p <= |s| && k == Skip(s, p) && R.CharAt(s, k, '\"') && e <= |s|
    requires R.Quoted(s, k + 1) == R.Ok(key, e) && R.CharAt(s, Skip(s, e), ':')
    ensures R.ParseKey(s, p) == R.Ok(key, Skip(s, e) + 1)
  {
  }

  // The object loop is argued about through these names, which do not unfold by themselves.

  ghost function Skip(s: string, p: nat): (q: nat)
    requires p <= |s|
    ensures q <= |s|
  {
    R.SkipSpace(s, p)
  }

  ghost function MemberSpan(s: string, p: nat, m: W.Member): Option<nat>
    requires p <= |s|
  {
    LayoutMember(s, p, m)
  }

  ghost function MembersSpan(s: string, p: nat, members: seq<W.Member>): Option<nat>
    requires p <= |s|
  {
    LayoutMembers(s, p, members, false)
  }

  ghost function ObjectLoop(s: string, p: nat, depth: nat, members: map<string, R.Value>): R.Parsed<R.Value>
    requires p <= |s|
  {
    R.ParseMembers(s, p, depth, members)
  }

  ghost function ObjectValue(members: seq<W.Member>, acc: map<string, R.Value>): R.Value {
    R.Object(DenoteMembers(members, acc))
  }

  ghost function Nesting(members: seq<W.Member>): nat { MembersDepth(members) }

  /** The object loop after a value that ends at `q`. */
  ghost function AfterMember(s: string, q: nat, depth: nat, members: map<string, R.Value>): R.Parsed<R.Value>
    requires q <= |s|
  {
    var more := R.Separator(s, q, '}', R.UnterminatedObject, R.ExpectedMemberEnd);
    if more.Fail? then R.Fail(more.problem, more.offset)
    else if more.value then R.ParseMembers(s, more.pos, depth, members)
    else R.Ok(R.Object(members), more.pos)
  }

  /** Members other than the first: a comma, then a member. */
  lemma {:induction false} SpanStep(s: string, p: nat, members: seq<W.Member>) returns (c: nat, q: nat)
    requires p <= |s| && members != [] && MembersSpan(s, p, members).Some?
    ensures R.CharAt(s, Skip(s, p), ',') && c == Skip(s, p) + 1 && c <= |s| && q <= |s|
    ensures MemberSpan(s, Skip(s, c), members[0]) == Some(q)
    ensures MembersSpan(s, p, members) == MembersSpan(s, q, members[1..])
  {
    c := R.SkipSpace(s, p) + 1;
    q := LayoutMember(s, Next(s, p, false).value, members[0]).value;
  }

  lemma {:induction false} MembersUnfold(members: seq<W.Member>, acc: map<string, R.Value>)
    requires members != []
    ensures ObjectValue(members, acc) == ObjectValue(members[1..], acc[members[0].key := Denote(members[0].value)])
    ensures Nesting(members) == Max(1 + Depth(members[0].value), Nesting(members[1..]))
  {
  }

  lemma {:induction false} AfterComma(s: string, q: nat, c: nat, depth: nat, members: map<string, R.Value>)
    requires q <= |s| && R.CharAt(s, Skip(s, q), ',') && c == Skip(s, q) + 1
    ensures AfterMember(s, q, depth, members) == ObjectLoop(s, c, depth, members)
  {
  }

  lemma {:induction false} AfterBrace(s: string, q: nat, e: nat, depth: nat, members: map<string, R.Value>, end: nat)
    requires q <= |s| && e <= |s| && MembersSpan(s, q, []) == Some(e) && Closed(s, e, '}') == Some(end)
    ensures AfterMember(s, q, depth, members) == R.Ok(ObjectValue([], members), end) && Nesting([]) == 0
  {
  }

  /** The object loop, from where a key may start; `q` and `e` are where the first and the
      last member end. */
  lemma {:induction false} MembersRead(s: string, p: nat, members: seq<W.Member>, depth: nat, acc: map<string, R.Value>,
                                       q: nat, e: nat, end: nat)
    requires p <= |s| && q <= |s| && e <= |s| && members != []
    requires MemberSpan(s, Skip(s, p), members[0]) == Some(q) && MembersSpan(s, q, members[1..]) == Some(e)
    requires Closed(s, e, '}') == Some(end)
    ensures Reads(ObjectLoop(s, p, depth, acc), Nesting(members), depth, ObjectValue(members, acc), end)
    decreases members, 0
  {
    var m, more := members[0], members[1..];
    var next := acc[m.key := Denote(m.value)];
    MembersUnfold(members, acc);
    if depth + 1 + Depth(m.value) > R.MAX_DEPTH {
      MemberReads(s, p, m, depth, acc, q);
    } else if more == [] {
      MemberReads(s, p, m, depth, acc, q);
      AfterBrace(s, q, e, depth, next, end);
    } else {
      var c, q1 := SpanStep(s, q, more);
      MembersRead(s, c, more, depth, next, q1, e, end);
      AfterComma(s, q, c, depth, next);
      MemberReads(s, p, m, depth, acc, q);
    }
  }

  /** One key and its value, which ends at `q`. */
  lemma {:induction false} MemberReads(s: string, p: nat, m: W.Member, depth: nat, acc: map<string, R.Value>, q: nat)
    requires p <= |s| && q <= |s| && MemberSpan(s, Skip(s, p), m) == Some(q)
    ensures var r := ObjectLoop(s, p, depth, acc);
            if depth + 1 + Depth(m.value) <= R.MAX_DEPTH then r
                == AfterMember(s, q, depth, acc[m.key := Denote(m.value)])
            else r.Fail? && r.problem == R.TooDeep
    decreases m, 1
  {
    var c := KeyReads(s, p, m.key);
    ValueReads(s, c, m.value, depth + 1);
    MemberStep(s, p, R.Ok(m.key, c), R.ParseValue(s, c, depth + 1), depth, acc);
  }

  /** One member read in the object loop. */
  lemma {:induction false} MemberStep(s: string, p: nat, k: R.Parsed<string>, v: R.Parsed<R.Value>, depth: nat,
                                      acc: map<string, R.Value>)
    requires p <= |s| && k == R.ParseKey(s, p) && k.Ok? && v == R.ParseValue(s, k.pos, depth + 1)
    ensures v.Fail? ==> R.ParseMembers(s, p, depth, acc) == v
    ensures v.Ok? ==> R.ParseMembers(s, p, depth, acc) == AfterMember(s, v.pos, depth, acc[k.value := v.value])
  {
  }

  // --- The writer's text is a layout ---------------------------------------------------------------

  lemma {:induction false} BreakSkips(s: string, p: nat, pretty: bool, level: nat)
    requires At(s, p, W.Break(pretty, level))
    requires p + |W.Break(pretty, level)| < |s| && !R.IsSpace(s[p + |W.Break(pretty, level)|])
    ensures R.SkipSpace(s, p) == p + |W.Break(pretty, level)|
  {
    SkipBlank(s, p, W.Break(pretty, level));
  }

  lemma {:induction false} SkipBlank(s: string, p: nat, w: string)
    requires At(s, p, w) && Blank(w)
    requires p + |w| < |s| ==> !R.IsSpace(s[p + |w|])
    ensures R.SkipSpace(s, p) == p + |w|
  {
    AtIndex(s, p, w);
    forall i | p <= i < p + |w| ensures R.IsSpace(s[i]) {
      assert s[p + (i - p)] == w[i - p];
    }
    SkipSpaceTo(s, p, p + |w|);
  }

  lemma {:induction false} LeadLayout(s: string, p: nat, pretty: bool, level: nat, first: bool)
    requires At(s, p, Lead(pretty, level, first))
    requires var q := p + |Lead(pretty, level, first)|; q < |s| && !R.IsSpace(s[q])
    ensures Next(s, p, first) == Some(p + |Lead(pretty, level, first)|)
  {
    AtConcat(s, p, W.Comma(first), W.Break(pretty, level));
    CharsAt(s, p, W.Comma(first));
    if !first { SkipSpaceTo(s, p, p); }
    BreakSkips(s, p + |W.Comma(first)|, pretty, level);
  }

  lemma {:induction false} CloseLayout(s: string, p: nat, pretty: bool, level: nat, empty: bool, bracket: string,
                                       close: char)
    requires bracket == [close] && (close == ']' || close == '}')
    requires At(s, p, W.CloseBreak(pretty, level, empty) + bracket)
    ensures Closed(s, p, close) == Some(p + |W.CloseBreak(pretty, level, empty)| + 1) && Stops(s, p)
  {
    var b := W.CloseBreak(pretty, level, empty);
    AtConcat(s, p, b, bracket);
    CharsAt(s, p, b);
    CharsAt(s, p + |b|, bracket);
    SkipBlank(s, p, b);
  }

  lemma {:induction false} KeyTextLayout(s: string, p: nat, end: nat, key: string, pretty: bool)
    requires At(s, p, W.KeyText(key, pretty)) && end == p + |W.KeyText(key, pretty)| < |s| && !R.IsSpace(s[end])
    ensures KeyLayout(s, p, key) == Some(end) && !R.IsSpace(s[p])
  {
    var e, sp := W.Escape(key), if pretty then " " else "";
    var c := p + 2 + |e|;
    KeyPieces(s, p, c, e, sp);
    SkipSpaceTo(s, c, c);
    assert end == c + 1 + |sp|;
    SkipBlank(s, c + 1, sp);
    KeyLaid(s, p, key, c, end);
  }

  lemma {:induction false} KeyLaid(s: string, p: nat, key: string, c: nat, end: nat)
    requires R.CharAt(s, p, '\"') && At(s, p + 1, W.Escape(key)) && R.CharAt(s, p + 1 + |W.Escape(key)|, '\"')
    requires c == p + 2 + |W.Escape(key)| && R.CharAt(s, c, ':') && Skip(s, c) == c && Skip(s, c + 1) == end
    ensures KeyLayout(s, p, key) == Some(end)
  {
  }

  lemma {:induction false} KeyPieces(s: string, p: nat, c: nat, e: string, sp: string)
    requires At(s, p, "\"" + e + ("\"" + (":" + sp))) && c == p + 2 + |e|
    ensures R.CharAt(s, p, '\"') && At(s, p + 1, e) && R.CharAt(s, p + 1 + |e|, '\"')
    ensures R.CharAt(s, c, ':') && At(s, c + 1, sp)
  {
    AtConcat(s, p, "\"" + e, "\"" + (":" + sp));
    AtConcat(s, p, "\"", e);
    AtConcat(s, p + 1 + |e|, "\"", ":" + sp);
    AtConcat(s, p + 2 + |e|, ":", sp);
    CharsAt(s, p, "\"");
    CharsAt(s, p + 1 + |e|, "\"");
    CharsAt(s, p + 2 + |e|, ":");
  }

  lemma {:induction false} Bracketed(s: string, p: nat, open: string, body: string, close: string, bracket: string)
    requires At(s, p, open + body + close + bracket)
    ensures At(s, p, open) && At(s, p + |open|, body) && At(s, p + |open| + |body|, close + bracket)
  {
    assert open + body + close + bracket == open + (body + (close + bracket));
    AtConcat(s, p, open, body + (close + bracket));
    AtConcat(s, p + |open|, body, close + bracket);
  }

  /** Where the parts of rendered elements stand. */
  lemma {:induction false} ItemsParts(s: string, p: nat, items: seq<W.Doc>, pretty: bool, level: nat, first: bool)
    requires items != [] && At(s, p, W.RenderItems(items, pretty, level, first))
    ensures At(s, p, Lead(pretty, level, first))
    ensures At(s, p + |Lead(pretty, level, first)|, W.Render(items[0], pretty, level))
    ensures At(s, p + |Lead(pretty, level, first)| + |W.Render(items[0], pretty, level)|,
               W.RenderItems(items[1..], pretty, level, false))
    ensures |W.RenderItems(items, pretty, level, first)|
         == |Lead(pretty, level, first)| + |W.Render(items[0], pretty, level)|
             + |W.RenderItems(items[1..], pretty, level, false)|
  {
    var lead, r := Lead(pretty, level, first), W.Render(items[0], pretty, level);
    var rest := W.RenderItems(items[1..], pretty, level, false);
    ItemsText(items, pretty, level, first);
    AtConcat3(s, p, lead, r, rest);
  }

  lemma {:induction false} ItemsText(items: seq<W.Doc>, pretty: bool, level: nat, first: bool)
    requires items != []
    ensures W.RenderItems(items, pretty, level, first)
         == Lead(pretty, level, first) + W.Render(items[0], pretty, level)
             + W.RenderItems(items[1..], pretty, level, false)
  {
    assert W.ItemText(items[0], pretty, level, first) == Lead(pretty, level, first) + W.Render(items[0], pretty, level);
  }

  ghost function Lead(pretty: bool, level: nat, first: bool): string {
    W.Comma(first) + W.Break(pretty, level)
  }

  lemma {:induction false} AtConcat3(s: string, p: nat, a: string, b: string, c: string)
    requires At(s, p, a + b + c)
    ensures At(s, p, a) && At(s, p + |a|, b) && At(s, p + |a| + |b|, c)
  {
    AtConcat(s, p, a + b, c);
    AtConcat(s, p, a, b);
  }

  lemma {:induction false} AtConcat4(s: string, p: nat, a: string, b: string, c: string, d: string)
    requires At(s, p, a + b + c + d)
    ensures At(s, p, a) && At(s, p + |a|, b) && At(s, p + |a| + |b|, c) && At(s, p + |a| + |b| + |c|, d)
  {
    AtConcat3(s, p, a + b, c, d);
    AtConcat(s, p, a, b);
  }

  lemma {:induction false} MembersParts(s: string, p: nat, k: nat, v: nat, q: nat, members: seq<W.Member>,
                                        pretty: bool, level: nat, first: bool)
    requires members != [] && At(s, p, W.RenderMembers(members, pretty, level, first))
    requires k == p + |Lead(pretty, level, first)| && v == k + |W.KeyText(members[0].key, pretty)|
    requires q == v + |W.Render(members[0].value, pretty, level)|
    ensures At(s, p, Lead(pretty, level, first)) && At(s, k, W.KeyText(members[0].key, pretty))
    ensures At(s, v, W.Render(members[0].value, pretty, level))
    ensures At(s, q, W.RenderMembers(members[1..], pretty, level, false))
    ensures p + |W.RenderMembers(members, pretty, level, first)| == q
            + |W.RenderMembers(members[1..], pretty, level, false)|
  {
    MembersText(members, pretty, level, first);
    AtConcat4(s, p, Lead(pretty, level, first), W.KeyText(members[0].key, pretty),
              W.Render(members[0].value, pretty, level), W.RenderMembers(members[1..], pretty, level, false));
  }

  lemma {:induction false} MembersText(members: seq<W.Member>, pretty: bool, level: nat, first: bool)
    requires members != []
    ensures W.RenderMembers(members, pretty, level, first)
         == Lead(pretty, level, first) + W.KeyText(members[0].key, pretty) + W.Render(members[0].value, pretty, level)
            + W.RenderMembers(members[1..], pretty, level, false)
  {
    assert W.MemberText(members[0], pretty, level, first)
        == Lead(pretty, level, first) + W.KeyText(members[0].key, pretty) + W.Render(members[0].value, pretty, level);
  }

  /** A container's text: its opening bracket, its children, its closing bracket. */
  lemma {:induction false} ContainerParts(s: string, p: nat, text: string, open: char, body: string, pretty: bool,
                                          level: nat, empty: bool,
                       close: char)
    requires close == ']' || close == '}'
    requires text == [open] + body + W.CloseBreak(pretty, level, empty) + [close] && At(s, p, text)
    ensures R.CharAt(s, p, open) && At(s, p + 1, body)
    ensures var e := p + 1 + |body|; e <= |s| && Closed(s, e, close) == Some(p + |text|) && Stops(s, e)
  {
    Bracketed(s, p, [open], body, W.CloseBreak(pretty, level, empty), [close]);
    CharsAt(s, p, [open]);
    CloseLayout(s, p + 1 + |body|, pretty, level, empty, [close], close);
  }

  lemma {:induction false} ArrayParts(s: string, p: nat, items: seq<W.Doc>, pretty: bool, level: nat)
    requires At(s, p, W.Render(W.Array(items), pretty, level))
    ensures R.CharAt(s, p, '[') && At(s, p + 1, W.RenderItems(items, pretty, level + 1, true))
    ensures var e := p + 1 + |W.RenderItems(items, pretty, level + 1, true)|;
            && e <= |s| && Closed(s, e, ']') == Some(p + |W.Render(W.Array(items), pretty, level)|) && Stops(s, e)
  {
    ContainerParts(s, p, W.Render(W.Array(items), pretty, level), '[', W.RenderItems(items, pretty, level + 1, true),
                   pretty, level, items == [], ']');
  }

  lemma {:induction false} ObjectParts(s: string, p: nat, members: seq<W.Member>, pretty: bool, level: nat)
    requires At(s, p, W.Render(W.Object(members), pretty, level))
    ensures R.CharAt(s, p, '{') && At(s, p + 1, W.RenderMembers(members, pretty, level + 1, true))
    ensures var e := p + 1 + |W.RenderMembers(members, pretty, level + 1, true)|;
            && e <= |s| && Closed(s, e, '}') == Some(p + |W.Render(W.Object(members), pretty, level)|) && Stops(s, e)
  {
    ContainerParts(s, p, W.Render(W.Object(members), pretty, level), '{',
        W.RenderMembers(members, pretty, level + 1, true),
                   pretty, level, members == [], '}');
  }

  lemma {:induction false} RenderLayout(s: string, p: nat, d: W.Doc, pretty: bool, level: nat)
    requires At(s, p, W.Render(d, pretty, level)) && Stops(s, p + |W.Render(d, pretty, level)|)
    ensures p <= |s| && Layout(s, p, d) == Some(p + |W.Render(d, pretty, level)|)
    decreases d, 0
  {
    match d
    case Array(items) => ArrayLayout(s, p, items, pretty, level);
    case Object(members) => ObjectLayout(s, p, members, pretty, level);
    case _ => ScalarRenderLayout(s, p, d, pretty, level);
  }

  lemma {:induction false} ArrayLayout(s: string, p: nat, items: seq<W.Doc>, pretty: bool, level: nat)
    requires At(s, p, W.Render(W.Array(items), pretty, level))
    ensures p <= |s| && Layout(s, p, W.Array(items)) == Some(p + |W.Render(W.Array(items), pretty, level)|)
    decreases items, 1
  {
    ArrayParts(s, p, items, pretty, level);
    ItemsLayout(s, p + 1, items, pretty, level + 1, true, p + 1 + |W.RenderItems(items, pretty, level + 1, true)|);
  }

  lemma {:induction false} ObjectLayout(s: string, p: nat, members: seq<W.Member>, pretty: bool, level: nat)
    requires At(s, p, W.Render(W.Object(members), pretty, level))
    ensures p <= |s| && Layout(s, p, W.Object(members)) == Some(p + |W.Render(W.Object(members), pretty, level)|)
    decreases members, 1
  {
    ObjectParts(s, p, members, pretty, level);
    MembersLayout(s, p + 1, members, pretty, level + 1, true, p + 1
        + |W.RenderMembers(members, pretty, level + 1, true)|);
  }

  lemma {:induction false} ScalarRenderLayout(s: string, p: nat, d: W.Doc, pretty: bool, level: nat)
    requires !d.Array? && !d.Object?
    requires At(s, p, W.Render(d, pretty, level)) && Stops(s, p + |W.Render(d, pretty, level)|)
    ensures p <= |s| && ScalarLayout(s, p, d) == Some(p + |W.Render(d, pretty, level)|)
  {
    W.ScalarLevel(d, pretty, level);
    W.ScalarLevel(d, false, 0);
  }

  /** The text of further children starts with a comma, so nothing before it reads on. */
  lemma {:induction false} MoreStops(s: string, p: nat, more: string)
    requires more != "" ==> more[0] == ','
    requires At(s, p, more) && Stops(s, p + |more|)
    ensures Stops(s, p)
  {
    CharsAt(s, p, more);
  }

  lemma {:induction false} MoreItemsComma(items: seq<W.Doc>, pretty: bool, level: nat)
    ensures var t := W.RenderItems(items, pretty, level, false); t != "" ==> t[0] == ','
  {
  }

  lemma {:induction false} MoreMembersComma(members: seq<W.Member>, pretty: bool, level: nat)
    ensures var t := W.RenderMembers(members, pretty, level, false); t != "" ==> t[0] == ','
  {
  }

  lemma {:induction false} LayoutItemsCons(s: string, p: nat, items: seq<W.Doc>, first: bool, v: nat, q: nat, e: nat)
    requires items != [] && p <= |s| && v <= |s| && q <= |s|
    requires Next(s, p, first) == Some(v) && Layout(s, v, items[0]) == Some(q)
    requires LayoutItems(s, q, items[1..], false) == Some(e)
    ensures LayoutItems(s, p, items, first) == Some(e)
  {
  }

  lemma {:induction false} ItemsLayout(s: string, p: nat, items: seq<W.Doc>, pretty: bool, level: nat, first: bool,
                                       end: nat)
    requires At(s, p, W.RenderItems(items, pretty, level, first))
    requires end == p + |W.RenderItems(items, pretty, level, first)| && Stops(s, end)
    ensures p <= |s| && LayoutItems(s, p, items, first) == Some(end)
    decreases items, 0
  {
    if items != [] {
      var v := p + |Lead(pretty, level, first)|;
      var q := v + |W.Render(items[0], pretty, level)|;
      ItemsPieces(s, p, v, q, items, pretty, level, first);
      ItemLayout(s, p, v, q, items[0], pretty, level, first);
      ItemsLayout(s, q, items[1..], pretty, level, false, end);
      LayoutItemsCons(s, p, items, first, v, q, end);
    }
  }

  /** The pieces of some rendered elements, none of which reads on into the next. */
  lemma {:induction false} ItemsPieces(s: string, p: nat, v: nat, q: nat, items: seq<W.Doc>, pretty: bool, level: nat,
                                       first: bool)
    requires items != [] && At(s, p, W.RenderItems(items, pretty, level, first))
    requires Stops(s, p + |W.RenderItems(items, pretty, level, first)|)
    requires v == p + |Lead(pretty, level, first)| && q == v + |W.Render(items[0], pretty, level)|
    ensures At(s, p, Lead(pretty, level, first)) && At(s, v, W.Render(items[0], pretty, level)) && Stops(s, q)
    ensures At(s, q, W.RenderItems(items[1..], pretty, level, false))
    ensures p + |W.RenderItems(items, pretty, level, first)| == q + |W.RenderItems(items[1..], pretty, level, false)|
  {
    ItemsParts(s, p, items, pretty, level, first);
    MoreItemsComma(items[1..], pretty, level);
    MoreStops(s, q, W.RenderItems(items[1..], pretty, level, false));
  }

  /** A rendered element and the break before it. */
  lemma {:induction false} ItemLayout(s: string, p: nat, v: nat, q: nat, d: W.Doc, pretty: bool, level: nat,
                                      first: bool)
    requires At(s, p, Lead(pretty, level, first)) && v == p + |Lead(pretty, level, first)|
    requires At(s, v, W.Render(d, pretty, level)) && q == v + |W.Render(d, pretty, level)| && Stops(s, q)
    ensures p <= |s| && v <= |s| && q <= |s| && Next(s, p, first) == Some(v) && Layout(s, v, d) == Some(q)
    decreases d, 1
  {
    RenderLayout(s, v, d, pretty, level);
    LeadLayout(s, p, pretty, level, first);
  }

  lemma {:induction false} LayoutMembersCons(s: string, p: nat, members: seq<W.Member>, first: bool, k: nat, q: nat,
                                             e: nat)
    requires members != [] && p <= |s| && k <= |s| && q <= |s|
    requires Next(s, p, first) == Some(k) && LayoutMember(s, k, members[0]) == Some(q)
    requires LayoutMembers(s, q, members[1..], false) == Some(e)
    ensures LayoutMembers(s, p, members, first) == Some(e)
  {
  }

  lemma {:induction false} MembersLayout(s: string, p: nat, members: seq<W.Member>, pretty: bool, level: nat,
                                         first: bool, end: nat)
    requires At(s, p, W.RenderMembers(members, pretty, level, first))
    requires end == p + |W.RenderMembers(members, pretty, level, first)| && Stops(s, end)
    ensures p <= |s| && LayoutMembers(s, p, members, first) == Some(end)
    decreases members, 0
  {
    if members != [] {
      var k := p + |Lead(pretty, level, first)|;
      var v := k + |W.KeyText(members[0].key, pretty)|;
      var q := v + |W.Render(members[0].value, pretty, level)|;
      MembersPieces(s, p, k, v, q, members, pretty, level, first);
      MemberLayout(s, p, k, v, q, members[0], pretty, level, first);
      MembersLayout(s, q, members[1..], pretty, level, false, end);
      LayoutMembersCons(s, p, members, first, k, q, end);
    }
  }

  /** The pieces of some rendered members, none of which reads on into the next. */
  lemma {:induction false} MembersPieces(s: string, p: nat, k: nat, v: nat, q: nat, members: seq<W.Member>,
                                         pretty: bool, level: nat, first: bool)
    requires members != [] && At(s, p, W.RenderMembers(members, pretty, level, first))
    requires Stops(s, p + |W.RenderMembers(members, pretty, level, first)|)
    requires k == p + |Lead(pretty, level, first)| && v == k + |W.KeyText(members[0].key, pretty)|
    requires q == v + |W.Render(members[0].value, pretty, level)|
    ensures At(s, p, Lead(pretty, level, first)) && At(s, k, W.KeyText(members[0].key, pretty))
    ensures At(s, v, W.Render(members[0].value, pretty, level)) && Stops(s, q)
    ensures At(s, q, W.RenderMembers(members[1..], pretty, level, false))
    ensures p + |W.RenderMembers(members, pretty, level, first)| == q
            + |W.RenderMembers(members[1..], pretty, level, false)|
  {
    MembersParts(s, p, k, v, q, members, pretty, level, first);
    MoreMembersComma(members[1..], pretty, level);
    MoreStops(s, q, W.RenderMembers(members[1..], pretty, level, false));
  }

  /** A rendered member and the break before it. */
  lemma {:induction false} MemberLayout(s: string, p: nat, k: nat, v: nat, q: nat, m: W.Member, pretty: bool,
                                        level: nat,
                                        first: bool)
    requires At(s, p, Lead(pretty, level, first)) && k == p + |Lead(pretty, level, first)|
    requires At(s, k, W.KeyText(m.key, pretty)) && v == k + |W.KeyText(m.key, pretty)|
    requires At(s, v, W.Render(m.value, pretty, level)) && q == v + |W.Render(m.value, pretty, level)| && Stops(s, q)
    ensures p <= |s| && k <= |s| && q <= |s| && Next(s, p, first) == Some(k) && LayoutMember(s, k, m) == Some(q)
    decreases m, 1
  {
    RenderLayout(s, v, m.value, pretty, level);
    KeyTextLayout(s, k, v, m.key, pretty);
    LeadLayout(s, p, pretty, level, first);
  }

  lemma {:induction false} Surrounded(s: string, before: string, t: string, after: string)
    requires s == before + t + after && Blank(before) && Blank(after)
    ensures At(s, |before|, t) && Gap(s, 0, |before|) && Gap(s, |before| + |t|, |s|)
  {
    var p, q := |before|, |before| + |t|;
    AtSlice(s, p, t);
    assert s[p..p + |t|] == t;
    assert forall i | 0 <= i < p :: s[i] == before[i];
    assert forall i | q <= i < |s| :: s[i] == after[i - q];
  }

  // --- Whole documents --------------------------------------------------------------------------

  /** The reader accepts the text of a document, with white space around it, exactly when
      the document has at most 64 containers around any value, and returns its value. */
  lemma {:induction false} DocumentRoundTrip(d: W.Doc, pretty: bool, before: string, after: string)
    requires Blank(before) && Blank(after)
    ensures var r := R.Parse(before + W.Render(d, pretty, 0) + after);
            if Depth(d) <= R.MAX_DEPTH then r == R.Accepted(Denote(d)) else r.Rejected?
  {
    var t := W.Render(d, pretty, 0);
    var s := before + t + after;
    var p, q := |before|, |before| + |t|;
    Surrounded(s, before, t, after);
    RenderLayout(s, p, d, pretty, 0);
    WholeReads(s, p, q, d);
  }

  lemma {:induction false} WholeReads(s: string, p: nat, q: nat, d: W.Doc)
    requires Gap(s, 0, p) && Gap(s, q, |s|) && Layout(s, p, d) == Some(q)
    ensures if Depth(d) <= R.MAX_DEPTH then R.Parse(s) == R.Accepted(Denote(d)) else R.Parse(s).Rejected?
  {
    SkipSpaceTo(s, 0, p);
    SkipSpaceTo(s, p, p);
    SkipSpaceTo(s, q, |s|);
    ValueReads(s, p, d, 0);
  }

  /** Every complete legal run of the writer leaves a text the reader maps to the value of
      the document the calls describe, or rejects for its nesting alone. */
  lemma {:induction false} WriterReaderRoundTrip(pretty: bool, calls: seq<W.Call>)
    requires W.LegalRun(W.Fresh(pretty), calls)
    requires calls != [] && W.Run(W.Fresh(pretty), calls).stack == []
    ensures W.Build(W.Building([]), calls).Done?
    ensures var d := W.Build(W.Building([]), calls).doc; var r := R.Parse(W.Run(W.Fresh(pretty), calls).out);
            if Depth(d) <= R.MAX_DEPTH then r == R.Accepted(Denote(d)) else r.Rejected?
  {
    W.CompleteRunWritesDocument(pretty, calls);
    var d := W.Build(W.Building([]), calls).doc;
    DocumentRoundTrip(d, pretty, "", "");
    assert "" + W.Render(d, pretty, 0) + "" == W.Render(d, pretty, 0);
  }

  /** The integer a lexeme denotes, if it is one. */
  function IntegerLexeme(lexeme: string): Option<int> {
    if lexeme != "" && AllDigits(lexeme) then Some(NatValue(lexeme) as int)
    else if |lexeme| > 1 && lexeme[0] == '-' && AllDigits(lexeme[1..]) then Some(0 - NatValue(lexeme[1..]))
    else if |lexeme| > 1 && lexeme[0] == '+' && AllDigits(lexeme[1..]) then Some(0 + NatValue(lexeme[1..]))
    else None
  }

  lemma {:induction false} IntegerRoundTrip(n: int)
    ensures IntegerLexeme(IntText(n)) == Some(n)
  {
    if n < 0 {
      NatTextValue(-n);
      assert IntText(n)[1..] == NatText(-n);
    } else {
      NatTextValue(n);
    }
  }
}
