/** The writer's two layouts: the pretty text is the compact one with line breaks, indentation and
    spaces put in by a scan that knows only the characters, and the compact one is what a scan
    leaves of either when it drops the white space outside strings. */
module JsonLayout {
  import opened Text
  import W = JsonWriter

  // --- Escapes ------------------------------------------------------------------------------------

  /** A character stands for itself unless it is a quote, a backslash or a control character; these
      have a letter, or four digits of their code. */
  lemma {:induction false} EscapeTells(c: char)
    ensures c >= ' ' && c != '\"' && c != '\\' ==> W.EscapeChar(c) == [c]
    ensures c == '\"' || c == '\\' ==> W.EscapeChar(c) == ['\\', c]
    ensures c as int == 8 ==> W.EscapeChar(c) == "\\b"
    ensures c as int == 9 ==> W.EscapeChar(c) == "\\t"
    ensures c as int == 10 ==> W.EscapeChar(c) == "\\n"
    ensures c as int == 12 ==> W.EscapeChar(c) == "\\f"
    ensures c as int == 13 ==> W.EscapeChar(c) == "\\r"
    ensures c < ' ' && c as int !in {8, 9, 10, 12, 13} ==>
              W.EscapeChar(c) == "\\u00" + [HexDigit(c as int / 16), HexDigit(c as int % 16)]
  {
    if c < ' ' { FourDigits(c as int); }
  }

  lemma {:induction false} FourDigits(n: nat)
    requires n < 256
    ensures W.HexText(n, 4) == ['0', '0', HexDigit(n / 16), HexDigit(n % 16)]
  {
    assert W.HexText(n / 4096, 1) == W.HexText(0, 0) + ['0'];
    assert W.HexText(n / 256, 2) == W.HexText(n / 4096, 1) + ['0'];
    assert W.HexText(n / 16, 3) == W.HexText(n / 256, 2) + [HexDigit(n / 16 % 16)];
  }

  // --- The two scans ----------------------------------------------------------------------------

  predicate Opens(c: char) { c == '[' || c == '{' }

  predicate Closes(c: char) { c == ']' || c == '}' }

  predicate Empties(s: string) { |s| > 1 && Opens(s[0]) && Closes(s[1]) }

  function Line(depth: nat): string { "\n" + Repeat(' ', 2 * depth) }

  /** Compact text with each child on a line of its own, two spaces further in for each container
      around it, the closing bracket below its children and a space after each colon. */
  function Spread(s: string, depth: nat): string
    decreases |s|
  {
    if s == "" then ""
    else if s[0] == '\"' then "\"" + SpreadText(s[1..], depth)
    else if Empties(s) then s[..2] + Spread(s[2..], depth)
    else if Opens(s[0]) then [s[0]] + (Line(depth + 1) + Spread(s[1..], depth + 1))
    else if Closes(s[0]) then
      var out := if depth == 0 then 0 else depth - 1;
      Line(out) + ([s[0]] + Spread(s[1..], out))
    else if s[0] == ',' then "," + (Line(depth) + Spread(s[1..], depth))
    else if s[0] == ':' then ": " + Spread(s[1..], depth)
    else [s[0]] + Spread(s[1..], depth)
  }

  /** The same from inside a string, which is left as it is. */
  function SpreadText(s: string, depth: nat): string
    decreases |s|
  {
    if s == "" then ""
    else if s[0] == '\\' && |s| > 1 then s[..2] + SpreadText(s[2..], depth)
    else if s[0] == '\"' then "\"" + Spread(s[1..], depth)
    else [s[0]] + SpreadText(s[1..], depth)
  }

  predicate White(c: char) { c == ' ' || c == '\n' || c == '\t' || c == '\r' }

  /** The text without the white space outside its strings. */
  function Squeeze(s: string): string
    decreases |s|
  {
    if s == "" then ""
    else if s[0] == '\"' then "\"" + SqueezeText(s[1..])
    else if White(s[0]) then Squeeze(s[1..])
    else [s[0]] + Squeeze(s[1..])
  }

  function SqueezeText(s: string): string
    decreases |s|
  {
    if s == "" then ""
    else if s[0] == '\\' && |s| > 1 then s[..2] + SqueezeText(s[2..])
    else if s[0] == '\"' then "\"" + Squeeze(s[1..])
    else [s[0]] + SqueezeText(s[1..])
  }

  // --- Parts that are copied ----------------------------------------------------------------------

  predicate Plain(c: char) { c != '\"' && !White(c) && !Opens(c) && !Closes(c) && c != ',' && c != ':' }

  lemma {:induction false} Word(w: string, rest: string, depth: nat)
    requires forall c <- w :: Plain(c)
    ensures Spread(w + rest, depth) == w + Spread(rest, depth)
    ensures Squeeze(w + rest) == w + Squeeze(rest)
  {
    if w == "" {
      assert w + rest == rest;
    } else {
      assert (w + rest)[1..] == w[1..] + rest;
      Word(w[1..], rest, depth);
      assert Plain(w[0]);
      W.Assoc([w[0]], w[1..], Spread(rest, depth));
      W.Assoc([w[0]], w[1..], Squeeze(rest));
      assert w == [w[0]] + w[1..];
    }
  }

  /** Inside a string the scans copy `e`. */
  ghost predicate Copied(e: string, rest: string, depth: nat) {
    SpreadText(e + rest, depth) == e + SpreadText(rest, depth) && SqueezeText(e + rest) == e + SqueezeText(rest)
  }

  lemma {:induction false} CopiedConcat(a: string, b: string, rest: string, depth: nat)
    requires Copied(a, b + rest, depth) && Copied(b, rest, depth)
    ensures Copied(a + b, rest, depth)
  {
    W.Assoc(a, b, rest);
    W.Assoc(a, b, SpreadText(rest, depth));
    W.Assoc(a, b, SqueezeText(rest));
  }

  lemma {:induction false} CopiedChar(c: char, rest: string, depth: nat)
    requires c != '\"' && c != '\\'
    ensures Copied([c], rest, depth)
  {
    assert ([c] + rest)[1..] == rest;
  }

  lemma {:induction false} CopiedPair(c: char, rest: string, depth: nat)
    ensures Copied(['\\', c], rest, depth)
  {
    assert (['\\', c] + rest)[2..] == rest && (['\\', c] + rest)[..2] == ['\\', c];
  }

  lemma {:induction false} CopiedHex(value: nat, n: nat, rest: string, depth: nat)
    ensures Copied(W.HexText(value, n), rest, depth)
  {
    if n == 0 {
      assert "" + rest == rest;
      assert "" + SpreadText(rest, depth) == SpreadText(rest, depth) && "" + SqueezeText(rest) == SqueezeText(rest);
    } else {
      CopiedChar(HexDigit(value % 16), rest, depth);
      CopiedHex(value / 16, n - 1, [HexDigit(value % 16)] + rest, depth);
      CopiedConcat(W.HexText(value / 16, n - 1), [HexDigit(value % 16)], rest, depth);
    }
  }

  lemma {:induction false} CopiedOne(c: char, rest: string, depth: nat)
    ensures Copied(W.EscapeChar(c), rest, depth)
  {
    if W.EscapeLetter(c).Some? {
      CopiedPair(W.EscapeLetter(c).value, rest, depth);
    } else if c < ' ' {
      CopiedPair('u', W.HexText(c as int, 4) + rest, depth);
      CopiedHex(c as int, 4, rest, depth);
      CopiedConcat(['\\', 'u'], W.HexText(c as int, 4), rest, depth);
    } else {
      CopiedChar(c, rest, depth);
    }
  }

  lemma {:induction false} CopiedEscape(text: string, rest: string, depth: nat)
    ensures Copied(W.Escape(text), rest, depth)
  {
    if text == "" {
      CopiedHex(0, 0, rest, depth);
    } else {
      CopiedOne(text[0], W.Escape(text[1..]) + rest, depth);
      CopiedEscape(text[1..], rest, depth);
      CopiedConcat(W.EscapeChar(text[0]), W.Escape(text[1..]), rest, depth);
    }
  }

  // --- The text of a document, nested to the right ------------------------------------------------------

  /** A bracket, what it holds, the line of the closing bracket and that bracket. */
  function Held(open: string, line: string, first: string, more: string, last: string, close: string): string {
    open + (line + (first + (more + (last + close))))
  }

  lemma {:induction false} HeldThen(open: string, line: string, first: string, more: string, last: string,
                                    close: string, rest: string)
    ensures Held(open, line, first, more, last, close) + rest
         == open + (line + (first + (more + (last + (close + rest)))))
  {
    W.Assoc(last, close, rest);
    W.Assoc(more, last + close, rest);
    W.Assoc(first, more + (last + close), rest);
    W.Assoc(line, first + (more + (last + close)), rest);
    W.Assoc(open, line + (first + (more + (last + close))), rest);
  }

  lemma {:induction false} HeldIs(open: string, line: string, first: string, more: string, last: string, close: string)
    ensures open + ("" + line + first + more) + last + close == Held(open, line, first, more, last, close)
  {
    var inner := line + first + more;
    assert "" + line + first + more == inner;
    W.Assoc(line, first, more);
    W.Assoc(line, first + more, last + close);
    W.Assoc(first, more, last + close);
    W.Assoc(open, inner, last);
    W.Assoc(open, inner + last, close);
    W.Assoc(inner, last, close);
  }

  lemma {:induction false} ArrayIs(items: seq<W.Doc>, pretty: bool, level: nat)
    requires items != []
    ensures W.Render(W.Array(items), pretty, level)
         == Held("[", W.Break(pretty, level + 1), W.Render(items[0], pretty, level + 1),
                 W.RenderItems(items[1..], pretty, level + 1, false), W.Break(pretty, level), "]")
  {
    var first, more := W.Render(items[0], pretty, level + 1), W.RenderItems(items[1..], pretty, level + 1, false);
    assert W.RenderItems(items, pretty, level + 1, true) == "" + W.Break(pretty, level + 1) + first + more;
    assert W.Render(W.Array(items), pretty, level)
        == "[" + W.RenderItems(items, pretty, level + 1, true) + W.Break(pretty, level) + "]";
    HeldIs("[", W.Break(pretty, level + 1), first, more, W.Break(pretty, level), "]");
  }

  /** A key and its value. */
  function Pair(m: W.Member, pretty: bool, level: nat): string {
    W.KeyText(m.key, pretty) + W.Render(m.value, pretty, level)
  }

  lemma {:induction false} ObjectIs(members: seq<W.Member>, pretty: bool, level: nat)
    requires members != []
    ensures W.Render(W.Object(members), pretty, level)
         == Held("{", W.Break(pretty, level + 1), Pair(members[0], pretty, level + 1),
                 W.RenderMembers(members[1..], pretty, level + 1, false), W.Break(pretty, level), "}")
  {
    var m, more := members[0], W.RenderMembers(members[1..], pretty, level + 1, false);
    W.Assoc("" + W.Break(pretty, level + 1), W.KeyText(m.key, pretty), W.Render(m.value, pretty, level + 1));
    assert W.RenderMembers(members, pretty, level + 1, true)
        == "" + W.Break(pretty, level + 1) + Pair(m, pretty, level + 1) + more;
    assert W.Render(W.Object(members), pretty, level)
        == "{" + W.RenderMembers(members, pretty, level + 1, true) + W.Break(pretty, level) + "}";
    HeldIs("{", W.Break(pretty, level + 1), Pair(m, pretty, level + 1), more, W.Break(pretty, level), "}");
  }

  lemma {:induction false} NextIs(line: string, child: string, more: string, rest: string)
    ensures "," + line + child + more + rest == "," + (line + (child + (more + rest)))
  {
    W.Assoc("," + line + child, more, rest);
    W.Assoc("," + line, child, more + rest);
    W.Assoc(",", line, child + (more + rest));
  }

  lemma {:induction false} ItemsAre(items: seq<W.Doc>, pretty: bool, level: nat, rest: string)
    requires items != []
    ensures W.RenderItems(items, pretty, level, false) + rest
         == "," + (W.Break(pretty, level) + (W.Render(items[0], pretty, level)
                                             + (W.RenderItems(items[1..], pretty, level, false) + rest)))
  {
    NextIs(W.Break(pretty, level), W.Render(items[0], pretty, level), W.RenderItems(items[1..], pretty, level, false),
           rest);
  }

  lemma {:induction false} MembersAre(members: seq<W.Member>, pretty: bool, level: nat, rest: string)
    requires members != []
    ensures W.RenderMembers(members, pretty, level, false) + rest
         == "," + (W.Break(pretty, level) + (Pair(members[0], pretty, level)
                                             + (W.RenderMembers(members[1..], pretty, level, false) + rest)))
  {
    var m := members[0];
    W.Assoc("," + W.Break(pretty, level), W.KeyText(m.key, pretty), W.Render(m.value, pretty, level));
    NextIs(W.Break(pretty, level), Pair(m, pretty, level), W.RenderMembers(members[1..], pretty, level, false), rest);
  }

  /** No value starts with a closing bracket. */
  lemma {:induction false} Starts(d: W.Doc, level: nat)
    ensures W.Render(d, false, level) != "" && !Closes(W.Render(d, false, level)[0])
  {
    match d
    case Array(items) => if items != [] { ArrayIs(items, false, level); }
    case Object(members) => if members != [] { ObjectIs(members, false, level); }
    case _ =>
  }

  // --- Scalars ------------------------------------------------------------------------------------------

  lemma {:induction false} NumberPlain(n: int)
    ensures forall c <- IntText(n) :: Plain(c)
  {
    var digits := NatText(if n < 0 then -n else n);
    NatTextDigits(if n < 0 then -n else n);
    forall c | c in digits ensures Plain(c) {
      var i :| 0 <= i < |digits| && digits[i] == c;
      assert IsDigit(digits[i]);
    }
  }

  lemma {:induction false} Quoted(text: string, rest: string, depth: nat)
    ensures var q := "\"" + W.Escape(text) + "\"";
            Spread(q + rest, depth) == q + Spread(rest, depth) && Squeeze(q + rest) == q + Squeeze(rest)
  {
    var e := W.Escape(text);
    CopiedEscape(text, "\"" + rest, depth);
    QuotedText(e, rest, depth);
  }

  lemma {:induction false} QuotedText(e: string, rest: string, depth: nat)
    requires Copied(e, "\"" + rest, depth)
    ensures var q := "\"" + e + "\"";
            Spread(q + rest, depth) == q + Spread(rest, depth) && Squeeze(q + rest) == q + Squeeze(rest)
  {
    QuoteThen(e, rest);
    QuoteThen(e, Spread(rest, depth));
    QuoteThen(e, Squeeze(rest));
    assert ("\"" + rest)[1..] == rest && ("\"" + (e + ("\"" + rest)))[1..] == e + ("\"" + rest);
  }

  lemma {:induction false} QuoteThen(e: string, rest: string)
    ensures "\"" + e + "\"" + rest == "\"" + (e + ("\"" + rest))
  {
    W.Assoc("\"" + e, "\"", rest);
    W.Assoc("\"", e, "\"" + rest);
  }

  lemma {:induction false} EmptyPair(s: string, rest: string, depth: nat)
    requires s == "[]" || s == "{}"
    ensures Spread(s + rest, depth) == s + Spread(rest, depth) && Squeeze(s + rest) == s + Squeeze(rest)
  {
    assert (s + rest)[..2] == s && (s + rest)[2..] == rest && (s + rest)[1..] == [s[1]] + rest;
    assert ([s[1]] + rest)[1..] == rest;
    assert [s[0]] + ([s[1]] + Squeeze(rest)) == s + Squeeze(rest);
  }

  ghost predicate NoChildren(d: W.Doc) { (d.Array? ==> d.items == []) && (d.Object? ==> d.members == []) }

  /** A value without children is laid out in one way. */
  lemma {:induction false} Childless(d: W.Doc, level: nat, rest: string, depth: nat)
    requires NoChildren(d)
    ensures var s := W.Render(d, false, level);
            && W.Render(d, true, level) == s && Spread(s + rest, depth) == s + Spread(rest, depth)
            && Squeeze(s + rest) == s + Squeeze(rest)
  {
    match d
    case Text(text) => Quoted(text, rest, depth);
    case Array(_) => EmptyPair("[]", rest, depth);
    case Object(_) => EmptyPair("{}", rest, depth);
    case _ =>
      BareIsPlain(d);
      Word(Bare(d), rest, depth);
  }

  /** The text of a literal or a number. */
  function Bare(d: W.Doc): string {
    match d
    case Boolean(flag) => if flag then "true" else "false"
    case Integer(number) => IntText(number)
    case _ => "null"
  }

  lemma {:induction false} BareIsPlain(d: W.Doc)
    ensures forall c <- Bare(d) :: Plain(c)
  {
    if d.Integer? { NumberPlain(d.number); }
  }

  // --- The pretty text is the compact text spread out ----------------------------------------------------

  lemma {:induction false} OpenSpread(c: char, s: string, depth: nat)
    requires Opens(c) && s != "" && !Closes(s[0])
    ensures Spread([c] + s, depth) == [c] + (Line(depth + 1) + Spread(s, depth + 1))
  {
    assert ([c] + s)[1..] == s;
  }

  lemma {:induction false} CloseSpread(c: char, s: string, depth: nat)
    requires Closes(c)
    ensures Spread([c] + s, depth + 1) == Line(depth) + ([c] + Spread(s, depth))
  {
    assert ([c] + s)[1..] == s;
  }

  lemma {:induction false} CommaSpread(s: string, depth: nat)
    ensures Spread("," + s, depth) == "," + (Line(depth) + Spread(s, depth))
  {
    assert ("," + s)[1..] == s;
  }

  lemma {:induction false} BreakIsLine(level: nat)
    ensures W.Break(true, level) == Line(level) && W.Break(false, level) == ""
  {
  }

  lemma {:induction false} HeldSpread(open: char, close: char, first: string, more: string, first2: string,
                                      more2: string, rest: string, depth: nat)
    requires Opens(open) && Closes(close) && first != "" && !Closes(first[0])
    requires var tail := more + ([close] + rest); Spread(first + tail, depth + 1) == first2 + Spread(tail, depth + 1)
    requires var end := [close] + rest; Spread(more + end, depth + 1) == more2 + Spread(end, depth + 1)
    ensures Spread(Held([open], "", first, more, "", [close]) + rest, depth)
         == Held([open], Line(depth + 1), first2, more2, Line(depth), [close]) + Spread(rest, depth)
  {
    var end := [close] + rest;
    var tail := more + end;
    HeldThen([open], "", first, more, "", [close], rest);
    assert "" + end == end && "" + (first + tail) == first + tail;
    OpenSpread(open, first + tail, depth);
    CloseSpread(close, rest, depth);
    HeldThen([open], Line(depth + 1), first2, more2, Line(depth), [close], Spread(rest, depth));
  }

  /** At any nesting, and whatever follows. */
  lemma {:induction false} RenderSpread(d: W.Doc, depth: nat, rest: string)
    ensures Spread(W.Render(d, false, depth) + rest, depth) == W.Render(d, true, depth) + Spread(rest, depth)
    decreases d, 0
  {
    if NoChildren(d) {
      Childless(d, depth, rest, depth);
    } else if d.Array? {
      ArraySpread(d.items, depth, rest);
    } else {
      ObjectSpread(d.members, depth, rest);
    }
  }

  lemma {:induction false} ArraySpread(items: seq<W.Doc>, depth: nat, rest: string)
    requires items != []
    ensures Spread(W.Render(W.Array(items), false, depth) + rest, depth)
         == W.Render(W.Array(items), true, depth) + Spread(rest, depth)
    decreases items, 1
  {
    var first, more := W.Render(items[0], false, depth + 1), W.RenderItems(items[1..], false, depth + 1, false);
    RenderSpread(items[0], depth + 1, more + ("]" + rest));
    ItemsSpread(items[1..], depth + 1, "]" + rest);
    Starts(items[0], depth + 1);
    HeldSpread('[', ']', first, more, W.Render(items[0], true, depth + 1),
               W.RenderItems(items[1..], true, depth + 1, false), rest, depth);
    ArrayIs(items, false, depth);
    ArrayIs(items, true, depth);
    BreakIsLine(depth);
    BreakIsLine(depth + 1);
  }

  lemma {:induction false} NextSpread(child: string, more: string, child2: string, more2: string, rest: string,
                                      depth: nat)
    requires Spread(child + (more + rest), depth) == child2 + Spread(more + rest, depth)
    requires Spread(more + rest, depth) == more2 + Spread(rest, depth)
    ensures Spread("," + ("" + (child + (more + rest))), depth)
         == "," + (Line(depth) + (child2 + (more2 + Spread(rest, depth))))
  {
    assert "" + (child + (more + rest)) == child + (more + rest);
    CommaSpread(child + (more + rest), depth);
  }

  lemma {:induction false} ItemsSpread(items: seq<W.Doc>, depth: nat, rest: string)
    ensures Spread(W.RenderItems(items, false, depth, false) + rest, depth)
         == W.RenderItems(items, true, depth, false) + Spread(rest, depth)
    decreases items, 0
  {
    if items == [] {
      assert "" + rest == rest && "" + Spread(rest, depth) == Spread(rest, depth);
    } else {
      var more := W.RenderItems(items[1..], false, depth, false);
      RenderSpread(items[0], depth, more + rest);
      ItemsSpread(items[1..], depth, rest);
      NextSpread(W.Render(items[0], false, depth), more, W.Render(items[0], true, depth),
                 W.RenderItems(items[1..], true, depth, false), rest, depth);
      ItemsAre(items, false, depth, rest);
      ItemsAre(items, true, depth, Spread(rest, depth));
      BreakIsLine(depth);
    }
  }

  lemma {:induction false} ColonSpread(key: string, rest: string, depth: nat)
    ensures Spread(W.KeyText(key, false) + rest, depth) == W.KeyText(key, true) + Spread(rest, depth)
  {
    var q := "\"" + W.Escape(key) + "\"";
    KeyIs(key, false);
    KeyIs(key, true);
    W.Assoc(q, ":", rest);
    W.Assoc(q, ": ", Spread(rest, depth));
    Quoted(key, ":" + rest, depth);
    assert (":" + rest)[1..] == rest;
  }

  lemma {:induction false} KeyIs(key: string, pretty: bool)
    ensures W.KeyText(key, pretty) == "\"" + W.Escape(key) + "\"" + if pretty then ": " else ":"
  {
    W.Assoc("\"" + W.Escape(key), "\"", if pretty then ": " else ":");
    assert ":" + " " == ": " && ":" + "" == ":";
  }

  lemma {:induction false} PairSpread(m: W.Member, depth: nat, rest: string)
    ensures Spread(Pair(m, false, depth) + rest, depth) == Pair(m, true, depth) + Spread(rest, depth)
    decreases m
  {
    var k, v := W.KeyText(m.key, false), W.Render(m.value, false, depth);
    W.Assoc(k, v, rest);
    ColonSpread(m.key, v + rest, depth);
    RenderSpread(m.value, depth, rest);
    W.Assoc(W.KeyText(m.key, true), W.Render(m.value, true, depth), Spread(rest, depth));
  }

  lemma {:induction false} ObjectSpread(members: seq<W.Member>, depth: nat, rest: string)
    requires members != []
    ensures Spread(W.Render(W.Object(members), false, depth) + rest, depth)
         == W.Render(W.Object(members), true, depth) + Spread(rest, depth)
    decreases members, 1
  {
    var m := members[0];
    var first, more := Pair(m, false, depth + 1), W.RenderMembers(members[1..], false, depth + 1, false);
    PairSpread(m, depth + 1, more + ("}" + rest));
    MembersSpread(members[1..], depth + 1, "}" + rest);
    HeldSpread('{', '}', first, more, Pair(m, true, depth + 1), W.RenderMembers(members[1..], true, depth + 1, false),
               rest, depth);
    ObjectIs(members, false, depth);
    ObjectIs(members, true, depth);
    BreakIsLine(depth);
    BreakIsLine(depth + 1);
  }

  lemma {:induction false} MembersSpread(members: seq<W.Member>, depth: nat, rest: string)
    ensures Spread(W.RenderMembers(members, false, depth, false) + rest, depth)
         == W.RenderMembers(members, true, depth, false) + Spread(rest, depth)
    decreases members, 0
  {
    if members == [] {
      assert "" + rest == rest && "" + Spread(rest, depth) == Spread(rest, depth);
    } else {
      var m, more := members[0], W.RenderMembers(members[1..], false, depth, false);
      PairSpread(m, depth, more + rest);
      MembersSpread(members[1..], depth, rest);
      NextSpread(Pair(m, false, depth), more, Pair(m, true, depth), W.RenderMembers(members[1..], true, depth, false),
                 rest, depth);
      MembersAre(members, false, depth, rest);
      MembersAre(members, true, depth, Spread(rest, depth));
      BreakIsLine(depth);
    }
  }

  /** The pretty text of a document is its compact text with the lines, indentation and spaces a
      scan of the characters puts in. */
  lemma {:induction false} PrettyIsSpread(d: W.Doc)
    ensures W.Render(d, true, 0) == Spread(W.Render(d, false, 0), 0)
  {
    RenderSpread(d, 0, "");
    assert W.Render(d, false, 0) + "" == W.Render(d, false, 0) && W.Render(d, true, 0) + "" == W.Render(d, true, 0);
  }

  // --- The compact text is either text squeezed -----------------------------------------------------------

  lemma {:induction false} BreakSqueezed(pretty: bool, level: nat, rest: string)
    ensures Squeeze(W.Break(pretty, level) + rest) == Squeeze(rest)
  {
    if pretty {
      W.Assoc("\n", Repeat(' ', 2 * level), rest);
      assert ("\n" + (Repeat(' ', 2 * level) + rest))[1..] == Repeat(' ', 2 * level) + rest;
      BlanksSqueezed(2 * level, rest);
    } else {
      assert "" + rest == rest;
    }
  }

  lemma {:induction false} BlanksSqueezed(n: nat, rest: string)
    ensures Squeeze(Repeat(' ', n) + rest) == Squeeze(rest)
  {
    if n == 0 {
      assert Repeat(' ', 0) + rest == rest;
    } else {
      assert (Repeat(' ', n) + rest)[1..] == Repeat(' ', n - 1) + rest;
      BlanksSqueezed(n - 1, rest);
    }
  }

  lemma {:induction false} KeptSqueezed(c: char, rest: string)
    requires c != '\"' && !White(c)
    ensures Squeeze([c] + rest) == [c] + Squeeze(rest)
  {
    assert ([c] + rest)[1..] == rest;
  }

  lemma {:induction false} HeldSqueezed(open: char, close: char, pretty: bool, depth: nat, first: string, more: string,
                                        first2: string, more2: string, rest: string)
    requires Opens(open) && Closes(close)
    requires var tail := more + (W.Break(pretty, depth) + ([close] + rest));
             Squeeze(first + tail) == first2 + Squeeze(tail)
    requires var end := W.Break(pretty, depth) + ([close] + rest); Squeeze(more + end) == more2 + Squeeze(end)
    ensures Squeeze(Held([open], W.Break(pretty, depth + 1), first, more, W.Break(pretty, depth), [close]) + rest)
         == Held([open], "", first2, more2, "", [close]) + Squeeze(rest)
  {
    var end := W.Break(pretty, depth) + ([close] + rest);
    var tail := more + end;
    HeldThen([open], W.Break(pretty, depth + 1), first, more, W.Break(pretty, depth), [close], rest);
    KeptSqueezed(open, W.Break(pretty, depth + 1) + (first + tail));
    BreakSqueezed(pretty, depth + 1, first + tail);
    BreakSqueezed(pretty, depth, [close] + rest);
    KeptSqueezed(close, rest);
    HeldThen([open], "", first2, more2, "", [close], Squeeze(rest));
    assert "" + ([close] + Squeeze(rest)) == [close] + Squeeze(rest);
    assert "" + (first2 + (more2 + ([close] + Squeeze(rest)))) == first2 + (more2 + ([close] + Squeeze(rest)));
  }

  /** At any nesting, and whatever follows. */
  lemma {:induction false} RenderSqueezed(d: W.Doc, pretty: bool, depth: nat, rest: string)
    ensures Squeeze(W.Render(d, pretty, depth) + rest) == W.Render(d, false, depth) + Squeeze(rest)
    decreases d, 0
  {
    if NoChildren(d) {
      Childless(d, depth, rest, depth);
    } else if d.Array? {
      ArraySqueezed(d.items, pretty, depth, rest);
    } else {
      ObjectSqueezed(d.members, pretty, depth, rest);
    }
  }

  lemma {:induction false} ArraySqueezed(items: seq<W.Doc>, pretty: bool, depth: nat, rest: string)
    requires items != []
    ensures Squeeze(W.Render(W.Array(items), pretty, depth) + rest)
         == W.Render(W.Array(items), false, depth) + Squeeze(rest)
    decreases items, 1
  {
    var first, more := W.Render(items[0], pretty, depth + 1), W.RenderItems(items[1..], pretty, depth + 1, false);
    var end := W.Break(pretty, depth) + ("]" + rest);
    RenderSqueezed(items[0], pretty, depth + 1, more + end);
    ItemsSqueezed(items[1..], pretty, depth + 1, end);
    HeldSqueezed('[', ']', pretty, depth, first, more, W.Render(items[0], false, depth + 1),
                 W.RenderItems(items[1..], false, depth + 1, false), rest);
    ArrayIs(items, false, depth);
    ArrayIs(items, pretty, depth);
    BreakIsLine(depth);
    BreakIsLine(depth + 1);
  }

  lemma {:induction false} NextSqueezed(pretty: bool, child: string, more: string, child2: string, more2: string,
                                        rest: string, depth: nat)
    requires Squeeze(child + (more + rest)) == child2 + Squeeze(more + rest)
    requires Squeeze(more + rest) == more2 + Squeeze(rest)
    ensures Squeeze("," + (W.Break(pretty, depth) + (child + (more + rest))))
         == "," + ("" + (child2 + (more2 + Squeeze(rest))))
  {
    KeptSqueezed(',', W.Break(pretty, depth) + (child + (more + rest)));
    BreakSqueezed(pretty, depth, child + (more + rest));
    assert "" + (child2 + (more2 + Squeeze(rest))) == child2 + (more2 + Squeeze(rest));
  }

  lemma {:induction false} ItemsSqueezed(items: seq<W.Doc>, pretty: bool, depth: nat, rest: string)
    ensures Squeeze(W.RenderItems(items, pretty, depth, false) + rest)
         == W.RenderItems(items, false, depth, false) + Squeeze(rest)
    decreases items, 0
  {
    if items == [] {
      assert "" + rest == rest && "" + Squeeze(rest) == Squeeze(rest);
    } else {
      var more := W.RenderItems(items[1..], pretty, depth, false);
      RenderSqueezed(items[0], pretty, depth, more + rest);
      ItemsSqueezed(items[1..], pretty, depth, rest);
      NextSqueezed(pretty, W.Render(items[0], pretty, depth), more, W.Render(items[0], false, depth),
                   W.RenderItems(items[1..], false, depth, false), rest, depth);
      ItemsAre(items, pretty, depth, rest);
      ItemsAre(items, false, depth, Squeeze(rest));
      BreakIsLine(depth);
    }
  }

  lemma {:induction false} ColonSqueezed(key: string, pretty: bool, rest: string)
    ensures Squeeze(W.KeyText(key, pretty) + rest) == W.KeyText(key, false) + Squeeze(rest)
  {
    var q, colon := "\"" + W.Escape(key) + "\"", if pretty then ": " else ":";
    KeyIs(key, false);
    KeyIs(key, pretty);
    W.Assoc(q, colon, rest);
    W.Assoc(q, ":", Squeeze(rest));
    Quoted(key, colon + rest, 0);
    assert (colon + rest)[1..] == (if pretty then " " else "") + rest;
    assert "" + rest == rest && (" " + rest)[1..] == rest;
  }

  lemma {:induction false} PairSqueezed(m: W.Member, pretty: bool, depth: nat, rest: string)
    ensures Squeeze(Pair(m, pretty, depth) + rest) == Pair(m, false, depth) + Squeeze(rest)
    decreases m
  {
    var k, v := W.KeyText(m.key, pretty), W.Render(m.value, pretty, depth);
    W.Assoc(k, v, rest);
    ColonSqueezed(m.key, pretty, v + rest);
    RenderSqueezed(m.value, pretty, depth, rest);
    W.Assoc(W.KeyText(m.key, false), W.Render(m.value, false, depth), Squeeze(rest));
  }

  lemma {:induction false} ObjectSqueezed(members: seq<W.Member>, pretty: bool, depth: nat, rest: string)
    requires members != []
    ensures Squeeze(W.Render(W.Object(members), pretty, depth) + rest)
         == W.Render(W.Object(members), false, depth) + Squeeze(rest)
    decreases members, 1
  {
    var m := members[0];
    var first, more := Pair(m, pretty, depth + 1), W.RenderMembers(members[1..], pretty, depth + 1, false);
    var end := W.Break(pretty, depth) + ("}" + rest);
    PairSqueezed(m, pretty, depth + 1, more + end);
    MembersSqueezed(members[1..], pretty, depth + 1, end);
    HeldSqueezed('{', '}', pretty, depth, first, more, Pair(m, false, depth + 1),
                 W.RenderMembers(members[1..], false, depth + 1, false), rest);
    ObjectIs(members, false, depth);
    ObjectIs(members, pretty, depth);
    BreakIsLine(depth);
    BreakIsLine(depth + 1);
  }

  lemma {:induction false} MembersSqueezed(members: seq<W.Member>, pretty: bool, depth: nat, rest: string)
    ensures Squeeze(W.RenderMembers(members, pretty, depth, false) + rest)
         == W.RenderMembers(members, false, depth, false) + Squeeze(rest)
    decreases members, 0
  {
    if members == [] {
      assert "" + rest == rest && "" + Squeeze(rest) == Squeeze(rest);
    } else {
      var m, more := members[0], W.RenderMembers(members[1..], pretty, depth, false);
      PairSqueezed(m, pretty, depth, more + rest);
      MembersSqueezed(members[1..], pretty, depth, rest);
      NextSqueezed(pretty, Pair(m, pretty, depth), more, Pair(m, false, depth),
                   W.RenderMembers(members[1..], false, depth, false), rest, depth);
      MembersAre(members, pretty, depth, rest);
      MembersAre(members, false, depth, Squeeze(rest));
      BreakIsLine(depth);
    }
  }

  /** The compact text of a document has no white space outside its strings, and is what squeezing
      the pretty text leaves. */
  lemma {:induction false} CompactIsSqueezed(d: W.Doc, pretty: bool)
    ensures Squeeze(W.Render(d, pretty, 0)) == W.Render(d, false, 0)
  {
    RenderSqueezed(d, pretty, 0, "");
    assert W.Render(d, pretty, 0) + "" == W.Render(d, pretty, 0);
    assert W.Render(d, false, 0) + Squeeze("") == W.Render(d, false, 0);
  }
}
