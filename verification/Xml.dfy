/** The XML element reader and its inverse: whatever tree is serialised, the reader gives it
    back. */
module Xml {
  import opened Text

  datatype Attribute = Attribute(name: string, value: string)

  datatype Node = Node(name: string, attributes: seq<Attribute>, text: string, children: seq<Node>)

  datatype Problem =
    | ExpectedOpen
    | ExpectedElementName
    | UnterminatedStartTag
    | ExpectedAttributeName
    | ExpectedEquals
    | ExpectedQuote
    | UnterminatedAttribute
    | UnterminatedElement
    | MismatchedClose
    | ExpectedClose
    | UnterminatedComment
    | UnterminatedCData
    | UnterminatedInstruction
    | UnterminatedDeclaration
    | NoRoot
    | TooDeep

  /** A value and the position after it, or the first failure and where it happened. */
  datatype Parsed<+T> = Ok(value: T, pos: nat) | Fail(problem: Problem, offset: nat)

  const MAX_DEPTH: nat := 64

  predicate IsSpace(c: char) { c == ' ' || c == '\t' || c == '\r' || c == '\n' }

  predicate IsNameStart(c: char) { 'a' <= c <= 'z' || 'A' <= c <= 'Z' || c == '_' || c == ':' }

  predicate IsNameChar(c: char) { IsNameStart(c) || IsDigit(c) || c == '-' || c == '.' }

  /** The classes by the codes of their characters. */
  lemma {:induction false} ClassesTell(c: char)
    ensures IsSpace(c) <==> c as int in {9, 10, 13, 32}
    ensures IsNameStart(c) <==> 65 <= c as int <= 90 || 97 <= c as int <= 122 || c as int in {58, 95}
    ensures IsNameChar(c) <==> IsNameStart(c) || 48 <= c as int <= 57 || c as int in {45, 46}
  {
  }

  // --- ENTITIES -----------------------------------------------------------------------------

  /** The first `c` at or after `p`, or the length of the text. */
  function FindChar(s: string, p: nat, c: char): (q: nat)
    requires p <= |s|
    ensures p <= q <= |s| && (q < |s| ==> s[q] == c)
    decreases |s| - p
  {
    if p == |s| || s[p] == c then p else FindChar(s, p + 1, c)
  }

  const LAST_CODE_POINT: nat := 0x10FFFF

  /** Digits of a character reference; `None` once the number has run past the last code
      point before the final digit, or at a character that is no digit. */
  function CodePoint(digits: string, hex: bool): Option<nat> {
    if digits == "" then Some(0) else
    var n := |digits| - 1;
    var high := CodePoint(digits[..n], hex);
    var value := HexValue(digits[n]);
    if high.None? || value < 0 || (!hex && value > 9) || high.value > LAST_CODE_POINT then None
    else Some(high.value * (if hex then 16 else 10) + value)
  }

  /** The octets of a code point: a marked lead octet and `n` of six bits each. */
  function Octets(mark: nat, code: nat, n: nat): string
    requires mark <= 0xF0
  {
    if n == 0 then [(mark + code % 64) as char] else Octets(mark, code / 64, n - 1) + [(0x80 + code % 64) as char]
  }

  function Utf8(code: nat): string
    requires code <= LAST_CODE_POINT
  {
    if code < 0x80 then [code as char]
    else if code < 0x800 then Octets(0xC0, code, 1)
    else if code < 0x1_0000 then Octets(0xE0, code, 2)
    else Octets(0xF0, code, 3)
  }

  const ENTITIES := [("lt", '<'), ("gt", '>'), ("amp", '&'), ("quot", '\"'), ("apos", '\'')]

  function LookUp(table: seq<(string, char)>, name: string): Option<char> {
    if table == [] then None
    else if table[0].0 == name then Some(table[0].1)
    else LookUp(table[1..], name)
  }

  /** `#` and decimal digits, or `#x` and hexadecimal ones. */
  function Reference(name: string): Option<string> {
    if |name| < 2 || name[0] != '#' then None else
    var hex := name[1] == 'x' || name[1] == 'X';
    var digits := name[if hex then 2 else 1..];
    var code := CodePoint(digits, hex);
    if digits == "" || code.None? || code.value > LAST_CODE_POINT then None else Some(Utf8(code.value))
  }

  /** What the name between `&` and `;` stands for. */
  function Entity(name: string): Option<string> {
    var known := LookUp(ENTITIES, name);
    if known.Some? then Some([known.value]) else Reference(name)
  }

  /** The text from `p` on with its entities replaced; what is no entity stays as it is. */
  function DecodeEntities(s: string, p: nat): string
    requires p <= |s|
    decreases |s| - p
  {
    if p == |s| then ""
    else if s[p] != '&' then [s[p]] + DecodeEntities(s, p + 1)
    else
      var end := FindChar(s, p + 1, ';');
      var meaning := if end == |s| || end - p > 12 then None else Entity(s[p + 1..end]);
      if meaning.None? then [s[p]] + DecodeEntities(s, p + 1) else meaning.value + DecodeEntities(s, end + 1)
  }

  function Decoded(text: string): string { DecodeEntities(text, 0) }

  // --- Pieces of markup --------------------------------------------------------------------------

  predicate CharAt(s: string, p: nat, c: char) { p < |s| && s[p] == c }

  function SkipSpace(s: string, p: nat): (q: nat)
    requires p <= |s|
    ensures p <= q <= |s|
    decreases |s| - p
  {
    if p < |s| && IsSpace(s[p]) then SkipSpace(s, p + 1) else p
  }

  function SkipNameChars(s: string, p: nat): (q: nat)
    requires p <= |s|
    ensures p <= q <= |s|
    decreases |s| - p
  {
    if p < |s| && IsNameChar(s[p]) then SkipNameChars(s, p + 1) else p
  }

  function NameEnd(s: string, p: nat): (q: nat)
    requires p <= |s|
    ensures p <= q <= |s|
  {
    if p < |s| && IsNameStart(s[p]) then SkipNameChars(s, p + 1) else p
  }

  /** The name after its last colon. */
  function StripPrefix(name: string): string {
    if name == "" then "" else
    var n := |name| - 1;
    if name[n] == ':' then "" else StripPrefix(name[..n]) + [name[n]]
  }

  function LocalName(name: string): string { StripPrefix(name) }

  /** Where `w` first occurs at or after `p`. */
  function Find(s: string, p: nat, w: string): (r: Option<nat>)
    requires p <= |s|
    ensures r.Some? ==> p <= r.value && r.value + |w| <= |s|
    decreases |s| - p
  {
    if At(s, p, w) then Some(p) else if p == |s| then None else Find(s, p + 1, w)
  }

  // --- Elements -------------------------------------------------------------------------------------

  /** White space and text in quotes of either kind, its entities replaced. */
  function ParseQuoted(s: string, p: nat): (r: Parsed<string>)
    requires p <= |s|
    ensures r.Ok? ==> p < r.pos <= |s|
  {
    var q := SkipSpace(s, p);
    if !CharAt(s, q, '\"') && !CharAt(s, q, '\'') then Fail(ExpectedQuote, q) else
    var end := FindChar(s, q + 1, s[q]);
    if end == |s| then Fail(UnterminatedAttribute, end) else Ok(Decoded(s[q + 1..end]), end + 1)
  }

  /** One attribute; `p` is at its name. */
  function ParseAttribute(s: string, p: nat): (r: Parsed<Attribute>)
    requires p <= |s|
    ensures r.Ok? ==> p < r.pos <= |s|
  {
    var n := NameEnd(s, p);
    if n == p then Fail(ExpectedAttributeName, p) else
    var e := SkipSpace(s, n);
    if !CharAt(s, e, '=') then Fail(ExpectedEquals, e) else
    var v := ParseQuoted(s, e + 1);
    if v.Fail? then Fail(v.problem, v.offset) else Ok(Attribute(LocalName(s[p..n]), v.value), v.pos)
  }

  /** Attributes up to the end of the start tag, which stays unread. */
  function ParseAttributes(s: string, p: nat, attributes: seq<Attribute>): (r: Parsed<seq<Attribute>>)
    requires p <= |s|
    ensures r.Ok? ==> p <= r.pos && (CharAt(s, r.pos, '>') || At(s, r.pos, "/>"))
    decreases |s| - p
  {
    var q := SkipSpace(s, p);
    if q == |s| then Fail(UnterminatedStartTag, q)
    else if s[q] == '>' || At(s, q, "/>") then Ok(attributes, q)
    else
      var a := ParseAttribute(s, q);
      if a.Fail? then Fail(a.problem, a.offset) else ParseAttributes(s, a.pos, attributes + [a.value])
  }

  /** The closing tag; `p` is after its `</`. */
  function ParseClose(s: string, p: nat, name: string): (r: Parsed<()>)
    requires p <= |s|
    ensures r.Ok? ==> p < r.pos <= |s|
  {
    var n := NameEnd(s, p);
    if LocalName(s[p..n]) != name then Fail(MismatchedClose, n) else
    var q := SkipSpace(s, n);
    if !CharAt(s, q, '>') then Fail(ExpectedClose, q) else Ok((), q + 1)
  }

  function ParseElement(s: string, p: nat, depth: nat): (r: Parsed<Node>)
    requires p <= |s|
    ensures r.Ok? ==> p < r.pos <= |s|
    decreases |s| - p, 0
  {
    if !CharAt(s, p, '<') then Fail(ExpectedOpen, p) else
    var n := NameEnd(s, p + 1);
    if n == p + 1 then Fail(ExpectedElementName, n) else
    var name := LocalName(s[p + 1..n]);
    var a := ParseAttributes(s, n, []);
    if a.Fail? then Fail(a.problem, a.offset)
    else if s[a.pos] == '>' then ParseContent(s, a.pos + 1, depth, Node(name, a.value, "", []))
    else
      AtLength(s, a.pos, "/>");
      Ok(Node(name, a.value, "", []), a.pos + 2)
  }

  lemma {:induction false} AtLength(s: string, p: nat, w: string)
    requires At(s, p, w)
    ensures p + |w| <= |s|
  {
    AtIndex(s, p, w);
  }

  /** The content of `node`, its text not yet decoded, up to and with its closing tag. */
  function ParseContent(s: string, p: nat, depth: nat, node: Node): (r: Parsed<Node>)
    requires p <= |s|
    ensures r.Ok? ==> p < r.pos <= |s|
    decreases |s| - p, 1
  {
    if p == |s| then Fail(UnterminatedElement, p)
    else if At(s, p, "</") then
      AtLength(s, p, "</");
      var c := ParseClose(s, p + 2, node.name);
      if c.Fail? then Fail(c.problem, c.offset) else Ok(node.(text := Decoded(node.text)), c.pos)
    else if At(s, p, "<!--") then
      var end := Find(s, p, "-->");
      if end.None? then Fail(UnterminatedComment, p) else ParseContent(s, end.value + 3, depth, node)
    else if At(s, p, "<![CDATA[") then
      AtLength(s, p, "<![CDATA[");
      var end := Find(s, p + 9, "]]>");
      if end.None? then Fail(UnterminatedCData, p + 9)
      else ParseContent(s, end.value + 3, depth, node.(text := node.text + s[p + 9..end.value]))
    else if s[p] == '<' then
      if depth >= MAX_DEPTH then Fail(TooDeep, p) else
      var child := ParseElement(s, p, depth + 1);
      if child.Fail? then child
      else ParseContent(s, child.pos, depth, node.(children := node.children + [child.value]))
    else ParseContent(s, p + 1, depth, node.(text := node.text + [s[p]]))
  }

  /** What may precede the root: its end, or the failure. */
  function SkipPrologue(s: string, p: nat): (r: Parsed<()>)
    requires p <= |s|
    ensures r.Ok? ==> r.pos <= |s|
    decreases |s| - p
  {
    var q := SkipSpace(s, p);
    if At(s, q, "<?") then
      var end := Find(s, q, "?>");
      if end.None? then Fail(UnterminatedInstruction, q) else SkipPrologue(s, end.value + 2)
    else if At(s, q, "<!--") then
      var end := Find(s, q, "-->");
      if end.None? then Fail(UnterminatedComment, q) else SkipPrologue(s, end.value + 3)
    else if At(s, q, "<!") then
      var end := FindChar(s, q, '>');
      if end == |s| then Fail(UnterminatedDeclaration, q) else SkipPrologue(s, end + 1)
    else Ok((), q)
  }

  /** The whole reader; what follows the root is not looked at. */
  function Parse(s: string): Parsed<Node> {
    var start := SkipPrologue(s, 0);
    if start.Fail? then Fail(start.problem, start.offset)
    else if !CharAt(s, start.pos, '<') then Fail(NoRoot, start.pos)
    else ParseElement(s, start.pos, 0)
  }

  // --- The reader itself -----------------------------------------------------------------------------

  lemma {:induction false} CodePointPrefix(digits: string, hex: bool, n: nat)
    requires n <= |digits| && CodePoint(digits[..n], hex).None?
    ensures CodePoint(digits, hex).None?
    decreases |digits| - n
  {
    if n < |digits| {
      assert digits[..n + 1][..n] == digits[..n];
      CodePointPrefix(digits, hex, n + 1);
    } else {
      assert digits[..n] == digits;
    }
  }

  method DoCodePoint(digits: string, hex: bool) returns (code: Option<nat>)
    ensures code == CodePoint(digits, hex)
  {
    var sum: nat := 0;
    for i := 0 to |digits|
      invariant CodePoint(digits[..i], hex) == Some(sum)
    {
      var value := HexValue(digits[i]);
      assert digits[..i + 1][..i] == digits[..i] && digits[..i + 1][i] == digits[i];
      if value < 0 || (!hex && value > 9) || sum > LAST_CODE_POINT {
        CodePointPrefix(digits, hex, i + 1);
        return None;
      }
      sum := sum * (if hex then 16 else 10) + value;
    }
    assert digits[..|digits|] == digits;
    return Some(sum);
  }

  method DoEntity(name: string) returns (meaning: Option<string>)
    ensures meaning == Entity(name)
  {
    var known := LookUp(ENTITIES, name);
    if known.Some? { return Some([known.value]); }
    if |name| < 2 || name[0] != '#' { return None; }
    var hex := name[1] == 'x' || name[1] == 'X';
    var digits := name[if hex then 2 else 1..];
    var code := DoCodePoint(digits, hex);
    if digits == "" || code.None? || code.value > LAST_CODE_POINT { return None; }
    return Some(Utf8(code.value));
  }

  ghost function Remaining(s: string, p: nat): string
    requires p <= |s|
  {
    DecodeEntities(s, p)
  }

  /** What the text at `i` is replaced by, and where it goes on. */
  method DoPiece(text: string, i: nat) returns (piece: string, next: nat)
    requires i < |text|
    ensures i < next <= |text| && Remaining(text, i) == piece + Remaining(text, next)
  {
    if text[i] == '&' {
      var end := FindChar(text, i + 1, ';');
      if end < |text| && end - i <= 12 {
        var meaning := DoEntity(text[i + 1..end]);
        if meaning.Some? { return meaning.value, end + 1; }
      }
    }
    return [text[i]], i + 1;
  }

  method DoDecodeEntities(text: string) returns (out: string)
    ensures out == Decoded(text)
  {
    out := "";
    var i := 0;
    while i < |text|
      invariant i <= |text| && out + Remaining(text, i) == Remaining(text, 0)
    {
      var piece, next := DoPiece(text, i);
      assert out + (piece + Remaining(text, next)) == out + piece + Remaining(text, next);
      out, i := out + piece, next;
    }
    assert out + "" == out;
  }

  /** The content reader, under a name that does not unfold by itself. */
  ghost function Content(s: string, p: nat, depth: nat, node: Node): Parsed<Node>
    requires p <= |s|
  {
    ParseContent(s, p, depth, node)
  }

  datatype Failure = Failure(problem: Problem, offset: nat)

  /** What a parsing method reports and leaves behind, when its specification says `r`. */
  ghost predicate Outcome<T>(r: Parsed<T>, ok: bool, out: T, pos: nat, failure: Option<Failure>) {
    match r
    case Ok(value, end) => ok && out == value && pos == end && failure.None?
    case Fail(problem, offset) => !ok && failure == Some(Failure(problem, offset))
  }

  class Parser {
    const text: string
    var pos: nat
    var depth: nat
    var failure: Option<Failure>

    constructor (text: string)
      ensures this.text == text && pos == 0 && depth == 0 && failure == None
    {
      this.text := text;
      pos, depth, failure := 0, 0, None;
    }

    ghost predicate Ready()
      reads this
    {
      pos <= |text| && failure.None?
    }

    /** Keeps the first failure. */
    method FailWith(problem: Problem)
      modifies this`failure
      ensures failure == if old(failure).None? then Some(Failure(problem, pos)) else old(failure)
    {
      if failure.None? { failure := Some(Failure(problem, pos)); }
    }

    method DoSkipSpace()
      requires pos <= |text|
      modifies this`pos
      ensures pos == SkipSpace(text, old(pos))
    {
      while pos < |text| && IsSpace(text[pos])
        invariant pos <= |text| && SkipSpace(text, pos) == SkipSpace(text, old(pos))
      {
        pos := pos + 1;
      }
    }

    method ReadName() returns (name: string)
      requires pos <= |text|
      modifies this`pos
      ensures pos == NameEnd(text, old(pos)) && name == text[old(pos)..pos]
    {
      var start := pos;
      if pos < |text| && IsNameStart(text[pos]) {
        pos := pos + 1;
        while pos < |text| && IsNameChar(text[pos])
          invariant old(pos) < pos <= |text| && SkipNameChars(text, pos) == SkipNameChars(text, old(pos) + 1)
        {
          pos := pos + 1;
        }
      }
      return text[start..pos];
    }

    method SkipComment() returns (ok: bool)
      requires Ready()
      modifies this
      ensures var end := Find(text, old(pos), "-->");
              ok == end.Some? && depth == old(depth) &&
              if ok then pos == end.value + 3 && failure.None?
              else failure == Some(Failure(UnterminatedComment, old(pos)))
    {
      var end := Find(text, pos, "-->");
      if end.None? {
        FailWith(UnterminatedComment);
        return false;
      }
      pos := end.value + 3;
      return true;
    }

    method DoSkipPrologue()
      requires Ready()
      modifies this
      ensures depth == old(depth) && Outcome(SkipPrologue(text, old(pos)), failure.None?, (), pos, failure)
    {
      while true
        invariant Ready() && depth == old(depth) && SkipPrologue(text, pos) == SkipPrologue(text, old(pos))
        decreases |text| - pos
      {
        ghost var start := pos;
        DoSkipSpace();
        if At(text, pos, "<?") {
          var end := Find(text, pos, "?>");
          if end.None? {
            FailWith(UnterminatedInstruction);
            return;
          }
          pos := end.value + 2;
        } else if At(text, pos, "<!--") {
          var ok := SkipComment();
          if !ok { return; }
        } else if At(text, pos, "<!") {
          AtLength(text, pos, "<!");
          var end := FindChar(text, pos, '>');
          if end == |text| {
            FailWith(UnterminatedDeclaration);
            return;
          }
          pos := end + 1;
        } else {
          return;
        }
      }
    }

    method SkipTo(c: char)
      requires pos <= |text|
      modifies this`pos
      ensures pos == FindChar(text, old(pos), c)
    {
      while pos < |text| && text[pos] != c
        invariant pos <= |text| && FindChar(text, pos, c) == FindChar(text, old(pos), c)
      {
        pos := pos + 1;
      }
    }

    method DoAttribute() returns (ok: bool, out: Attribute)
      requires Ready()
      modifies this
      ensures depth == old(depth) && Outcome(ParseAttribute(text, old(pos)), ok, out, pos, failure)
    {
      ok, out := false, Attribute("", "");
      var name := ReadName();
      if name == "" {
        FailWith(ExpectedAttributeName);
        return;
      }
      DoSkipSpace();
      if pos >= |text| || text[pos] != '=' {
        FailWith(ExpectedEquals);
        return;
      }
      pos := pos + 1;
      var value;
      ok, value := DoQuoted();
      out := Attribute(LocalName(name), value);
    }

    method DoQuoted() returns (ok: bool, value: string)
      requires Ready()
      modifies this
      ensures depth == old(depth) && Outcome(ParseQuoted(text, old(pos)), ok, value, pos, failure)
    {
      ok, value := false, "";
      DoSkipSpace();
      if pos >= |text| || (text[pos] != '\"' && text[pos] != '\'') {
        FailWith(ExpectedQuote);
        return;
      }
      var quote := text[pos];
      pos := pos + 1;
      var start := pos;
      SkipTo(quote);
      if pos >= |text| {
        FailWith(UnterminatedAttribute);
        return;
      }
      value := DoDecodeEntities(text[start..pos]);
      pos := pos + 1;
      ok := true;
    }

    method DoAttributes() returns (ok: bool, out: seq<Attribute>)
      requires Ready()
      modifies this
      ensures depth == old(depth) && Outcome(ParseAttributes(text, old(pos), []), ok, out, pos, failure)
    {
      ok, out := true, [];
      while true
        invariant ok && Ready() && depth == old(depth)
        invariant ParseAttributes(text, pos, out) == ParseAttributes(text, old(pos), [])
        decreases |text| - pos
      {
        ghost var start := pos;
        DoSkipSpace();
        if pos >= |text| {
          FailWith(UnterminatedStartTag);
          ok := false;
          return;
        }
        if text[pos] == '>' || At(text, pos, "/>") { return; }
        var attribute;
        ok, attribute := DoAttribute();
        if !ok { return; }
        out := out + [attribute];
      }
    }

    method DoClose(name: string) returns (ok: bool)
      requires Ready()
      modifies this
      ensures depth == old(depth) && Outcome(ParseClose(text, old(pos), name), ok, (), pos, failure)
    {
      ok := false;
      var closing := ReadName();
      if LocalName(closing) != name {
        FailWith(MismatchedClose);
        return;
      }
      DoSkipSpace();
      if pos >= |text| || text[pos] != '>' {
        FailWith(ExpectedClose);
        return;
      }
      pos := pos + 1;
      ok := true;
    }

    method DoElement() returns (ok: bool, node: Node)
      requires Ready()
      modifies this
      ensures depth == old(depth) && Outcome(ParseElement(text, old(pos), old(depth)), ok, node, pos, failure)
      decreases |text| - pos, 0, 0
    {
      ok, node := false, Node("", [], "", []);
      if pos >= |text| || text[pos] != '<' {
        FailWith(ExpectedOpen);
        return;
      }
      pos := pos + 1;
      var name := ReadName();
      if name == "" {
        FailWith(ExpectedElementName);
        return;
      }
      var attributes;
      ok, attributes := DoAttributes();
      if !ok { return; }
      node := Node(LocalName(name), attributes, "", []);
      if At(text, pos, "/>") {
        AtHead(text, pos, "/>");
        pos := pos + 2;
        return;
      }
      pos := pos + 1;
      ok, node := DoContent(node);
    }

    method DoContent(start: Node) returns (ok: bool, node: Node)
      requires Ready()
      modifies this
      ensures depth == old(depth) && Outcome(ParseContent(text, old(pos), old(depth), start), ok, node, pos, failure)
      decreases |text| - pos, 1
    {
      ok, node := false, start;
      while true
        invariant Ready() && depth == old(depth) && old(pos) <= pos
        invariant Content(text, pos, depth, node) == Content(text, old(pos), depth, start)
        decreases |text| - pos
      {
        ok := false;
        if pos >= |text| {
          FailWith(UnterminatedElement);
          return;
        }
        if At(text, pos, "</") {
          ok, node := DoEnd(node);
          return;
        }
        if At(text, pos, "<!--") {
          ok := SkipComment();
          if !ok { return; }
          continue;
        }
        if At(text, pos, "<![CDATA[") {
          ok, node := DoCData(node);
          if !ok { return; }
          continue;
        }
        if text[pos] == '<' {
          ok, node := DoChild(node);
          if !ok { return; }
          continue;
        }
        node := node.(text := node.text + [text[pos]]);
        pos := pos + 1;
      }
    }

    method DoEnd(start: Node) returns (ok: bool, node: Node)
      requires Ready() && At(text, pos, "</")
      modifies this
      ensures depth == old(depth) && Outcome(Content(text, old(pos), old(depth), start), ok, node, pos, failure)
    {
      AtLength(text, pos, "</");
      node := start;
      pos := pos + 2;
      ok := DoClose(node.name);
      if !ok { return; }
      var decoded := DoDecodeEntities(node.text);
      node := node.(text := decoded);
    }

    method DoCData(start: Node) returns (ok: bool, node: Node)
      requires Ready() && At(text, pos, "<![CDATA[") && !At(text, pos, "</") && !At(text, pos, "<!--")
      modifies this
      ensures depth == old(depth)
      ensures if ok then
                old(pos) < pos <= |text| && failure.None?
                && Content(text, old(pos), depth, start) == Content(text, pos, depth, node)
              else failure.Some?
                   && Content(text, old(pos), depth, start) == Fail(failure.value.problem, failure.value.offset)
    {
      AtLength(text, pos, "<![CDATA[");
      ok, node := false, start;
      pos := pos + 9;
      var end := Find(text, pos, "]]>");
      if end.None? {
        FailWith(UnterminatedCData);
        return;
      }
      node := node.(text := node.text + text[pos..end.value]);
      pos := end.value + 3;
      ok := true;
    }

    method DoChild(start: Node) returns (ok: bool, node: Node)
      requires Ready() && pos < |text| && text[pos] == '<'
      requires !At(text, pos, "</") && !At(text, pos, "<!--") && !At(text, pos, "<![CDATA[")
      modifies this
      ensures depth == old(depth)
      ensures if ok then
                old(pos) < pos <= |text| && failure.None?
                && Content(text, old(pos), depth, start) == Content(text, pos, depth, node)
              else failure.Some?
                   && Content(text, old(pos), depth, start) == Fail(failure.value.problem, failure.value.offset)
      decreases |text| - pos, 0, 1
    {
      ok, node := false, start;
      if depth >= MAX_DEPTH {
        FailWith(TooDeep);
        return;
      }
      depth := depth + 1;
      var child;
      ok, child := DoElement();
      depth := depth - 1;
      if !ok { return; }
      node := node.(children := node.children + [child]);
    }

    method Run() returns (result: Parsed<Node>)
      requires pos == 0 && depth == 0 && failure.None?
      modifies this
      ensures result == Parse(text)
    {
      DoSkipPrologue();
      if failure.Some? { return Fail(failure.value.problem, failure.value.offset); }
      if pos >= |text| || text[pos] != '<' { return Fail(NoRoot, pos); }
      var ok, root := DoElement();
      if !ok { return Fail(failure.value.problem, failure.value.offset); }
      return Ok(root, pos);
    }
  }

  method ParseText(text: string) returns (result: Parsed<Node>)
    ensures result == Parse(text)
  {
    var parser := new Parser(text);
    result := parser.Run();
  }
}
