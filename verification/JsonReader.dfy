/** The recursive-descent JSON reader: a total function from any text to a value or to
    the first error, and the cursor-moving parser that computes it. */
module JsonReader {
  import opened Text

  /** A number keeps its lexeme: what `strtod` makes of it is not modelled here. */
  datatype Value =
    | Null
    | Boolean(flag: bool)
    | Number(lexeme: string)
    | String(text: string)
    | Array(items: seq<Value>)
    | Object(members: map<string, Value>)

  /** Why a text is refused. */
  datatype Problem =
    | TooDeep
    | UnexpectedEnd
    | ExpectedValue
    | EmptyExponent
    | ExpectedTrue
    | ExpectedFalse
    | ExpectedNull
    | UnterminatedString
    | UnterminatedEscape
    | TruncatedUnicode
    | BadHexDigit
    | UnknownEscape
    | UnterminatedArray
    | ExpectedItemEnd
    | UnterminatedObject
    | ExpectedKey
    | ExpectedColon
    | ExpectedMemberEnd

  function ProblemText(problem: Problem): string {
    match problem
    case TooDeep => "nesting is too deep"
    case UnexpectedEnd => "unexpected end of input"
    case UnterminatedString => "unterminated string"
    case UnterminatedEscape => "unterminated escape"
    case TruncatedUnicode => "truncated \\u escape"
    case BadHexDigit => "bad hex digit in \\u escape"
    case UnknownEscape => "unknown escape"
    case ExpectedValue => "expected a value"
    case EmptyExponent => "exponent has no digits"
    case UnterminatedArray => "unterminated array"
    case ExpectedItemEnd => "expected ',' or ']'"
    case UnterminatedObject => "unterminated object"
    case ExpectedMemberEnd => "expected ',' or '}'"
    case ExpectedKey => "expected a key"
    case ExpectedColon => "expected ':'"
    case ExpectedTrue => "expected 'true'"
    case ExpectedFalse => "expected 'false'"
    case ExpectedNull => "expected 'null'"
  }

  /** A value and the position after it, or the first error and where it was found. */
  datatype Parsed<+T> = Ok(value: T, pos: nat) | Fail(problem: Problem, offset: nat)

  const MAX_DEPTH: nat := 64

  predicate IsSpace(c: char) { c == ' ' || c == '\t' || c == '\n' || c == '\r' }

  function SkipSpace(s: string, p: nat): (q: nat)
    requires p <= |s|
    ensures p <= q <= |s|
    ensures q < |s| ==> !IsSpace(s[q])
    decreases |s| - p
  {
    if p < |s| && IsSpace(s[p]) then SkipSpace(s, p + 1) else p
  }

  predicate CharAt(s: string, p: nat, c: char) { p < |s| && s[p] == c }

  /** The value of a run of hex digits, if they all are. */
  function HexCode(s: string): Option<nat> {
    if s == "" then Some(0) else
    var high := HexCode(s[..|s| - 1]);
    var low := HexValue(s[|s| - 1]);
    if high.None? || low < 0 then None else Some(high.value * 16 + low)
  }

  /** UTF-8 octets of a code point below 0x10000. */
  function Utf8(code: nat): string
    requires code < 0x1_0000
  {
    if code < 0x80 then [code as char]
    else if code < 0x800 then [(0xC0 + code / 64) as char, (0x80 + code % 64) as char]
    else [(0xE0 + code / 4096) as char, (0x80 + code / 64 % 64) as char, (0x80 + code % 64) as char]
  }

  lemma {:induction false} HexCodePrefix(s: string, n: nat)
    requires n <= |s| && HexCode(s[..n]).None?
    ensures HexCode(s).None?
  {
    if n < |s| {
      assert s[..|s| - 1][..n] == s[..n];
      HexCodePrefix(s[..|s| - 1], n);
    } else {
      assert s[..n] == s;
    }
  }

  lemma {:induction false} HexCodeBound(s: string)
    requires HexCode(s).Some?
    ensures HexCode(s).value < Power16(|s|)
  {
    if s != "" { HexCodeBound(s[..|s| - 1]); }
  }

  function Power16(n: nat): nat { if n == 0 then 1 else 16 * Power16(n - 1) }

  lemma {:induction false} FourDigits()
    ensures Power16(4) == 0x1_0000
  {
    assert Power16(2) == 16 * Power16(1);
    assert Power16(3) == 16 * Power16(2);
  }

  /** The character a one-letter escape stands for. */
  function SimpleEscape(c: char): Option<char> {
    match c
    case '\"' => Some('\"')
    case '\\' => Some('\\')
    case '/' => Some('/')
    case 'b' => Some('\U{0008}')
    case 'f' => Some('\U{000C}')
    case 'n' => Some('\n')
    case 'r' => Some('\r')
    case 't' => Some('\t')
    case _ => None
  }

  /** What an escape stands for; `p` is just after its backslash. */
  function EscapeAt(s: string, p: nat): (r: Parsed<string>)
    requires p <= |s|
    ensures r.Ok? ==> p < r.pos <= |s|
  {
    if p == |s| then Fail(UnterminatedEscape, p)
    else if SimpleEscape(s[p]).Some? then Ok([SimpleEscape(s[p]).value], p + 1)
    else if s[p] != 'u' then Fail(UnknownEscape, p)
    else if p + 4 >= |s| then Fail(TruncatedUnicode, p)
    else
      var code := HexCode(s[p + 1..p + 5]);
      if code.None? then Fail(BadHexDigit, p) else
      HexCodeBound(s[p + 1..p + 5]);
      FourDigits();
      Ok(Utf8(code.value), p + 5)
  }

  /** The rest of a string from inside it, `acc` read so far. */
  function StringBody(s: string, p: nat, acc: string): (r: Parsed<string>)
    requires p <= |s|
    ensures r.Ok? ==> p < r.pos <= |s|
    decreases |s| - p
  {
    if p == |s| then Fail(UnterminatedString, p)
    else if s[p] == '\"' then Ok(acc, p + 1)
    else if s[p] != '\\' then StringBody(s, p + 1, acc + [s[p]])
    else
      var e := EscapeAt(s, p + 1);
      if e.Fail? then e else StringBody(s, e.pos, acc + e.value)
  }

  /** A string from after its opening quote. */
  function Quoted(s: string, p: nat): (r: Parsed<string>)
    requires p <= |s|
    ensures r.Ok? ==> p < r.pos <= |s|
  {
    StringBody(s, p, "")
  }

  function SkipSign(s: string, p: nat): (q: nat)
    requires p <= |s|
    ensures p <= q <= |s|
  {
    if CharAt(s, p, '-') || CharAt(s, p, '+') then p + 1 else p
  }

  /** Digits with an optional fraction: where they end, and whether there was a digit. */
  function Mantissa(s: string, p: nat): (r: (nat, bool))
    requires p <= |s|
    ensures p <= r.0 <= |s| && (r.1 ==> p < r.0)
  {
    var whole := SkipDigits(s, p);
    if CharAt(s, whole, '.') then
      var end := SkipDigits(s, whole + 1);
      (end, whole > p || end > whole + 1)
    else (whole, whole > p)
  }

  function ParseNumber(s: string, p: nat): (r: Parsed<Value>)
    requires p <= |s|
    ensures r.Ok? ==> p < r.pos <= |s|
  {
    var (q, digits) := Mantissa(s, SkipSign(s, p));
    if !digits then Fail(ExpectedValue, q)
    else
      var e := Exponent(s, q);
      if e.Fail? then Fail(e.problem, e.offset) else Ok(Number(s[p..e.pos]), e.pos)
  }

  /** An optional exponent; its result is where the number ends. */
  function Exponent(s: string, q: nat): (r: Parsed<()>)
    requires q <= |s|
    ensures r.Ok? ==> q <= r.pos <= |s|
  {
    if CharAt(s, q, 'e') || CharAt(s, q, 'E') then
      var e := SkipSign(s, q + 1);
      var end := SkipDigits(s, e);
      if end == e then Fail(EmptyExponent, end) else Ok((), end)
    else Ok((), q)
  }

  function Literal(s: string, p: nat, word: string, value: Value, expected: Problem): (r: Parsed<Value>)
    requires p < |s| && word != ""
    ensures r.Ok? ==> p < r.pos <= |s|
  {
    if At(s, p, word) then Ok(value, p + |word|) else Fail(expected, p)
  }

  function ParseValue(s: string, p: nat, depth: nat): (r: Parsed<Value>)
    requires p <= |s|
    ensures r.Ok? ==> p < r.pos <= |s|
    decreases |s| - p, 3
  {
    if depth > MAX_DEPTH then Fail(TooDeep, p) else
    var q := SkipSpace(s, p);
    if q == |s| then Fail(UnexpectedEnd, q) else ParseToken(s, q, depth)
  }

  /** A value whose first character is at `q`. */
  function ParseToken(s: string, q: nat, depth: nat): (r: Parsed<Value>)
    requires q < |s|
    ensures r.Ok? ==> q < r.pos <= |s|
    decreases |s| - q, 2
  {
    match s[q]
    case '{' => ParseObject(s, q, depth)
    case '[' => ParseArray(s, q, depth)
    case '\"' => ParseString(s, q)
    case 't' => Literal(s, q, "true", Boolean(true), ExpectedTrue)
    case 'f' => Literal(s, q, "false", Boolean(false), ExpectedFalse)
    case 'n' => Literal(s, q, "null", Null, ExpectedNull)
    case _ => ParseNumber(s, q)
  }

  function ParseString(s: string, q: nat): (r: Parsed<Value>)
    requires q < |s|
    ensures r.Ok? ==> q < r.pos <= |s|
  {
    var r := Quoted(s, q + 1);
    if r.Fail? then Fail(r.problem, r.offset) else Ok(String(r.value), r.pos)
  }

  function ParseArray(s: string, p: nat, depth: nat): (r: Parsed<Value>)
    requires p < |s|
    ensures r.Ok? ==> p < r.pos <= |s|
    decreases |s| - p, 1
  {
    var q := SkipSpace(s, p + 1);
    if CharAt(s, q, ']') then Ok(Array([]), q + 1) else ParseItems(s, q, depth, [])
  }

  /** What follows a child: a comma (more children) or the closing bracket. */
  function Separator(s: string, p: nat, close: char, unterminated: Problem, expected: Problem): (r: Parsed<bool>)
    requires p <= |s|
    ensures r.Ok? ==> p < r.pos <= |s|
  {
    var q := SkipSpace(s, p);
    if q == |s| then Fail(unterminated, q)
    else if s[q] == ',' then Ok(true, q + 1)
    else if s[q] == close then Ok(false, q + 1)
    else Fail(expected, q)
  }

  /** Array elements from `p` on, `items` already read. */
  function ParseItems(s: string, p: nat, depth: nat, items: seq<Value>): (r: Parsed<Value>)
    requires p <= |s|
    ensures r.Ok? ==> p < r.pos <= |s|
    decreases |s| - p, 4
  {
    var v := ParseValue(s, p, depth + 1);
    if v.Fail? then v else
    var more := Separator(s, v.pos, ']', UnterminatedArray, ExpectedItemEnd);
    if more.Fail? then Fail(more.problem, more.offset)
    else if more.value then ParseItems(s, more.pos, depth, items + [v.value])
    else Ok(Array(items + [v.value]), more.pos)
  }

  function ParseObject(s: string, p: nat, depth: nat): (r: Parsed<Value>)
    requires p < |s|
    ensures r.Ok? ==> p < r.pos <= |s|
    decreases |s| - p, 1
  {
    var q := SkipSpace(s, p + 1);
    if CharAt(s, q, '}') then Ok(Object(map[]), q + 1) else ParseMembers(s, q, depth, map[])
  }

  /** A key and its colon; the position is the one after the colon. */
  function ParseKey(s: string, p: nat): (r: Parsed<string>)
    requires p <= |s|
    ensures r.Ok? ==> p < r.pos <= |s|
  {
    var k := SkipSpace(s, p);
    if !CharAt(s, k, '\"') then Fail(ExpectedKey, k) else
    var key := Quoted(s, k + 1);
    if key.Fail? then key else
    var c := SkipSpace(s, key.pos);
    if !CharAt(s, c, ':') then Fail(ExpectedColon, c) else Ok(key.value, c + 1)
  }

  /** Object members from `p` on; a repeated key replaces the value it had. */
  function ParseMembers(s: string, p: nat, depth: nat, members: map<string, Value>): (r: Parsed<Value>)
    requires p <= |s|
    ensures r.Ok? ==> p < r.pos <= |s|
    decreases |s| - p, 4
  {
    var key := ParseKey(s, p);
    if key.Fail? then Fail(key.problem, key.offset) else
    var v := ParseValue(s, key.pos, depth + 1);
    if v.Fail? then v else
    var next := members[key.value := v.value];
    var more := Separator(s, v.pos, '}', UnterminatedObject, ExpectedMemberEnd);
    if more.Fail? then Fail(more.problem, more.offset)
    else if more.value then ParseMembers(s, more.pos, depth, next)
    else Ok(Object(next), more.pos)
  }

  datatype ParseResult = Accepted(value: Value) | Rejected(error: string)

  function ErrorText(problem: Problem, offset: nat): string {
    ProblemText(problem) + " at offset " + NatText(offset)
  }

  /** The whole reader: one value, nothing but white space around it. */
  function Parse(s: string): ParseResult {
    var r := ParseValue(s, SkipSpace(s, 0), 0);
    if r.Fail? then Rejected(ErrorText(r.problem, r.offset)) else
    var q := SkipSpace(s, r.pos);
    if q != |s| then Rejected("trailing content after the top-level value, at offset " + NatText(q))
    else Accepted(r.value)
  }

  // --- The parser object ------------------------------------------------------------------

  datatype Failure = Failure(problem: Problem, offset: nat)

  /** What a parsing step has left behind when the specification's result is `r`. */
  ghost predicate Outcome<T>(r: Parsed<T>, ok: bool, out: T, pos: nat, failure: Option<Failure>) {
    match r
    case Ok(value, end) => ok && out == value && pos == end && failure.None?
    case Fail(problem, offset) => !ok && failure == Some(Failure(problem, offset))
  }

  class Parser {
    const text: string
    var pos: nat
    /** The first error; its text is made once, when the parser is done. */
    var failure: Option<Failure>

    constructor (text: string)
      ensures this.text == text && pos == 0 && failure.None?
    {
      this.text := text;
      pos, failure := 0, None;
    }

    ghost predicate Ready()
      reads this
    {
      pos <= |text| && failure.None?
    }

    method FailWith(problem: Problem)
      modifies this`failure
      ensures failure == if old(failure).None? then Some(Failure(problem, pos)) else old(failure)
    {
      if failure.None? { failure := Some(Failure(problem, pos)); }
    }

    method DoSkipSpace()
      requires pos <= |text|
      modifies this`pos
      ensures pos == SkipSpace(text, old(pos))
    {
      while pos < |text| && (text[pos] == ' ' || text[pos] == '\t' || text[pos] == '\n' || text[pos] == '\r')
        invariant pos <= |text|
        invariant SkipSpace(text, pos) == SkipSpace(text, old(pos))
      {
        pos := pos + 1;
      }
    }

    method DoSkipDigits() returns (any: bool)
      requires pos <= |text|
      modifies this`pos
      ensures pos == SkipDigits(text, old(pos)) && any == (pos > old(pos))
    {
      any := false;
      while pos < |text| && '0' <= text[pos] <= '9'
        invariant old(pos) <= pos <= |text| && any == (pos > old(pos))
        invariant SkipDigits(text, pos) == SkipDigits(text, old(pos))
      {
        pos := pos + 1;
        any := true;
      }
    }

    method DoLiteral(word: string) returns (ok: bool)
      requires pos <= |text|
      modifies this`pos
      ensures ok == At(text, old(pos), word)
      ensures pos == if ok then old(pos) + |word| else old(pos)
    {
      if !At(text, pos, word) { return false; }
      pos := pos + |word|;
      return true;
    }

    /** The four hex digits after the `u` the cursor is on. */
    method HexEscape() returns (code: Option<nat>)
      requires pos + 4 < |text|
      ensures code == HexCode(text[pos + 1..pos + 5])
    {
      ghost var hex := text[pos + 1..pos + 5];
      var sum: nat := 0;
      for i := 0 to 4
        invariant HexCode(hex[..i]) == Some(sum)
      {
        var value := HexValue(text[pos + 1 + i]);
        assert hex[..i + 1][..i] == hex[..i] && hex[..i + 1][i] == text[pos + 1 + i];
        if value < 0 {
          HexCodePrefix(hex, i + 1);
          return None;
        }
        sum := sum * 16 + value;
      }
      assert hex[..4] == hex;
      return Some(sum);
    }

    method DoEscape() returns (ok: bool, out: string)
      requires Ready()
      modifies this
      ensures Outcome(EscapeAt(text, old(pos)), ok, out, pos, failure)
    {
      ok, out := false, "";
      if pos >= |text| {
        FailWith(UnterminatedEscape);
        return;
      }
      match text[pos] {
        case '\"' => out := "\"";
        case '\\' => out := "\\";
        case '/' => out := "/";
        case 'b' => out := "\U{0008}";
        case 'f' => out := "\U{000C}";
        case 'n' => out := "\n";
        case 'r' => out := "\r";
        case 't' => out := "\t";
        case 'u' =>
          if pos + 4 >= |text| {
            FailWith(TruncatedUnicode);
            return;
          }
          var code := HexEscape();
          if code.None? {
            FailWith(BadHexDigit);
            return;
          }
          HexCodeBound(text[pos + 1..pos + 5]);
          FourDigits();
          pos := pos + 4;
          out := Utf8(code.value);
        case _ =>
          FailWith(UnknownEscape);
          return;
      }
      pos := pos + 1;
      ok := true;
    }

    method DoString() returns (ok: bool, out: string)
      requires Ready() && pos < |text|
      modifies this
      ensures Outcome(Quoted(text, old(pos) + 1), ok, out, pos, failure)
    {
      pos := pos + 1;
      out := "";
      while pos < |text|
        invariant Ready()
        invariant StringBody(text, pos, out) == Quoted(text, old(pos) + 1)
        decreases |text| - pos
      {
        var c := text[pos];
        if c == '\"' {
          pos := pos + 1;
          return true, out;
        }
        pos := pos + 1;
        if c != '\\' {
          out := out + [c];
          continue;
        }
        var escaped;
        ok, escaped := DoEscape();
        if !ok { return; }
        out := out + escaped;
      }
      FailWith(UnterminatedString);
      return false, out;
    }

    method DoSign()
      requires pos <= |text|
      modifies this`pos
      ensures pos == SkipSign(text, old(pos))
    {
      if pos < |text| && (text[pos] == '-' || text[pos] == '+') { pos := pos + 1; }
    }

    method DoMantissa() returns (anyDigit: bool)
      requires pos <= |text|
      modifies this`pos
      ensures (pos, anyDigit) == Mantissa(text, old(pos))
    {
      anyDigit := DoSkipDigits();
      if pos < |text| && text[pos] == '.' {
        pos := pos + 1;
        var fraction := DoSkipDigits();
        anyDigit := anyDigit || fraction;
      }
    }

    method DoNumber() returns (ok: bool, out: Value)
      requires Ready()
      modifies this
      ensures Outcome(ParseNumber(text, old(pos)), ok, out, pos, failure)
    {
      out := Null;
      var start := pos;
      DoSign();
      var anyDigit := DoMantissa();
      if !anyDigit {
        FailWith(ExpectedValue);
        return false, out;
      }
      ok := DoExponent();
      if ok { out := Number(text[start..pos]); }
    }

    method DoExponent() returns (ok: bool)
      requires Ready()
      modifies this
      ensures Outcome(Exponent(text, old(pos)), ok, (), pos, failure)
    {
      if pos < |text| && (text[pos] == 'e' || text[pos] == 'E') {
        pos := pos + 1;
        DoSign();
        var exponentDigit := DoSkipDigits();
        if !exponentDigit {
          FailWith(EmptyExponent);
          return false;
        }
      }
      return true;
    }

    method DoValue(depth: nat) returns (ok: bool, out: Value)
      requires Ready()
      modifies this
      ensures Outcome(ParseValue(text, old(pos), depth), ok, out, pos, failure)
      decreases |text| - pos, 2
    {
      out := Null;
      if depth > MAX_DEPTH {
        FailWith(TooDeep);
        return false, out;
      }
      DoSkipSpace();
      if pos >= |text| {
        FailWith(UnexpectedEnd);
        return false, out;
      }
      assert ParseValue(text, old(pos), depth) == ParseToken(text, pos, depth);
      match text[pos] {
        case '{' => ok, out := DoObject(depth);
        case '[' => ok, out := DoArray(depth);
        case '\"' =>
          var str;
          ok, str := DoString();
          out := String(str);
        case 't' =>
          ok := DoLiteral("true");
          if !ok { FailWith(ExpectedTrue); }
          out := Boolean(true);
        case 'f' =>
          ok := DoLiteral("false");
          if !ok { FailWith(ExpectedFalse); }
          out := Boolean(false);
        case 'n' =>
          ok := DoLiteral("null");
          if !ok { FailWith(ExpectedNull); }
        case _ => ok, out := DoNumber();
      }
    }

    method DoSeparator(close: char, unterminated: Problem, expected: Problem) returns (ok: bool, more: bool)
      requires Ready()
      modifies this
      ensures Outcome(Separator(text, old(pos), close, unterminated, expected), ok, more, pos, failure)
    {
      DoSkipSpace();
      if pos >= |text| {
        FailWith(unterminated);
        return false, false;
      }
      if text[pos] == ',' {
        pos := pos + 1;
        return true, true;
      }
      if text[pos] == close {
        pos := pos + 1;
        return true, false;
      }
      FailWith(expected);
      return false, false;
    }

    method DoArray(depth: nat) returns (ok: bool, out: Value)
      requires Ready() && pos < |text|
      modifies this
      ensures Outcome(ParseArray(text, old(pos), depth), ok, out, pos, failure)
      decreases |text| - pos, 1
    {
      ok, out := false, Null;
      pos := pos + 1;
      var items: seq<Value> := [];
      DoSkipSpace();
      if pos < |text| && text[pos] == ']' {
        pos := pos + 1;
        return true, Array(items);
      }
      while true
        invariant Ready() && pos > old(pos)
        invariant ParseItems(text, pos, depth, items) == ParseArray(text, old(pos), depth)
        decreases |text| - pos
      {
        var value;
        ok, value := DoValue(depth + 1);
        if !ok { return; }
        items := items + [value];
        var more;
        ok, more := DoSeparator(']', UnterminatedArray, ExpectedItemEnd);
        if !ok { return; }
        if !more { return true, Array(items); }
      }
    }

    method DoKey() returns (ok: bool, key: string)
      requires Ready()
      modifies this
      ensures Outcome(ParseKey(text, old(pos)), ok, key, pos, failure)
    {
      key := "";
      DoSkipSpace();
      if pos >= |text| || text[pos] != '\"' {
        FailWith(ExpectedKey);
        return false, key;
      }
      ok, key := DoString();
      if !ok { return; }
      DoSkipSpace();
      if pos >= |text| || text[pos] != ':' {
        FailWith(ExpectedColon);
        return false, key;
      }
      pos := pos + 1;
    }

    method DoObject(depth: nat) returns (ok: bool, out: Value)
      requires Ready() && pos < |text|
      modifies this
      ensures Outcome(ParseObject(text, old(pos), depth), ok, out, pos, failure)
      decreases |text| - pos, 1
    {
      ok, out := false, Null;
      pos := pos + 1;
      var members: map<string, Value> := map[];
      DoSkipSpace();
      if pos < |text| && text[pos] == '}' {
        pos := pos + 1;
        return true, Object(members);
      }
      while true
        invariant Ready() && pos > old(pos)
        invariant ParseMembers(text, pos, depth, members) == ParseObject(text, old(pos), depth)
        decreases |text| - pos
      {
        var key;
        ok, key := DoKey();
        if !ok { return; }
        var value;
        ok, value := DoValue(depth + 1);
        if !ok { return; }
        members := members[key := value];
        var more;
        ok, more := DoSeparator('}', UnterminatedObject, ExpectedMemberEnd);
        if !ok { return; }
        if !more { return true, Object(members); }
      }
    }

    method Run() returns (result: ParseResult)
      requires pos == 0 && failure.None?
      modifies this
      ensures result == Parse(text)
    {
      DoSkipSpace();
      var ok, value := DoValue(0);
      if !ok {
        return Rejected(if failure.None? then "malformed JSON"
            else ErrorText(failure.value.problem, failure.value.offset));
      }
      DoSkipSpace();
      if pos != |text| {
        return Rejected("trailing content after the top-level value, at offset " + NatText(pos));
      }
      return Accepted(value);
    }
  }

  method ParseText(text: string) returns (result: ParseResult)
    ensures result == Parse(text)
  {
    var parser := new Parser(text);
    result := parser.Run();
  }
}
