/** The texts the JSON reader accepts: a grammar of values with white space between their parts,
    strings spelled with any escapes and numbers of every shape, and the theorem that the reader
    accepts exactly these texts, as far as they are not nested too deeply, and gives what they
    mean. */
module JsonGrammar {
  import opened Text
  import R = JsonReader

  // --- Values as they are written (RFC 8259) ------------------------------------------------------

  /** One character of a string: as it is, by a letter, or by four hexadecimal digits. */
  datatype Piece = Itself(c: char) | Letter(letter: char) | Unicode(digits: string)

  datatype Exponent = Exponent(mark: char, sign: string, digits: string)

  /** A number: a sign, digits, a fraction and an exponent, each perhaps missing. */
  datatype Numeral = Numeral(sign: string, whole: string, fraction: Option<string>, exponent: Option<Exponent>)

  datatype Form =
    | Null
    | Boolean(flag: bool)
    | Number(numeral: Numeral)
    | Text(pieces: seq<Piece>)
    | Array(items: seq<Form>)
    | Object(members: seq<Member>)

  datatype Member = Member(key: seq<Piece>, value: Form)

  /** What the letter after a backslash stands for. */
  function Meant(letter: char): Option<char> {
    if letter == '\"' || letter == '\\' || letter == '/' then Some(letter)
    else if letter == 'b' then Some(8 as char)
    else if letter == 't' then Some(9 as char)
    else if letter == 'n' then Some(10 as char)
    else if letter == 'f' then Some(12 as char)
    else if letter == 'r' then Some(13 as char)
    else None
  }

  function SpellOne(piece: Piece): string {
    match piece
    case Itself(c) => [c]
    case Letter(letter) => ['\\', letter]
    case Unicode(digits) => ['\\', 'u'] + digits
  }

  function Spell(pieces: seq<Piece>): string {
    if pieces == [] then "" else SpellOne(pieces[0]) + Spell(pieces[1..])
  }

  /** The number four hexadecimal digits denote. */
  function FourHex(digits: string): nat
    requires |digits| == 4 && forall i | 0 <= i < 4 :: HexValue(digits[i]) >= 0
  {
    HexValue(digits[0]) * 0x1000 + HexValue(digits[1]) * 0x100 + HexValue(digits[2]) * 0x10 + HexValue(digits[3])
  }

  predicate ProperPiece(piece: Piece) {
    match piece
    case Itself(c) => c != '\"' && c != '\\'
    case Letter(letter) => Meant(letter).Some?
    case Unicode(digits) => |digits| == 4 && forall i | 0 <= i < 4 :: HexValue(digits[i]) >= 0
  }

  predicate ProperPieces(pieces: seq<Piece>) {
    pieces == [] || (ProperPiece(pieces[0]) && ProperPieces(pieces[1..]))
  }

  lemma {:induction false} FourHexBound(digits: string)
    requires |digits| == 4 && forall i | 0 <= i < 4 :: HexValue(digits[i]) >= 0
    ensures FourHex(digits) < 0x1_0000
  {
    assert forall i | 0 <= i < 4 :: HexValue(digits[i]) < 16;
  }

  function MeanOne(piece: Piece): string
    requires ProperPiece(piece)
  {
    match piece
    case Itself(c) => [c]
    case Letter(letter) => [Meant(letter).value]
    case Unicode(digits) =>
      FourHexBound(digits);
      R.Utf8(FourHex(digits))
  }

  function Mean(pieces: seq<Piece>): string
    requires ProperPieces(pieces)
  {
    if pieces == [] then "" else MeanOne(pieces[0]) + Mean(pieces[1..])
  }

  /** A code of four digits is read back from the octets it stands for. */
  lemma {:induction false} Utf8ReadsBack(code: nat)
    requires code < 0x1_0000
    ensures FromUtf8(R.Utf8(code)) == Some(code)
  {
  }

  predicate IsSign(sign: string) { sign == "" || sign == "-" || sign == "+" }

  predicate ProperNumeral(n: Numeral) {
    && IsSign(n.sign) && AllDigits(n.whole) && ProperFraction(n.fraction) && ProperExponent(n.exponent)
    && (n.whole != "" || (n.fraction.Some? && n.fraction.value != ""))
  }

  predicate ProperFraction(fraction: Option<string>) { fraction.Some? ==> AllDigits(fraction.value) }

  predicate ProperExponent(exponent: Option<Exponent>) {
    exponent.Some? ==>
      var e := exponent.value;
      (e.mark == 'e' || e.mark == 'E') && IsSign(e.sign) && e.digits != "" && AllDigits(e.digits)
  }

  function FractionText(fraction: Option<string>): string { if fraction.None? then "" else "." + fraction.value }

  function ExponentText(exponent: Option<Exponent>): string {
    if exponent.None? then "" else [exponent.value.mark] + (exponent.value.sign + exponent.value.digits)
  }

  function Lexeme(n: Numeral): string { n.sign + (n.whole + (FractionText(n.fraction) + ExponentText(n.exponent))) }

  // --- What they mean ---------------------------------------------------------------------------

  predicate Proper(d: Form)
    decreases d, 0
  {
    match d
    case Number(n) => ProperNumeral(n)
    case Text(pieces) => ProperPieces(pieces)
    case Array(items) => AllProper(items)
    case Object(members) => MembersProper(members)
    case _ => true
  }

  predicate AllProper(items: seq<Form>)
    decreases items
  {
    items == [] || (Proper(items[0]) && AllProper(items[1..]))
  }

  predicate MembersProper(members: seq<Member>)
    decreases members
  {
    members == [] || (ProperPieces(members[0].key) && Proper(members[0].value) && MembersProper(members[1..]))
  }

  /** Of two members with one key the later wins. */
  function Denote(d: Form): R.Value
    requires Proper(d)
    decreases d, 0
  {
    match d
    case Null => R.Null
    case Boolean(flag) => R.Boolean(flag)
    case Number(n) => R.Number(Lexeme(n))
    case Text(pieces) => R.String(Mean(pieces))
    case Array(items) => R.Array(DenoteItems(items))
    case Object(members) => R.Object(DenoteMembers(members, map[]))
  }

  function DenoteItems(items: seq<Form>): (r: seq<R.Value>)
    requires AllProper(items)
    ensures |r| == |items|
    decreases items
  {
    if items == [] then [] else [Denote(items[0])] + DenoteItems(items[1..])
  }

  function DenoteMembers(members: seq<Member>, acc: map<string, R.Value>): map<string, R.Value>
    requires MembersProper(members)
    decreases members
  {
    if members == [] then acc else DenoteMembers(members[1..], acc[Mean(members[0].key) := Denote(members[0].value)])
  }

  /** The number of containers around the most deeply nested value. */
  function Depth(d: Form): nat
    decreases d, 0
  {
    match d
    case Array(items) => ItemsDepth(items)
    case Object(members) => MembersDepth(members)
    case _ => 0
  }

  function ItemsDepth(items: seq<Form>): nat
    decreases items
  {
    if items == [] then 0 else Max(1 + Depth(items[0]), ItemsDepth(items[1..]))
  }

  function MembersDepth(members: seq<Member>): nat
    decreases members
  {
    if members == [] then 0 else Max(1 + Depth(members[0].value), MembersDepth(members[1..]))
  }

  function Max(a: nat, b: nat): nat { if a < b then b else a }

  // --- White space ---------------------------------------------------------------------------

  predicate IsWhite(c: char) { c == ' ' || c == '\t' || c == '\n' || c == '\r' }

  /** White space from `p` up to `q`. */
  ghost predicate Gap(s: string, p: nat, q: nat) { p <= q <= |s| && forall i | p <= i < q :: IsWhite(s[i]) }

  lemma {:induction false} SkipSpaceTo(s: string, p: nat, q: nat)
    requires Gap(s, p, q)
    requires q < |s| ==> !IsWhite(s[q])
    ensures R.SkipSpace(s, p) == q
    decreases q - p
  {
    if p < q { SkipSpaceTo(s, p + 1, q); }
  }

  /** Skipping white space skips all of it and nothing else. */
  lemma {:induction false} SkipsWhite(s: string, p: nat)
    requires p <= |s|
    ensures Gap(s, p, R.SkipSpace(s, p)) && (R.SkipSpace(s, p) < |s| ==> !IsWhite(s[R.SkipSpace(s, p)]))
    decreases |s| - p
  {
    if p < |s| && R.IsSpace(s[p]) { SkipsWhite(s, p + 1); }
  }

  lemma {:induction false} CharsAt(s: string, p: nat, w: string)
    requires At(s, p, w)
    ensures |w| > 0 ==> s[p] == w[0]
    ensures |w| > 1 ==> s[p + 1] == w[1]
  {
    AtIndex(s, p, w);
    if |w| > 0 { assert s[p + 0] == w[0]; }
    if |w| > 1 { assert s[p + 1] == w[1]; }
  }

  // --- Strings -------------------------------------------------------------------------------

  /** The rest of a string literal, under a name that does not unfold. */
  ghost function StringRest(s: string, p: nat, acc: string): R.Parsed<string>
    requires p <= |s|
  {
    R.StringBody(s, p, acc)
  }

  lemma {:induction false} FourCode(digits: string)
    requires |digits| == 4
    ensures R.HexCode(digits) == if forall i | 0 <= i < 4 :: HexValue(digits[i]) >= 0 then Some(FourHex(digits))
            else None
  {
    var a, b, c := digits[..3], digits[..2], digits[..1];
    assert a[..2] == b && b[..1] == c && c[..0] == "";
    assert R.HexCode("") == Some(0);
    assert R.HexCode(c) == if HexValue(digits[0]) < 0 then None else Some(HexValue(digits[0]));
    assert R.HexCode(b) == if R.HexCode(c).None? || HexValue(digits[1]) < 0 then None
                           else Some(R.HexCode(c).value * 16 + HexValue(digits[1]));
    assert R.HexCode(a) == if R.HexCode(b).None? || HexValue(digits[2]) < 0 then None
                           else Some(R.HexCode(b).value * 16 + HexValue(digits[2]));
  }

  /** An escape, from its backslash on. */
  lemma {:induction false} EscapeReads(s: string, p: nat, piece: Piece)
    requires ProperPiece(piece) && !piece.Itself? && At(s, p, SpellOne(piece)) && p + |SpellOne(piece)| < |s|
    ensures s[p] == '\\' && R.EscapeAt(s, p + 1) == R.Ok(MeanOne(piece), p + |SpellOne(piece)|)
  {
    var e := SpellOne(piece);
    CharsAt(s, p, e);
    if piece.Unicode? {
      AtSlice(s, p, e);
      assert s[p + 2..p + 6] == s[p..p + 6][2..] == e[2..] == piece.digits;
      FourCode(piece.digits);
    }
  }

  lemma {:induction false} PieceReads(s: string, p: nat, piece: Piece, acc: string)
    requires ProperPiece(piece) && At(s, p, SpellOne(piece)) && p + |SpellOne(piece)| < |s|
    ensures StringRest(s, p, acc) == StringRest(s, p + |SpellOne(piece)|, acc + MeanOne(piece))
  {
    CharsAt(s, p, SpellOne(piece));
    if !piece.Itself? { EscapeReads(s, p, piece); }
  }

  lemma {:induction false} QuoteEnds(s: string, p: nat, acc: string)
    requires R.CharAt(s, p, '\"')
    ensures StringRest(s, p, acc) == R.Ok(acc, p + 1)
  {
  }

  lemma {:induction false} PiecesRead(s: string, p: nat, end: nat, pieces: seq<Piece>, acc: string)
    requires ProperPieces(pieces) && At(s, p, Spell(pieces)) && end == p + |Spell(pieces)| && R.CharAt(s, end, '\"')
    ensures p <= |s| && StringRest(s, p, acc) == R.Ok(acc + Mean(pieces), end + 1)
    decreases |pieces|
  {
    if pieces == [] {
      assert acc + "" == acc;
      QuoteEnds(s, p, acc);
    } else {
      var piece, more := pieces[0], pieces[1..];
      var q := p + |SpellOne(piece)|;
      SpellSplit(s, p, pieces, piece, more, q);
      PieceReads(s, p, piece, acc);
      PiecesRead(s, q, end, more, acc + MeanOne(piece));
      Assoc(acc, MeanOne(piece), Mean(more));
    }
  }

  lemma {:induction false} SpellSplit(s: string, p: nat, pieces: seq<Piece>, piece: Piece, more: seq<Piece>, q: nat)
    requires pieces != [] && ProperPieces(pieces) && At(s, p, Spell(pieces)) && piece == pieces[0]
             && more == pieces[1..]
    requires q == p + |SpellOne(piece)|
    ensures ProperPiece(piece) && ProperPieces(more) && At(s, p, SpellOne(piece)) && At(s, q, Spell(more))
    ensures p + |Spell(pieces)| == q + |Spell(more)| <= |s| && Mean(pieces) == MeanOne(piece) + Mean(more)
  {
    AtConcat(s, p, SpellOne(piece), Spell(more));
    AtIndex(s, p, Spell(pieces));
  }

  lemma {:induction false} Assoc(a: string, b: string, c: string)
    ensures a + b + c == a + (b + c)
  {
  }

  // --- Numbers -------------------------------------------------------------------------------

  /** The numeral does not go on at `q`. */
  ghost predicate Stops(s: string, q: nat, n: Numeral) {
    q < |s| ==>
      && !IsDigit(s[q]) && (n.exponent.None? ==> s[q] != 'e' && s[q] != 'E')
      && (n.exponent.None? && n.fraction.None? ==> s[q] != '.')
  }

  lemma {:induction false} DigitsRead(s: string, p: nat, digits: string, q: nat)
    requires At(s, p, digits) && AllDigits(digits) && q == p + |digits| && (q < |s| ==> !IsDigit(s[q]))
    ensures p <= |s| && SkipDigits(s, p) == q
  {
    AtIndex(s, p, digits);
    forall i | p <= i < q ensures IsDigit(s[i]) { assert s[p + (i - p)] == digits[i - p]; }
    SkipDigitsTo(s, p, q);
  }

  lemma {:induction false} SignReads(s: string, p: nat, sign: string)
    requires IsSign(sign) && At(s, p, sign)
    requires sign == "" && p < |s| ==> s[p] != '-' && s[p] != '+'
    ensures p <= |s| && R.SkipSign(s, p) == p + |sign|
  {
    CharsAt(s, p, sign);
    AtIndex(s, p, sign);
  }

  lemma {:induction false} ExponentReads(s: string, q: nat, n: Numeral, end: nat)
    requires ProperNumeral(n) && At(s, q, ExponentText(n.exponent)) && end == q + |ExponentText(n.exponent)|
    requires Stops(s, end, n)
    ensures q <= |s| && R.Exponent(s, q) == R.Ok((), end)
  {
    if n.exponent.Some? {
      var e := n.exponent.value;
      AtConcat(s, q, [e.mark], e.sign + e.digits);
      AtConcat(s, q + 1, e.sign, e.digits);
      CharsAt(s, q, [e.mark]);
      CharsAt(s, q + 1 + |e.sign|, e.digits);
      SignReads(s, q + 1, e.sign);
      DigitsRead(s, q + 1 + |e.sign|, e.digits, end);
    }
  }

  lemma {:induction false} MantissaReads(s: string, p: nat, n: Numeral, q: nat)
    requires ProperNumeral(n) && At(s, p, n.whole + FractionText(n.fraction))
    requires q == p + |n.whole| + |FractionText(n.fraction)|
    requires q < |s| ==> !IsDigit(s[q]) && (n.fraction.None? ==> s[q] != '.')
    ensures p <= |s| && R.Mantissa(s, p) == (q, true)
  {
    var dot := p + |n.whole|;
    AtConcat(s, p, n.whole, FractionText(n.fraction));
    if n.fraction.Some? {
      AtConcat(s, dot, ".", n.fraction.value);
      CharsAt(s, dot, ".");
      DigitsRead(s, dot + 1, n.fraction.value, q);
    }
    DigitsRead(s, p, n.whole, dot);
  }

  lemma {:induction false} NumberReads(s: string, p: nat, n: Numeral, end: nat)
    requires ProperNumeral(n) && At(s, p, Lexeme(n)) && end == p + |Lexeme(n)| && Stops(s, end, n)
    ensures p <= |s| && R.ParseNumber(s, p) == R.Ok(R.Number(Lexeme(n)), end)
  {
    var start := p + |n.sign|;
    var q := start + |n.whole + FractionText(n.fraction)|;
    LexemeSplit(s, p, n, start, q);
    NumeralParts(s, p, n, start, q);
    SignReads(s, p, n.sign);
    MantissaReads(s, start, n, q);
    ExponentReads(s, q, n, end);
    AtSlice(s, p, Lexeme(n));
    NumberParsed(s, p, start, q, end);
  }

  lemma {:induction false} LexemeSplit(s: string, p: nat, n: Numeral, start: nat, q: nat)
    requires At(s, p, Lexeme(n)) && start == p + |n.sign| && q == start + |n.whole + FractionText(n.fraction)|
    ensures At(s, p, n.sign) && At(s, start, n.whole + FractionText(n.fraction)) && At(s, q, ExponentText(n.exponent))
    ensures p + |Lexeme(n)| == q + |ExponentText(n.exponent)|
  {
    var w, f, x := n.whole, FractionText(n.fraction), ExponentText(n.exponent);
    Assoc(w, f, x);
    AtConcat(s, p, n.sign, (w + f) + x);
    AtConcat(s, start, w + f, x);
  }

  lemma {:induction false} NumberParsed(s: string, p: nat, start: nat, q: nat, end: nat)
    requires p <= |s| && R.SkipSign(s, p) == start && R.Mantissa(s, start) == (q, true)
             && R.Exponent(s, q) == R.Ok((), end)
    ensures p <= end <= |s| && R.ParseNumber(s, p) == R.Ok(R.Number(s[p..end]), end)
  {
  }

  /** What stands where the sign or the exponent might. */
  lemma {:induction false} NumeralParts(s: string, p: nat, n: Numeral, start: nat, q: nat)
    requires ProperNumeral(n) && start == p + |n.sign| && At(s, start, n.whole + FractionText(n.fraction))
    requires q == start + |n.whole + FractionText(n.fraction)| && At(s, q, ExponentText(n.exponent))
    requires Stops(s, q + |ExponentText(n.exponent)|, n)
    ensures start < |s| && s[start] != '-' && s[start] != '+'
    ensures q < |s| ==> !IsDigit(s[q]) && (n.fraction.None? ==> s[q] != '.')
  {
    CharsAt(s, start, n.whole + FractionText(n.fraction));
    CharsAt(s, q, ExponentText(n.exponent));
    if n.whole != "" { assert IsDigit(n.whole[0]); }
  }

  // --- Texts of a value ----------------------------------------------------------------

  ghost function Closed(s: string, p: nat, close: char): (r: Option<nat>)
    requires p <= |s|
    ensures r.Some? ==> p < r.value <= |s|
  {
    var q := R.SkipSpace(s, p);
    if R.CharAt(s, q, close) then Some(q + 1) else None
  }

  /** The position where the next child may start: after a comma unless it is the first. */
  ghost function Next(s: string, p: nat, first: bool): (r: Option<nat>)
    requires p <= |s|
    ensures r.Some? ==> p <= r.value <= |s|
  {
    if first then Some(R.SkipSpace(s, p)) else
    var c := R.SkipSpace(s, p);
    if R.CharAt(s, c, ',') then Some(R.SkipSpace(s, c + 1)) else None
  }

  /** Where the text of `d` that starts at `p` ends, if `s` holds one, with any white space
      between its parts. */
  ghost function Layout(s: string, p: nat, d: Form): (r: Option<nat>)
    requires p <= |s|
    ensures r.Some? ==> p < r.value <= |s| && !IsWhite(s[p]) && s[p] != ']' && s[p] != '}' && Proper(d)
    decreases d, 0
  {
    match d
    case Array(items) =>
      if !R.CharAt(s, p, '[') then None else
      var e := LayoutItems(s, p + 1, items, true);
      if e.None? then None else Closed(s, e.value, ']')
    case Object(members) =>
      if !R.CharAt(s, p, '{') then None else
      var e := LayoutMembers(s, p + 1, members, true);
      if e.None? then None else Closed(s, e.value, '}')
    case _ => ScalarLayout(s, p, d)
  }

  function ScalarText(d: Form): string {
    match d
    case Null => "null"
    case Boolean(flag) => if flag then "true" else "false"
    case Number(n) => Lexeme(n)
    case Text(pieces) => "\"" + (Spell(pieces) + "\"")
    case _ => ""
  }

  ghost function ScalarLayout(s: string, p: nat, d: Form): (r: Option<nat>)
    requires p <= |s| && !d.Array? && !d.Object?
    ensures r.Some? ==> p < r.value <= |s| && !IsWhite(s[p]) && s[p] != ']' && s[p] != '}' && Proper(d)
  {
    var t := ScalarText(d);
    if Proper(d) && At(s, p, t) && (d.Number? ==> Stops(s, p + |t|, d.numeral)) then
      ScalarStarts(s, p, d);
      Some(p + |t|)
    else None
  }

  lemma {:induction false} ScalarStarts(s: string, p: nat, d: Form)
    requires !d.Array? && !d.Object? && Proper(d) && At(s, p, ScalarText(d))
    ensures ScalarText(d) != "" && p + |ScalarText(d)| <= |s| && s[p] == ScalarText(d)[0]
    ensures !IsWhite(s[p]) && s[p] != ']' && s[p] != '}'
  {
    CharsAt(s, p, ScalarText(d));
    AtIndex(s, p, ScalarText(d));
    if d.Number? { NumeralStarts(d.numeral); }
  }

  lemma {:induction false} NumeralStarts(n: Numeral)
    requires ProperNumeral(n)
    ensures Lexeme(n) != ""
    ensures Lexeme(n)[0] == '-' || Lexeme(n)[0] == '+' || Lexeme(n)[0] == '.' || IsDigit(Lexeme(n)[0])
  {
    if n.sign == "" && n.whole != "" { assert Lexeme(n)[0] == n.whole[0]; }
  }

  ghost function LayoutItems(s: string, p: nat, items: seq<Form>, first: bool): (r: Option<nat>)
    requires p <= |s|
    ensures r.Some? ==> p <= r.value <= |s| && AllProper(items)
    decreases items
  {
    if items == [] then Some(p) else
    var v := Next(s, p, first);
    if v.None? then None else
    var q := Layout(s, v.value, items[0]);
    if q.None? then None else LayoutItems(s, q.value, items[1..], false)
  }

  /** A quoted key, a colon and the white space after it. */
  ghost function KeyLayout(s: string, p: nat, key: seq<Piece>): (r: Option<nat>)
    requires p <= |s|
    ensures r.Some? ==> p < r.value <= |s| && ProperPieces(key)
  {
    var e := Spell(key);
    if ProperPieces(key) && R.CharAt(s, p, '\"') && At(s, p + 1, e) && R.CharAt(s, p + 1 + |e|, '\"') then
      var c := R.SkipSpace(s, p + 2 + |e|);
      if R.CharAt(s, c, ':') then Some(R.SkipSpace(s, c + 1)) else None
    else None
  }

  ghost function LayoutMembers(s: string, p: nat, members: seq<Member>, first: bool): (r: Option<nat>)
    requires p <= |s|
    ensures r.Some? ==> p <= r.value <= |s| && MembersProper(members)
    decreases members
  {
    if members == [] then Some(p) else
    var k := Next(s, p, first);
    if k.None? then None else
    var q := LayoutMember(s, k.value, members[0]);
    if q.None? then None else LayoutMembers(s, q.value, members[1..], false)
  }

  ghost function LayoutMember(s: string, p: nat, m: Member): (r: Option<nat>)
    requires p <= |s|
    ensures r.Some? ==> p < r.value <= |s| && ProperPieces(m.key) && Proper(m.value)
    decreases m
  {
    var v := KeyLayout(s, p, m.key);
    if v.None? then None else Layout(s, v.value, m.value)
  }

  // --- Reading a layout ------------------------------------------------------------------------

  /** The reader's result for a document of nesting `deep` met at `depth`. */
  ghost predicate Reads(r: R.Parsed<R.Value>, deep: nat, depth: nat, v: R.Value, end: nat) {
    if depth + deep <= R.MAX_DEPTH then r == R.Ok(v, end) else r.Fail? && r.problem == R.TooDeep
  }

  lemma {:induction false} LiteralReads(s: string, p: nat, word: string, v: R.Value, expected: R.Problem)
    requires word != "" && At(s, p, word)
    ensures p < |s| && R.Literal(s, p, word, v, expected) == R.Ok(v, p + |word|) && s[p] == word[0]
  {
    CharsAt(s, p, word);
  }

  lemma {:induction false} QuotedReads(s: string, p: nat, pieces: seq<Piece>)
    requires ProperPieces(pieces) && R.CharAt(s, p, '\"') && At(s, p + 1, Spell(pieces))
    requires R.CharAt(s, p + 1 + |Spell(pieces)|, '\"')
    ensures R.Quoted(s, p + 1) == R.Ok(Mean(pieces), p + |Spell(pieces)| + 2)
  {
    PiecesRead(s, p + 1, p + 1 + |Spell(pieces)|, pieces, "");
    assert "" + Mean(pieces) == Mean(pieces);
  }

  lemma {:induction false} TextReads(s: string, p: nat, pieces: seq<Piece>)
    requires ProperPieces(pieces) && At(s, p, "\"" + (Spell(pieces) + "\""))
    ensures R.CharAt(s, p, '\"') && R.ParseString(s, p) == R.Ok(R.String(Mean(pieces)), p + |Spell(pieces)| + 2)
  {
    var e := Spell(pieces);
    AtConcat(s, p, "\"", e + "\"");
    AtConcat(s, p + 1, e, "\"");
    CharsAt(s, p, "\"");
    CharsAt(s, p + 1 + |e|, "\"");
    QuotedReads(s, p, pieces);
  }

  lemma {:induction false} NumberToken(s: string, p: nat, n: Numeral, depth: nat)
    requires ProperNumeral(n) && At(s, p, Lexeme(n)) && Stops(s, p + |Lexeme(n)|, n)
    ensures p < |s| && R.ParseToken(s, p, depth) == R.Ok(R.Number(Lexeme(n)), p + |Lexeme(n)|)
  {
    NumeralStarts(n);
    AtHead(s, p, Lexeme(n));
    NumberReads(s, p, n, p + |Lexeme(n)|);
  }

  lemma {:induction false} WordToken(s: string, p: nat, d: Form, depth: nat)
    requires (d.Null? || d.Boolean?) && At(s, p, ScalarText(d))
    ensures p < |s| && R.ParseToken(s, p, depth) == R.Ok(Denote(d), p + |ScalarText(d)|)
  {
    match d
    case Null => LiteralReads(s, p, "null", R.Null, R.ExpectedNull);
    case Boolean(flag) =>
      if flag {
        LiteralReads(s, p, "true", R.Boolean(true), R.ExpectedTrue);
      } else {
        LiteralReads(s, p, "false", R.Boolean(false), R.ExpectedFalse);
      }
  }

  lemma {:induction false} TextToken(s: string, p: nat, pieces: seq<Piece>, depth: nat)
    requires ProperPieces(pieces) && At(s, p, "\"" + (Spell(pieces) + "\""))
    ensures p < |s| && R.ParseToken(s, p, depth) == R.Ok(R.String(Mean(pieces)), p + |Spell(pieces)| + 2)
  {
    TextReads(s, p, pieces);
  }

  lemma {:induction false} ScalarReads(s: string, p: nat, d: Form, depth: nat, end: nat)
    requires !d.Array? && !d.Object? && Proper(d) && At(s, p, ScalarText(d)) && end == p + |ScalarText(d)|
    requires d.Number? ==> Stops(s, end, d.numeral)
    ensures p < |s| && R.ParseToken(s, p, depth) == R.Ok(Denote(d), end)
  {
    match d
    case Number(n) => NumberToken(s, p, n, depth);
    case Text(pieces) => TextToken(s, p, pieces, depth);
    case _ => WordToken(s, p, d, depth);
  }

  lemma {:induction false} ScalarToken(s: string, p: nat, d: Form, depth: nat, end: nat)
    requires p <= |s| && !d.Array? && !d.Object? && Layout(s, p, d) == Some(end) && depth <= R.MAX_DEPTH
    ensures p < |s| && Reads(R.ParseToken(s, p, depth), Depth(d), depth, Denote(d), end)
  {
    ScalarReads(s, p, d, depth, end);
  }

  lemma {:induction false} ArrayToken(s: string, p: nat, d: Form, depth: nat, end: nat)
    requires p <= |s| && d.Array? && Layout(s, p, d) == Some(end) && depth <= R.MAX_DEPTH
    ensures p < |s| && Reads(R.ParseToken(s, p, depth), Depth(d), depth, Denote(d), end)
    decreases d, 0
  {
    ArrayReads(s, p, d.items, depth);
  }

  lemma {:induction false} ObjectToken(s: string, p: nat, d: Form, depth: nat, end: nat)
    requires p <= |s| && d.Object? && Layout(s, p, d) == Some(end) && depth <= R.MAX_DEPTH
    ensures p < |s| && Reads(R.ParseToken(s, p, depth), Depth(d), depth, Denote(d), end)
    decreases d, 0
  {
    ObjectReads(s, p, d.members, depth);
  }

  lemma {:induction false} ValueIsToken(s: string, p: nat, q: nat, depth: nat)
    requires p <= |s| && q == Skip(s, p)
    ensures depth > R.MAX_DEPTH ==> R.ParseValue(s, p, depth) == R.Fail(R.TooDeep, p)
    ensures depth <= R.MAX_DEPTH && q < |s| ==> R.ParseValue(s, p, depth) == R.ParseToken(s, q, depth)
  {
  }

  /** Read from `p`, where `d` is laid out after any white space. */
  lemma {:induction false} ValueReads(s: string, p: nat, d: Form, depth: nat, end: nat)
    requires p <= |s| && Layout(s, Skip(s, p), d) == Some(end)
    ensures Reads(R.ParseValue(s, p, depth), Depth(d), depth, Denote(d), end)
    decreases d, 1
  {
    var q := Skip(s, p);
    ValueIsToken(s, p, q, depth);
    if depth <= R.MAX_DEPTH {
      if d.Array? {
        ArrayToken(s, q, d, depth, end);
      } else if d.Object? {
        ObjectToken(s, q, d, depth, end);
      } else {
        ScalarToken(s, q, d, depth, end);
      }
    }
  }

  lemma {:induction false} ArrayReads(s: string, p: nat, items: seq<Form>, depth: nat)
    requires p <= |s| && Layout(s, p, Array(items)).Some? && depth <= R.MAX_DEPTH
    ensures Reads(R.ParseArray(s, p, depth), ItemsDepth(items), depth, R.Array(DenoteItems(items)),
                  Layout(s, p, Array(items)).value)
    decreases items, 1
  {
    if items != [] {
      var q := R.SkipSpace(s, p + 1);
      SkipSpaceTo(s, q, q);
      assert R.ParseArray(s, p, depth) == R.ParseItems(s, q, depth, []);
      ItemsRead(s, q, items, depth, [], Layout(s, p, Array(items)).value);
      assert [] + DenoteItems(items) == DenoteItems(items);
    }
  }

  /** The end of an array whose first element may start at `p`. */
  ghost function ItemsEnd(s: string, p: nat, items: seq<Form>): (r: Option<nat>)
    requires p <= |s| && items != []
    ensures r.Some? ==> AllProper(items)
  {
    var v := Layout(s, R.SkipSpace(s, p), items[0]);
    if v.None? then None else AfterItem(s, v.value, items[1..])
  }

  /** The end of an array after an element that ends at `q`. */
  ghost function AfterItem(s: string, q: nat, more: seq<Form>): (r: Option<nat>)
    requires q <= |s|
    ensures r.Some? ==> AllProper(more)
  {
    var e := LayoutItems(s, q, more, false);
    if e.None? then None else Closed(s, e.value, ']')
  }

  lemma {:induction false} ItemsSplit(s: string, p: nat, items: seq<Form>, end: nat) returns (q: nat)
    requires p <= |s| && items != [] && ItemsEnd(s, p, items) == Some(end)
    ensures q <= |s| && Layout(s, Skip(s, p), items[0]) == Some(q)
    ensures items[1..] == [] ==> Closed(s, q, ']') == Some(end)
    ensures items[1..] != [] ==> R.CharAt(s, Skip(s, q), ',') && ItemsEnd(s, Skip(s, q) + 1, items[1..]) == Some(end)
  {
    q := Layout(s, R.SkipSpace(s, p), items[0]).value;
  }

  /** The array loop, from where an element may start. */
  lemma {:induction false} ItemsRead(s: string, p: nat, items: seq<Form>, depth: nat, acc: seq<R.Value>, end: nat)
    requires p <= |s| && items != [] && ItemsEnd(s, p, items) == Some(end)
    ensures Reads(R.ParseItems(s, p, depth, acc), ItemsDepth(items), depth, R.Array(acc + DenoteItems(items)), end)
    decreases items, 0
  {
    var q := ItemsSplit(s, p, items, end);
    ValueReads(s, p, items[0], depth + 1, q);
    if items[1..] == [] {
      LastItem(s, p, q, items, depth, acc, end);
    } else {
      ItemsRead(s, Skip(s, q) + 1, items[1..], depth, acc + [Denote(items[0])], end);
      NextItem(s, p, q, items, depth, acc, end);
    }
  }

  /** One element read in the array loop, and what follows it. */
  lemma {:induction false} ItemStep(s: string, p: nat, v: R.Parsed<R.Value>, sep: R.Parsed<bool>, depth: nat,
                                    acc: seq<R.Value>)
    requires p <= |s| && v == R.ParseValue(s, p, depth + 1)
    requires v.Ok? ==> sep == R.Separator(s, v.pos, ']', R.UnterminatedArray, R.ExpectedItemEnd) && sep.Ok?
    ensures v.Fail? ==> R.ParseItems(s, p, depth, acc) == v
    ensures v.Ok? && !sep.value ==> R.ParseItems(s, p, depth, acc) == R.Ok(R.Array(acc + [v.value]), sep.pos)
    ensures v.Ok? && sep.value ==>
              sep.pos <= |s| && R.ParseItems(s, p, depth, acc) == R.ParseItems(s, sep.pos, depth, acc + [v.value])
  {
  }

  lemma {:induction false} LastItem(s: string, p: nat, q: nat, items: seq<Form>, depth: nat, acc: seq<R.Value>,
                                    end: nat)
    requires p <= |s| && q <= |s| && items != [] && items[1..] == [] && AllProper(items)
    requires Reads(R.ParseValue(s, p, depth + 1), Depth(items[0]), depth + 1, Denote(items[0]), q)
    requires Closed(s, q, ']') == Some(end)
    ensures Reads(R.ParseItems(s, p, depth, acc), ItemsDepth(items), depth, R.Array(acc + DenoteItems(items)), end)
  {
    assert DenoteItems(items) == [Denote(items[0])];
    assert ItemsDepth(items) == 1 + Depth(items[0]);
    ItemStep(s, p, R.ParseValue(s, p, depth + 1), R.Ok(false, end), depth, acc);
  }

  lemma {:induction false} NextItem(s: string, p: nat, q: nat, items: seq<Form>, depth: nat, acc: seq<R.Value>,
                                    end: nat)
    requires p <= |s| && q <= |s| && |items| > 1 && R.CharAt(s, R.SkipSpace(s, q), ',') && AllProper(items)
    requires Reads(R.ParseValue(s, p, depth + 1), Depth(items[0]), depth + 1, Denote(items[0]), q)
    requires Reads(R.ParseItems(s, R.SkipSpace(s, q) + 1, depth, acc + [Denote(items[0])]), ItemsDepth(items[1..]),
                   depth, R.Array(acc + [Denote(items[0])] + DenoteItems(items[1..])), end)
    ensures Reads(R.ParseItems(s, p, depth, acc), ItemsDepth(items), depth, R.Array(acc + DenoteItems(items)), end)
  {
    ItemsUnfold(items, acc);
    ItemStep(s, p, R.ParseValue(s, p, depth + 1), R.Ok(true, R.SkipSpace(s, q) + 1), depth, acc);
  }

  lemma {:induction false} ItemsUnfold(items: seq<Form>, acc: seq<R.Value>)
    requires items != [] && AllProper(items)
    ensures acc + [Denote(items[0])] + DenoteItems(items[1..]) == acc + DenoteItems(items)
    ensures ItemsDepth(items) == Max(1 + Depth(items[0]), ItemsDepth(items[1..]))
  {
  }

  lemma {:induction false} FirstMember(s: string, p: nat, members: seq<Member>) returns (q: nat)
    requires p <= |s| && members != [] && LayoutMembers(s, p, members, true).Some?
    ensures q <= |s| && MemberSpan(s, Skip(s, p), members[0]) == Some(q)
    ensures LayoutMembers(s, p, members, true) == MembersSpan(s, q, members[1..])
  {
    q := LayoutMember(s, R.SkipSpace(s, p), members[0]).value;
  }

  lemma {:induction false} ObjectReads(s: string, p: nat, members: seq<Member>, depth: nat)
    requires p <= |s| && Layout(s, p, Object(members)).Some? && depth <= R.MAX_DEPTH
    ensures Reads(R.ParseObject(s, p, depth), MembersDepth(members), depth, R.Object(DenoteMembers(members, map[])),
                  Layout(s, p, Object(members)).value)
    decreases members, 1
  {
    if members != [] {
      var q := R.SkipSpace(s, p + 1);
      SkipSpaceTo(s, q, q);
      var e := FirstMember(s, p + 1, members);
      assert R.ParseObject(s, p, depth) == R.ParseMembers(s, q, depth, map[]);
      MembersRead(s, q, members, depth, map[], e, LayoutMembers(s, p + 1, members, true).value,
                  Layout(s, p, Object(members)).value);
    }
  }

  lemma {:induction false} KeyReads(s: string, p: nat, key: seq<Piece>) returns (c: nat)
    requires p <= |s| && KeyLayout(s, Skip(s, p), key).Some?
    ensures c <= |s| && R.ParseKey(s, p) == R.Ok(Mean(key), c) && KeyLayout(s, Skip(s, p), key) == Some(Skip(s, c))
  {
    var k := Skip(s, p);
    var e := k + |Spell(key)| + 2;
    KeyParts(s, k, e, key);
    KeyRead(s, p, k, e, key);
    c := Skip(s, e) + 1;
  }

  lemma {:induction false} KeyRead(s: string, p: nat, k: nat, e: nat, key: seq<Piece>)
    requires p <= |s| && k == Skip(s, p) && ProperPieces(key) && R.CharAt(s, k, '\"') && At(s, k + 1, Spell(key))
    requires R.CharAt(s, k + 1 + |Spell(key)|, '\"') && e == k + |Spell(key)| + 2 && R.CharAt(s, Skip(s, e), ':')
    ensures R.ParseKey(s, p) == R.Ok(Mean(key), Skip(s, e) + 1)
  {
    QuotedReads(s, k, key);
    KeyFound(s, p, k, Mean(key), e);
  }

  lemma {:induction false} KeyParts(s: string, k: nat, e: nat, key: seq<Piece>)
    requires k <= |s| && KeyLayout(s, k, key).Some? && e == k + |Spell(key)| + 2
    ensures ProperPieces(key) && R.CharAt(s, k, '\"') && At(s, k + 1, Spell(key))
    ensures R.CharAt(s, k + 1 + |Spell(key)|, '\"') && e <= |s| && R.CharAt(s, Skip(s, e), ':')
    ensures KeyLayout(s, k, key).value == Skip(s, Skip(s, e) + 1)
  {
  }

  lemma {:induction false} KeyFound(s: string, p: nat, k: nat, key: string, e: nat)
    requires p <= |s| && k == Skip(s, p) && R.CharAt(s, k, '\"') && e <= |s|
    requires R.Quoted(s, k + 1) == R.Ok(key, e) && R.CharAt(s, Skip(s, e), ':')
    ensures R.ParseKey(s, p) == R.Ok(key, Skip(s, e) + 1)
  {
  }

  // The object loop is argued about through these names, which do not unfold by themselves.

  ghost function Skip(s: string, p: nat): (q: nat)
    requires p <= |s|
    ensures q <= |s|
  {
    R.SkipSpace(s, p)
  }

  ghost function MemberSpan(s: string, p: nat, m: Member): (r: Option<nat>)
    requires p <= |s|
    ensures r.Some? ==> ProperPieces(m.key) && Proper(m.value)
  {
    LayoutMember(s, p, m)
  }

  ghost function MembersSpan(s: string, p: nat, members: seq<Member>): (r: Option<nat>)
    requires p <= |s|
    ensures r.Some? ==> MembersProper(members)
  {
    LayoutMembers(s, p, members, false)
  }

  ghost function ObjectLoop(s: string, p: nat, depth: nat, members: map<string, R.Value>): R.Parsed<R.Value>
    requires p <= |s|
  {
    R.ParseMembers(s, p, depth, members)
  }

  ghost function ObjectValue(members: seq<Member>, acc: map<string, R.Value>): R.Value
    requires MembersProper(members)
  {
    R.Object(DenoteMembers(members, acc))
  }

  ghost function Nesting(members: seq<Member>): nat { MembersDepth(members) }

  /** The object loop after a value that ends at `q`. */
  ghost function AfterMember(s: string, q: nat, depth: nat, members: map<string, R.Value>): R.Parsed<R.Value>
    requires q <= |s|
  {
    var more := R.Separator(s, q, '}', R.UnterminatedObject, R.ExpectedMemberEnd);
    if more.Fail? then R.Fail(more.problem, more.offset)
    else if more.value then R.ParseMembers(s, more.pos, depth, members)
    else R.Ok(R.Object(members), more.pos)
  }

  /** Members other than the first: a comma, then a member. */
  lemma {:induction false} SpanStep(s: string, p: nat, members: seq<Member>) returns (c: nat, q: nat)
    requires p <= |s| && members != [] && MembersSpan(s, p, members).Some?
    ensures R.CharAt(s, Skip(s, p), ',') && c == Skip(s, p) + 1 && c <= |s| && q <= |s|
    ensures MemberSpan(s, Skip(s, c), members[0]) == Some(q)
    ensures MembersSpan(s, p, members) == MembersSpan(s, q, members[1..])
  {
    c := R.SkipSpace(s, p) + 1;
    q := LayoutMember(s, Next(s, p, false).value, members[0]).value;
  }

  lemma {:induction false} MembersUnfold(members: seq<Member>, acc: map<string, R.Value>)
    requires members != [] && MembersProper(members)
    ensures ObjectValue(members, acc) == ObjectValue(members[1..],
            acc[Mean(members[0].key) := Denote(members[0].value)])
    ensures Nesting(members) == Max(1 + Depth(members[0].value), Nesting(members[1..]))
  {
  }

  lemma {:induction false} AfterComma(s: string, q: nat, c: nat, depth: nat, members: map<string, R.Value>)
    requires q <= |s| && R.CharAt(s, Skip(s, q), ',') && c == Skip(s, q) + 1
    ensures AfterMember(s, q, depth, members) == ObjectLoop(s, c, depth, members)
  {
  }

  lemma {:induction false} AfterBrace(s: string, q: nat, e: nat, depth: nat, members: map<string, R.Value>, end: nat)
    requires q <= |s| && e <= |s| && MembersSpan(s, q, []) == Some(e) && Closed(s, e, '}') == Some(end)
    ensures AfterMember(s, q, depth, members) == R.Ok(ObjectValue([], members), end) && Nesting([]) == 0
  {
  }

  /** The object loop, from where a key may start; `q` and `e` are where the first and the
      last member end. */
  lemma {:induction false} MembersRead(s: string, p: nat, members: seq<Member>, depth: nat, acc: map<string, R.Value>,
                                       q: nat, e: nat, end: nat)
    requires p <= |s| && q <= |s| && e <= |s| && members != []
    requires MemberSpan(s, Skip(s, p), members[0]) == Some(q) && MembersSpan(s, q, members[1..]) == Some(e)
    requires Closed(s, e, '}') == Some(end)
    ensures Reads(ObjectLoop(s, p, depth, acc), Nesting(members), depth, ObjectValue(members, acc), end)
    decreases members, 0
  {
    var m, more := members[0], members[1..];
    var next := acc[Mean(m.key) := Denote(m.value)];
    MembersUnfold(members, acc);
    if depth + 1 + Depth(m.value) > R.MAX_DEPTH {
      MemberReads(s, p, m, depth, acc, q);
    } else if more == [] {
      MemberReads(s, p, m, depth, acc, q);
      AfterBrace(s, q, e, depth, next, end);
    } else {
      var c, q1 := SpanStep(s, q, more);
      MembersRead(s, c, more, depth, next, q1, e, end);
      AfterComma(s, q, c, depth, next);
      MemberReads(s, p, m, depth, acc, q);
    }
  }

  /** One key and its value, which ends at `q`. */
  lemma {:induction false} MemberReads(s: string, p: nat, m: Member, depth: nat, acc: map<string, R.Value>, q: nat)
    requires p <= |s| && q <= |s| && MemberSpan(s, Skip(s, p), m) == Some(q)
    ensures var r := ObjectLoop(s, p, depth, acc);
            if depth + 1 + Depth(m.value) <= R.MAX_DEPTH then r
                == AfterMember(s, q, depth, acc[Mean(m.key) := Denote(m.value)])
            else r.Fail? && r.problem == R.TooDeep
    decreases m, 1
  {
    var c := KeyReads(s, p, m.key);
    ValueReads(s, c, m.value, depth + 1, q);
    MemberStep(s, p, R.Ok(Mean(m.key), c), R.ParseValue(s, c, depth + 1), depth, acc);
  }

  /** One member read in the object loop. */
  lemma {:induction false} MemberStep(s: string, p: nat, k: R.Parsed<string>, v: R.Parsed<R.Value>, depth: nat,
                                      acc: map<string, R.Value>)
    requires p <= |s| && k == R.ParseKey(s, p) && k.Ok? && v == R.ParseValue(s, k.pos, depth + 1)
    ensures v.Fail? ==> R.ParseMembers(s, p, depth, acc) == v
    ensures v.Ok? ==> R.ParseMembers(s, p, depth, acc) == AfterMember(s, v.pos, depth, acc[k.value := v.value])
  {
  }

  // --- What is accepted is a text of a value -----------------------------------------------------

  lemma {:induction false} PairThere(s: string, p: nat)
    requires p + 2 <= |s|
    ensures At(s, p, [s[p], s[p + 1]])
  {
    assert s[p..p + 2] == [s[p], s[p + 1]];
    AtSlice(s, p, [s[p], s[p + 1]]);
  }

  lemma {:induction false} OneThere(s: string, p: nat)
    requires p < |s|
    ensures At(s, p, [s[p]])
  {
    assert s[p..p + 1] == [s[p]];
    AtSlice(s, p, [s[p]]);
  }

  lemma {:induction false} EscapeSound(s: string, p: nat) returns (piece: Piece)
    requires p < |s| && s[p] == '\\' && R.EscapeAt(s, p + 1).Ok?
    ensures ProperPiece(piece) && At(s, p, SpellOne(piece)) && p + |SpellOne(piece)| <= |s|
    ensures R.EscapeAt(s, p + 1) == R.Ok(MeanOne(piece), p + |SpellOne(piece)|)
  {
    PairThere(s, p);
    if s[p + 1] == 'u' {
      var digits := s[p + 2..p + 6];
      FourCode(digits);
      piece := Unicode(digits);
      AtSlice(s, p + 2, digits);
      AtConcat(s, p, ['\\', 'u'], digits);
    } else {
      piece := Letter(s[p + 1]);
    }
  }

  lemma {:induction false} PieceSound(s: string, p: nat, acc: string) returns (piece: Piece)
    requires p < |s| && s[p] != '\"' && StringRest(s, p, acc).Ok?
    ensures ProperPiece(piece) && At(s, p, SpellOne(piece)) && p + |SpellOne(piece)| <= |s|
    ensures StringRest(s, p, acc) == StringRest(s, p + |SpellOne(piece)|, acc + MeanOne(piece))
  {
    if s[p] == '\\' {
      piece := EscapeSound(s, p);
    } else {
      piece := Itself(s[p]);
      OneThere(s, p);
    }
  }

  lemma {:induction false} PiecesSound(s: string, p: nat, acc: string) returns (pieces: seq<Piece>, end: nat)
    requires p <= |s| && StringRest(s, p, acc).Ok?
    ensures ProperPieces(pieces) && At(s, p, Spell(pieces)) && end == p + |Spell(pieces)| && R.CharAt(s, end, '\"')
    ensures StringRest(s, p, acc) == R.Ok(acc + Mean(pieces), end + 1)
    decreases |s| - p
  {
    if s[p] == '\"' {
      pieces, end := [], p;
      AtIndex(s, p, "");
      assert acc + "" == acc;
      QuoteEnds(s, p, acc);
    } else {
      var piece := PieceSound(s, p, acc);
      var q := p + |SpellOne(piece)|;
      var more;
      more, end := PiecesSound(s, q, acc + MeanOne(piece));
      pieces := [piece] + more;
      PiecesThere(s, p, piece, more, pieces, acc);
    }
  }

  lemma {:induction false} PiecesThere(s: string, p: nat, piece: Piece, more: seq<Piece>, pieces: seq<Piece>,
                                       acc: string)
    requires pieces == [piece] + more && ProperPiece(piece) && ProperPieces(more)
    requires At(s, p, SpellOne(piece)) && At(s, p + |SpellOne(piece)|, Spell(more))
    ensures ProperPieces(pieces) && At(s, p, Spell(pieces)) && |Spell(pieces)| == |SpellOne(piece)| + |Spell(more)|
    ensures acc + MeanOne(piece) + Mean(more) == acc + Mean(pieces)
  {
    assert pieces[0] == piece && pieces[1..] == more;
    AtConcat(s, p, SpellOne(piece), Spell(more));
    Assoc(acc, MeanOne(piece), Mean(more));
  }

  lemma {:induction false} DigitsEnd(s: string, p: nat)
    requires p <= |s|
    ensures var q := SkipDigits(s, p); AllDigits(s[p..q]) && (q < |s| ==> !IsDigit(s[q]))
    decreases |s| - p
  {
    if p < |s| && IsDigit(s[p]) {
      DigitsEnd(s, p + 1);
      var q := SkipDigits(s, p + 1);
      assert s[p..q] == [s[p]] + s[p + 1..q];
    }
  }

  lemma {:induction false} SignSound(s: string, p: nat)
    requires p <= |s|
    ensures var q := R.SkipSign(s, p); IsSign(s[p..q]) && At(s, p, s[p..q])
  {
    var q := R.SkipSign(s, p);
    if q > p { assert s[p..q] == [s[p]]; } else { assert s[p..q] == ""; }
    AtSlice(s, p, s[p..q]);
  }

  lemma {:induction false} FractionSound(s: string, start: nat, w: nat) returns (fraction: Option<string>, q: nat)
    requires start <= |s| && w == SkipDigits(s, start)
    ensures ProperFraction(fraction) && (fraction.None? && q < |s| ==> s[q] != '.')
    ensures At(s, w, FractionText(fraction)) && q == w + |FractionText(fraction)| <= |s|
    ensures q < |s| ==> !IsDigit(s[q])
    ensures R.Mantissa(s, start) == (q, w > start || (fraction.Some? && fraction.value != ""))
  {
    if R.CharAt(s, w, '.') {
      q := SkipDigits(s, w + 1);
      DigitsEnd(s, w + 1);
      fraction := Some(s[w + 1..q]);
      FractionThere(s, w, q);
    } else {
      fraction, q := None, w;
      AtSlice(s, w, "");
    }
  }

  lemma {:induction false} FractionThere(s: string, w: nat, end: nat)
    requires R.CharAt(s, w, '.') && w < end <= |s|
    ensures At(s, w, "." + s[w + 1..end])
  {
    assert s[w..end] == "." + s[w + 1..end];
    AtSlice(s, w, "." + s[w + 1..end]);
  }

  lemma {:induction false} ExponentSound(s: string, q: nat) returns (exponent: Option<Exponent>, end: nat)
    requires q <= |s| && R.Exponent(s, q).Ok?
    ensures ProperExponent(exponent) && (exponent.None? ==> end == q && (q < |s| ==> s[q] != 'e' && s[q] != 'E'))
    ensures At(s, q, ExponentText(exponent)) && end == q + |ExponentText(exponent)| <= |s|
    ensures R.Exponent(s, q) == R.Ok((), end) && (exponent.Some? && end < |s| ==> !IsDigit(s[end]))
  {
    if R.CharAt(s, q, 'e') || R.CharAt(s, q, 'E') {
      var e := R.SkipSign(s, q + 1);
      end := SkipDigits(s, e);
      SignSound(s, q + 1);
      DigitsEnd(s, e);
      exponent := Some(Exponent(s[q], s[q + 1..e], s[e..end]));
      ExponentThere(s, q, e, end, exponent);
    } else {
      exponent, end := None, q;
      AtSlice(s, q, "");
    }
  }

  lemma {:induction false} ExponentThere(s: string, q: nat, e: nat, end: nat, exponent: Option<Exponent>)
    requires q < e <= end <= |s| && exponent == Some(Exponent(s[q], s[q + 1..e], s[e..end]))
    ensures At(s, q, ExponentText(exponent)) && q + |ExponentText(exponent)| == end
  {
    OneThere(s, q);
    AtSlice(s, q + 1, s[q + 1..e]);
    AtSlice(s, e, s[e..end]);
    AtConcat(s, q + 1, s[q + 1..e], s[e..end]);
    AtConcat(s, q, [s[q]], s[q + 1..e] + s[e..end]);
  }

  lemma {:induction false} NumberSound(s: string, p: nat) returns (n: Numeral, end: nat)
    requires p <= |s| && R.ParseNumber(s, p).Ok?
    ensures ProperNumeral(n) && At(s, p, Lexeme(n)) && end == p + |Lexeme(n)| && Stops(s, end, n)
    ensures R.ParseNumber(s, p) == R.Ok(R.Number(Lexeme(n)), end)
  {
    var start := R.SkipSign(s, p);
    var w := SkipDigits(s, start);
    SignSound(s, p);
    DigitsEnd(s, start);
    var fraction, q := FractionSound(s, start, w);
    NumberHasDigits(s, p, start, q);
    var exponent;
    exponent, end := ExponentSound(s, q);
    n := Numeral(s[p..start], s[start..w], fraction, exponent);
    AtSlice(s, start, n.whole);
    LexemeThere(s, p, start, w, q, n);
    NumberParsed(s, p, start, q, end);
  }

  lemma {:induction false} NumberHasDigits(s: string, p: nat, start: nat, q: nat)
    requires p <= |s| && R.ParseNumber(s, p).Ok? && start == R.SkipSign(s, p) && R.Mantissa(s, start).0 == q
    ensures R.Mantissa(s, start) == (q, true) && R.Exponent(s, q).Ok?
  {
  }

  lemma {:induction false} LexemeThere(s: string, p: nat, start: nat, w: nat, q: nat, n: Numeral)
    requires At(s, p, n.sign) && start == p + |n.sign| && At(s, start, n.whole) && w == start + |n.whole|
    requires At(s, w, FractionText(n.fraction)) && q == w + |FractionText(n.fraction)|
    requires At(s, q, ExponentText(n.exponent))
    ensures At(s, p, Lexeme(n)) && |Lexeme(n)| == q + |ExponentText(n.exponent)| - p
    ensures p + |Lexeme(n)| <= |s| && s[p..p + |Lexeme(n)|] == Lexeme(n)
  {
    AtConcat(s, w, FractionText(n.fraction), ExponentText(n.exponent));
    AtConcat(s, start, n.whole, FractionText(n.fraction) + ExponentText(n.exponent));
    AtConcat(s, p, n.sign, n.whole + (FractionText(n.fraction) + ExponentText(n.exponent)));
    AtSlice(s, p, Lexeme(n));
  }

  /** A string literal from its opening quote on. */
  lemma {:induction false} QuotedSound(s: string, q: nat) returns (pieces: seq<Piece>)
    requires R.CharAt(s, q, '\"') && R.Quoted(s, q + 1).Ok?
    ensures ProperPieces(pieces) && At(s, q + 1, Spell(pieces)) && R.CharAt(s, q + 1 + |Spell(pieces)|, '\"')
    ensures R.Quoted(s, q + 1) == R.Ok(Mean(pieces), q + |Spell(pieces)| + 2)
  {
    var end;
    pieces, end := PiecesSound(s, q + 1, "");
    assert "" + Mean(pieces) == Mean(pieces);
  }

  lemma {:induction false} QuotedThere(s: string, q: nat, e: string)
    requires R.CharAt(s, q, '\"') && At(s, q + 1, e) && R.CharAt(s, q + 1 + |e|, '\"')
    ensures At(s, q, "\"" + (e + "\"")) && |"\"" + (e + "\"")| == |e| + 2
  {
    OneThere(s, q);
    OneThere(s, q + 1 + |e|);
    AtConcat(s, q + 1, e, "\"");
    AtConcat(s, q, "\"", e + "\"");
  }

  lemma {:induction false} ScalarThere(s: string, q: nat, d: Form, end: nat)
    requires !d.Array? && !d.Object? && Proper(d) && At(s, q, ScalarText(d)) && end == q + |ScalarText(d)|
    requires d.Number? ==> Stops(s, end, d.numeral)
    ensures q <= |s| && ScalarLayout(s, q, d) == Some(end)
  {
  }

  lemma {:induction false} TextSound(s: string, q: nat) returns (d: Form, end: nat)
    requires R.CharAt(s, q, '\"') && R.ParseString(s, q).Ok?
    ensures d.Text? && Proper(d) && ScalarLayout(s, q, d) == Some(end) && R.ParseString(s, q) == R.Ok(Denote(d), end)
  {
    var pieces := QuotedSound(s, q);
    QuotedThere(s, q, Spell(pieces));
    d, end := Text(pieces), q + |Spell(pieces)| + 2;
    ScalarThere(s, q, d, end);
  }

  lemma {:induction false} NumberTokenSound(s: string, q: nat) returns (d: Form, end: nat)
    requires q < |s| && R.ParseNumber(s, q).Ok?
    ensures d.Number? && Proper(d) && ScalarLayout(s, q, d) == Some(end) && R.ParseNumber(s, q) == R.Ok(Denote(d), end)
  {
    var n;
    n, end := NumberSound(s, q);
    d := Number(n);
    ScalarThere(s, q, d, end);
  }

  lemma {:induction false} WordSound(s: string, q: nat, d: Form, expected: R.Problem)
    requires q < |s| && (d.Null? || d.Boolean?) && R.Literal(s, q, ScalarText(d), Denote(d), expected).Ok?
    ensures R.Literal(s, q, ScalarText(d), Denote(d), expected) == R.Ok(Denote(d), q + |ScalarText(d)|)
    ensures ScalarLayout(s, q, d) == Some(q + |ScalarText(d)|)
  {
  }

  /** A token that is no container. */
  lemma {:induction false} ScalarSound(s: string, q: nat, depth: nat) returns (d: Form, end: nat)
    requires q < |s| && s[q] != '{' && s[q] != '[' && R.ParseToken(s, q, depth).Ok?
    ensures !d.Array? && !d.Object? && Proper(d) && ScalarLayout(s, q, d) == Some(end)
    ensures R.ParseToken(s, q, depth) == R.Ok(Denote(d), end)
  {
    if s[q] == '\"' {
      d, end := TextSound(s, q);
    } else if s[q] == 't' {
      d := Boolean(true);
      end := q + |ScalarText(d)|;
      WordSound(s, q, d, R.ExpectedTrue);
    } else if s[q] == 'f' {
      d := Boolean(false);
      end := q + |ScalarText(d)|;
      WordSound(s, q, d, R.ExpectedFalse);
    } else if s[q] == 'n' {
      d := Null;
      end := q + |ScalarText(d)|;
      WordSound(s, q, d, R.ExpectedNull);
    } else {
      d, end := NumberTokenSound(s, q);
    }
  }

  /** A value the reader accepts from `p` on is the text of one, nested within bounds. */
  lemma {:induction false} ValueSound(s: string, p: nat, depth: nat) returns (d: Form, end: nat)
    requires p <= |s| && R.ParseValue(s, p, depth).Ok?
    ensures Proper(d) && p < end <= |s| && Layout(s, Skip(s, p), d) == Some(end)
    ensures R.ParseValue(s, p, depth) == R.Ok(Denote(d), end) && depth + Depth(d) <= R.MAX_DEPTH
    decreases |s| - p, 3
  {
    var q := R.SkipSpace(s, p);
    assert R.ParseValue(s, p, depth) == R.ParseToken(s, q, depth);
    if s[q] == '[' {
      d, end := ArraySound(s, q, depth);
    } else if s[q] == '{' {
      d, end := ObjectSound(s, q, depth);
    } else {
      d, end := ScalarSound(s, q, depth);
    }
  }

  lemma {:induction false} SkipAgain(s: string, p: nat)
    requires p <= |s|
    ensures R.SkipSpace(s, R.SkipSpace(s, p)) == R.SkipSpace(s, p)
  {
    SkipsWhite(s, p);
    SkipSpaceTo(s, R.SkipSpace(s, p), R.SkipSpace(s, p));
  }

  ghost function ArrayLoop(s: string, p: nat, depth: nat, acc: seq<R.Value>): R.Parsed<R.Value>
    requires p <= |s|
  {
    R.ParseItems(s, p, depth, acc)
  }

  lemma {:induction false} ArraySound(s: string, q: nat, depth: nat) returns (d: Form, end: nat)
    requires q < |s| && s[q] == '[' && R.ParseArray(s, q, depth).Ok? && depth <= R.MAX_DEPTH
    ensures Proper(d) && q < end <= |s| && Layout(s, q, d) == Some(end)
    ensures R.ParseArray(s, q, depth) == R.Ok(Denote(d), end) && depth + Depth(d) <= R.MAX_DEPTH
    decreases |s| - q, 1
  {
    var v := R.SkipSpace(s, q + 1);
    if R.CharAt(s, v, ']') {
      d, end := Array([]), v + 1;
    } else {
      var items;
      items, end := ItemsSound(s, v, depth, []);
      d := Array(items);
      ArrayThere(s, q, v, items, end);
      assert [] + DenoteItems(items) == DenoteItems(items);
    }
  }

  lemma {:induction false} ArrayThere(s: string, q: nat, v: nat, items: seq<Form>, end: nat)
    requires R.CharAt(s, q, '[') && v == Skip(s, q + 1) && items != [] && ItemsEnd(s, v, items) == Some(end)
    ensures Layout(s, q, Array(items)) == Some(end) && Proper(Array(items))
  {
    SkipAgain(s, q + 1);
  }

  /** What an array loop that succeeds has found first. */
  lemma {:induction false} ItemFound(s: string, p: nat, depth: nat, acc: seq<R.Value>)
    requires p <= |s| && ArrayLoop(s, p, depth, acc).Ok?
    ensures R.ParseValue(s, p, depth + 1).Ok?
    ensures R.Separator(s, R.ParseValue(s, p, depth + 1).pos, ']', R.UnterminatedArray, R.ExpectedItemEnd).Ok?
    ensures var v := R.ParseValue(s, p, depth + 1);
            var more := R.Separator(s, v.pos, ']', R.UnterminatedArray, R.ExpectedItemEnd);
            more.value ==> ArrayLoop(s, more.pos, depth, acc + [v.value]).Ok?
  {
  }

  lemma {:induction false} ItemsSound(s: string, p: nat, depth: nat, acc: seq<R.Value>)
      returns (items: seq<Form>, end: nat)
    requires p <= |s| && ArrayLoop(s, p, depth, acc).Ok?
    ensures items != [] && AllProper(items) && p < end <= |s| && ItemsEnd(s, p, items) == Some(end)
    ensures ArrayLoop(s, p, depth, acc) == R.Ok(R.Array(acc + DenoteItems(items)), end)
    ensures depth + ItemsDepth(items) <= R.MAX_DEPTH
    decreases |s| - p, 4
  {
    ItemFound(s, p, depth, acc);
    var d, q := ValueSound(s, p, depth + 1);
    var more := R.Separator(s, q, ']', R.UnterminatedArray, R.ExpectedItemEnd);
    if more.value {
      var rest;
      rest, end := ItemsSound(s, more.pos, depth, acc + [Denote(d)]);
      items := [d] + rest;
      ItemsCons(d, rest, items);
      MoreItemsThere(s, p, q, more.pos, d, rest, items);
      MoreItemsRead(s, p, q, more.pos, d, rest, items, depth, acc, end);
    } else {
      items, end := [d], more.pos;
      OneItemThere(s, p, q, d, items);
      OneItemRead(s, p, q, d, items, depth, acc, end);
    }
  }

  lemma {:induction false} OneItemThere(s: string, p: nat, q: nat, d: Form, items: seq<Form>)
    requires p <= |s| && q <= |s| && Layout(s, Skip(s, p), d) == Some(q) && items == [d] && R.CharAt(s, Skip(s, q), ']')
    ensures ItemsEnd(s, p, items) == Some(Skip(s, q) + 1) && AllProper(items) && ItemsDepth(items) == 1 + Depth(d)
  {
    assert items[1..] == [];
    assert LayoutItems(s, q, [], false) == Some(q) && ItemsDepth([]) == 0;
  }

  lemma {:induction false} OneItemRead(s: string, p: nat, q: nat, d: Form, items: seq<Form>, depth: nat,
                                       acc: seq<R.Value>, end: nat)
    requires p <= |s| && q <= |s| && items == [d] && Proper(d) && R.ParseValue(s, p, depth + 1) == R.Ok(Denote(d), q)
    requires R.Separator(s, q, ']', R.UnterminatedArray, R.ExpectedItemEnd) == R.Ok(false, end)
    ensures AllProper(items) && ArrayLoop(s, p, depth, acc) == R.Ok(R.Array(acc + DenoteItems(items)), end)
  {
    assert items[1..] == [];
    assert DenoteItems(items) == [Denote(d)];
  }

  lemma {:induction false} MoreItemsThere(s: string, p: nat, q: nat, c: nat, d: Form, rest: seq<Form>, items: seq<Form>)
    requires p <= |s| && q <= |s| && Layout(s, Skip(s, p), d) == Some(q) && items == [d] + rest && rest != []
    requires R.CharAt(s, Skip(s, q), ',') && c == Skip(s, q) + 1 && c <= |s| && ItemsEnd(s, c, rest).Some?
    ensures ItemsEnd(s, p, items) == ItemsEnd(s, c, rest)
  {
    assert items[1..] == rest;
    AfterFirst(s, p, q, items);
    LaterItems(s, q, c, rest);
  }

  lemma {:induction false} AfterFirst(s: string, p: nat, q: nat, items: seq<Form>)
    requires p <= |s| && q <= |s| && items != [] && Layout(s, Skip(s, p), items[0]) == Some(q)
    ensures ItemsEnd(s, p, items) == AfterItem(s, q, items[1..])
  {
  }

  lemma {:induction false} LaterItems(s: string, q: nat, c: nat, rest: seq<Form>)
    requires q <= |s| && R.CharAt(s, Skip(s, q), ',') && c == Skip(s, q) + 1 && c <= |s| && rest != []
    ensures AfterItem(s, q, rest) == ItemsEnd(s, c, rest)
  {
    assert Next(s, q, false) == Some(Skip(s, c));
  }

  lemma {:induction false} ItemsCons(d: Form, rest: seq<Form>, items: seq<Form>)
    requires Proper(d) && AllProper(rest) && items == [d] + rest
    ensures AllProper(items) && ItemsDepth(items) == Max(1 + Depth(d), ItemsDepth(rest))
  {
    assert items[1..] == rest;
  }

  lemma {:induction false} MoreItemsRead(s: string, p: nat, q: nat, c: nat, d: Form, rest: seq<Form>, items: seq<Form>,
                                         depth: nat, acc: seq<R.Value>, end: nat)
    requires p <= |s| && q <= |s| && c <= |s| && items == [d] + rest && AllProper(items) && AllProper(rest) && Proper(d)
    requires R.ParseValue(s, p, depth + 1) == R.Ok(Denote(d), q)
    requires R.Separator(s, q, ']', R.UnterminatedArray, R.ExpectedItemEnd) == R.Ok(true, c)
    requires ArrayLoop(s, c, depth, acc + [Denote(d)]) == R.Ok(R.Array(acc + [Denote(d)] + DenoteItems(rest)), end)
    ensures ArrayLoop(s, p, depth, acc) == R.Ok(R.Array(acc + DenoteItems(items)), end)
  {
    assert items[1..] == rest;
    assert acc + [Denote(d)] + DenoteItems(rest) == acc + DenoteItems(items);
  }

  lemma {:induction false} ObjectSound(s: string, q: nat, depth: nat) returns (d: Form, end: nat)
    requires q < |s| && s[q] == '{' && R.ParseObject(s, q, depth).Ok? && depth <= R.MAX_DEPTH
    ensures Proper(d) && q < end <= |s| && Layout(s, q, d) == Some(end)
    ensures R.ParseObject(s, q, depth) == R.Ok(Denote(d), end) && depth + Depth(d) <= R.MAX_DEPTH
    decreases |s| - q, 1
  {
    var v := R.SkipSpace(s, q + 1);
    if R.CharAt(s, v, '}') {
      d, end := Object([]), v + 1;
    } else {
      var members, first, last;
      members, first, last, end := MembersSound(s, v, depth, map[]);
      d := Object(members);
      ObjectThere(s, q, v, members, first, last, end);
    }
  }

  lemma {:induction false} ObjectThere(s: string, q: nat, v: nat, members: seq<Member>, first: nat, last: nat, end: nat)
    requires R.CharAt(s, q, '{') && v == Skip(s, q + 1) && members != [] && first <= |s| && last <= |s|
    requires MemberSpan(s, Skip(s, v), members[0]) == Some(first) && MembersSpan(s, first, members[1..]) == Some(last)
    requires Closed(s, last, '}') == Some(end)
    ensures Layout(s, q, Object(members)) == Some(end) && Proper(Object(members))
  {
    SkipAgain(s, q + 1);
  }

  lemma {:induction false} KeySound(s: string, p: nat) returns (key: seq<Piece>, c: nat)
    requires p <= |s| && R.ParseKey(s, p).Ok?
    ensures ProperPieces(key) && p < c <= |s| && R.ParseKey(s, p) == R.Ok(Mean(key), c)
    ensures KeyLayout(s, Skip(s, p), key) == Some(Skip(s, c))
  {
    var k, e := KeySplit(s, p);
    key := QuotedSound(s, k);
    c := Skip(s, e) + 1;
    KeyThere(s, k, e, key);
    KeyFound(s, p, k, Mean(key), e);
  }

  lemma {:induction false} KeySplit(s: string, p: nat) returns (k: nat, e: nat)
    requires p <= |s| && R.ParseKey(s, p).Ok?
    ensures k == Skip(s, p) && p <= k && R.CharAt(s, k, '\"') && R.Quoted(s, k + 1).Ok? && R.Quoted(s, k + 1).pos == e
    ensures k < e <= Skip(s, e) && R.CharAt(s, Skip(s, e), ':')
  {
    k := R.SkipSpace(s, p);
    e := R.Quoted(s, k + 1).pos;
  }

  lemma {:induction false} KeyThere(s: string, k: nat, e: nat, key: seq<Piece>)
    requires ProperPieces(key) && R.CharAt(s, k, '\"') && At(s, k + 1, Spell(key))
    requires R.CharAt(s, k + 1 + |Spell(key)|, '\"') && e == k + |Spell(key)| + 2 && R.CharAt(s, Skip(s, e), ':')
    ensures KeyLayout(s, k, key) == Some(Skip(s, Skip(s, e) + 1))
  {
  }

  /** What an object loop that succeeds has found first. */
  lemma {:induction false} MemberFound(s: string, p: nat, depth: nat, acc: map<string, R.Value>)
    requires p <= |s| && ObjectLoop(s, p, depth, acc).Ok?
    ensures R.ParseKey(s, p).Ok? && R.ParseValue(s, R.ParseKey(s, p).pos, depth + 1).Ok?
    ensures var k := R.ParseKey(s, p);
            var v := R.ParseValue(s, k.pos, depth + 1);
            ObjectLoop(s, p, depth, acc) == AfterMember(s, v.pos, depth, acc[k.value := v.value])
  {
  }

  lemma {:induction false} MemberThere(s: string, p: nat, c: nat, q: nat, key: seq<Piece>, d: Form)
    requires p <= |s| && c <= |s| && KeyLayout(s, Skip(s, p), key) == Some(Skip(s, c))
    requires Layout(s, Skip(s, c), d) == Some(q)
    ensures MemberSpan(s, Skip(s, p), Member(key, d)) == Some(q)
  {
  }

  /** The members, and where the first one, the last one and the object end. */
  lemma {:induction false} MembersSound(s: string, p: nat, depth: nat, acc: map<string, R.Value>)
      returns (members: seq<Member>, first: nat, last: nat, end: nat)
    requires p <= |s| && ObjectLoop(s, p, depth, acc).Ok?
    ensures members != [] && MembersProper(members) && first <= |s| && last <= |s| && p < end <= |s|
    ensures MemberSpan(s, Skip(s, p), members[0]) == Some(first) && MembersSpan(s, first, members[1..]) == Some(last)
    ensures Closed(s, last, '}') == Some(end)
    ensures ObjectLoop(s, p, depth, acc) == R.Ok(ObjectValue(members, acc), end)
    ensures depth + Nesting(members) <= R.MAX_DEPTH
    decreases |s| - p, 4
  {
    MemberFound(s, p, depth, acc);
    var key, c := KeySound(s, p);
    var d, q := ValueSound(s, c, depth + 1);
    MemberThere(s, p, c, q, key, d);
    var rest;
    first := q;
    rest, last, end := MoreSound(s, q, depth, acc[Mean(key) := Denote(d)]);
    members := [Member(key, d)] + rest;
    assert members[1..] == rest;
    MembersUnfold(members, acc);
  }

  /** What follows a member that ends at `q`: more members, or the brace. */
  lemma {:induction false} MoreSound(s: string, q: nat, depth: nat, acc: map<string, R.Value>)
      returns (rest: seq<Member>, last: nat, end: nat)
    requires q <= |s| && AfterMember(s, q, depth, acc).Ok? && depth <= R.MAX_DEPTH
    ensures MembersProper(rest) && last <= |s| && q < end <= |s|
    ensures MembersSpan(s, q, rest) == Some(last) && Closed(s, last, '}') == Some(end)
    ensures AfterMember(s, q, depth, acc) == R.Ok(ObjectValue(rest, acc), end)
    ensures depth + Nesting(rest) <= R.MAX_DEPTH
    decreases |s| - q, 5
  {
    if R.CharAt(s, Skip(s, q), ',') {
      var c, first := Skip(s, q) + 1, 0;
      AfterComma(s, q, c, depth, acc);
      rest, first, last, end := MembersSound(s, c, depth, acc);
      MoreMembersThere(s, q, c, rest, first, last);
    } else {
      rest, last := [], q;
      end := NoMembersThere(s, q, depth, acc);
    }
  }

  lemma {:induction false} NoMembersThere(s: string, q: nat, depth: nat, acc: map<string, R.Value>) returns (end: nat)
    requires q <= |s| && AfterMember(s, q, depth, acc).Ok? && !R.CharAt(s, Skip(s, q), ',')
    ensures MembersSpan(s, q, []) == Some(q) && Nesting([]) == 0 && Closed(s, q, '}') == Some(end)
    ensures AfterMember(s, q, depth, acc) == R.Ok(ObjectValue([], acc), end)
  {
    end := R.SkipSpace(s, q) + 1;
  }

  lemma {:induction false} MoreMembersThere(s: string, q: nat, c: nat, rest: seq<Member>, first: nat, last: nat)
    requires q <= |s| && R.CharAt(s, Skip(s, q), ',') && c == Skip(s, q) + 1 && c <= |s| && rest != []
    requires first <= |s| && MemberSpan(s, Skip(s, c), rest[0]) == Some(first)
    requires MembersSpan(s, first, rest[1..]) == Some(last)
    ensures MembersSpan(s, q, rest) == Some(last)
  {
  }

  // --- Whole texts ---------------------------------------------------------------------------

  /** The whole of `s` is a text of the value, with white space around it. */
  ghost predicate TextOf(s: string, d: Form) {
    Layout(s, Skip(s, 0), d).Some? && Skip(s, Layout(s, Skip(s, 0), d).value) == |s|
  }

  /** A text of a value is accepted exactly when no value in it is inside more than 64 containers,
      and then gives the value. */
  lemma {:induction false} TextReadsAs(s: string, d: Form)
    requires TextOf(s, d)
    ensures Proper(d) && if Depth(d) <= 64 then R.Parse(s) == R.Accepted(Denote(d)) else R.Parse(s).Rejected?
  {
    SkipAgain(s, 0);
    ValueReads(s, Skip(s, 0), d, 0, Layout(s, Skip(s, 0), d).value);
  }

  /** Nothing else is accepted. */
  lemma {:induction false} AcceptedIsText(s: string) returns (d: Form)
    requires R.Parse(s).Accepted?
    ensures TextOf(s, d) && Proper(d) && Depth(d) <= 64 && R.Parse(s) == R.Accepted(Denote(d))
  {
    SkipAgain(s, 0);
    var end;
    d, end := ValueSound(s, R.SkipSpace(s, 0), 0);
  }

  /** The reader accepts exactly the texts of values with at most 64 containers around any value. */
  lemma {:induction false} AcceptsExactly(s: string)
    ensures R.Parse(s).Accepted? <==> exists d: Form :: TextOf(s, d) && Depth(d) <= 64
  {
    if R.Parse(s).Accepted? { var d := AcceptedIsText(s); }
    if d: Form :| TextOf(s, d) && Depth(d) <= 64 { TextReadsAs(s, d); }
  }
}
