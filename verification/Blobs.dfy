/** Pasted binary values: hex and base64, and how `parse_blob` tells them apart. */
module Blobs {
  import opened Arithmetic
  import opened Integers
  import opened Text

  // --- Hexadecimal ---------------------------------------------------------------------------

  predicate Separates(c: char) { IsBlank(c) || c == ',' || c == ':' || c == ';' || c == '_' }

  /** Tab, line feed, vertical tab, form feed, return, space, comma, colon, semicolon and underscore. */
  const SEPARATORS := {9, 10, 11, 12, 13, 32, 44, 58, 59, 95}

  lemma {:induction false} SeparatorCodes(c: char)
    ensures Separates(c) <==> c as int in SEPARATORS
    ensures IsBlank(c) <==> c as int in {9, 10, 11, 12, 13, 32}
  {
  }

  /** The text from `p` on without separators and 0x prefixes. */
  function CompactHex(text: string, p: nat): string
    requires p <= |text|
    decreases |text| - p
  {
    if p == |text| then ""
    else if Separates(text[p]) then CompactHex(text, p + 1)
    else if text[p] == '0' && p + 1 < |text| && (text[p + 1] == 'x' || text[p + 1] == 'X') then CompactHex(text, p + 2)
    else [text[p]] + CompactHex(text, p + 1)
  }

  predicate AllHex(text: string) { text != "" && ValidDigits(text, 16) }

  function HexBytes(compact: string): (r: seq<Byte>)
    requires ValidDigits(compact, 16)
  {
    if |compact| < 2 then [] else
    [HexValue(compact[0]) * 16 + HexValue(compact[1])] + HexBytes(compact[2..])
  }

  // --- Base64 -----------------------------------------------------------------------------------

  function Base64Value(c: char): int {
    if 'A' <= c <= 'Z' then c as int - 'A' as int
    else if 'a' <= c <= 'z' then c as int - 'a' as int + 26
    else if '0' <= c <= '9' then c as int - '0' as int + 52
    else if c == '+' then 62
    else if c == '/' then 63
    else -1
  }

  function NoBlanks(text: string): string {
    if text == "" then "" else
    var n := |text| - 1;
    NoBlanks(text[..n]) + if IsBlank(text[n]) then "" else [text[n]]
  }

  /** Up to two padding characters come off the end. */
  function Unpadded(s: string): string {
    if s == "" || s[|s| - 1] != '=' then s else
    var t := s[..|s| - 1];
    if t == "" || t[|t| - 1] != '=' then t else t[..|t| - 1]
  }

  const WORD_LIMIT: nat := 0x1_0000_0000

  /** `accumulator << 6 | value` in 32 bits. */
  function Shifted(accumulator: nat, value: nat): nat { (accumulator * 64 % WORD_LIMIT + value) % WORD_LIMIT }

  /** The decoding loop: `bits` bits of the 32-bit accumulator are not yet written. */
  function Sextets(s: string, p: nat, accumulator: nat, bits: nat): Option<seq<Byte>>
    requires p <= |s| && bits < 8
    decreases |s| - p
  {
    if p == |s| then Some([]) else
    var value := Base64Value(s[p]);
    if value < 0 then None else
    var next := Shifted(accumulator, value);
    if bits + 6 < 8 then Sextets(s, p + 1, next, bits + 6) else
    var rest := Sextets(s, p + 1, next, bits - 2);
    if rest.None? then None else Some([next / Power2(bits - 2) % 256] + rest.value)
  }

  function Base64Bytes(text: string): Option<seq<Byte>> {
    var compact := NoBlanks(text);
    if compact == "" || |compact| % 4 != 0 then None else Sextets(Unpadded(compact), 0, 0, 0)
  }

  // --- Which of the two ----------------------------------------------------------------------------

  datatype Format = Hex | Base64

  datatype Blob = Decoded(bytes: seq<Byte>, format: Format) | EmptyValue | OddDigits(count: nat) | NeitherForm

  predicate IsCper(bytes: seq<Byte>) {
    |bytes| >= 4 && bytes[0] == 'C' as int && bytes[1] == 'P' as int && bytes[2] == 'E' as int && bytes[3] == 'R' as int
  }

  function ParseBlob(text: string): Blob {
    if forall c <- text :: IsBlank(c) then EmptyValue else
    var compact := CompactHex(text, 0);
    var hex: Option<seq<Byte>> := if AllHex(compact) && |compact| % 2 == 0 then Some(HexBytes(compact)) else None;
    var base64 := Base64Bytes(text);
    if base64.Some? && IsCper(base64.value) && !(hex.Some? && IsCper(hex.value)) then Decoded(base64.value, Base64)
    else if hex.Some? then Decoded(hex.value, Hex)
    else if base64.Some? then Decoded(base64.value, Base64)
    else if AllHex(compact) then OddDigits(|compact|)
    else NeitherForm
  }

  lemma {:induction false} CperTells(bytes: seq<Byte>)
    ensures IsCper(bytes) <==> |bytes| >= 4 && bytes[..4] == [0x43, 0x50, 0x45, 0x52]
  {
    if |bytes| >= 4 { assert bytes[..4] == [bytes[0], bytes[1], bytes[2], bytes[3]]; }
  }

  lemma {:induction false} SextetsRead(s: string, p: nat, accumulator: nat, bits: nat)
    requires p <= |s| && bits < 8 && Sextets(s, p, accumulator, bits).Some?
    ensures forall i | p <= i < |s| :: Base64Value(s[i]) >= 0
    decreases |s| - p
  {
    if p < |s| {
      SextetsRead(s, p + 1, Shifted(accumulator, Base64Value(s[p])), if bits + 6 < 8 then bits + 6 else bits - 2);
    }
  }

  /** Only whole groups of four characters are read as base64, and but for the last two they are all
      of its alphabet. */
  lemma {:induction false} Base64Needs(text: string)
    requires Base64Bytes(text).Some?
    ensures var s := NoBlanks(text); |s| > 0 && |s| % 4 == 0 && forall i | 0 <= i < |s| - 2 :: Base64Value(s[i]) >= 0
  {
    var s := NoBlanks(text);
    SextetsRead(Unpadded(s), 0, 0, 0);
    forall i | 0 <= i < |s| - 2 ensures Base64Value(s[i]) >= 0 { assert Unpadded(s)[i] == s[i]; }
  }

  /** What is refused and why: nothing but blanks, digits that do not pair up, or text of neither
      form. */
  lemma {:induction false} RefusalTells(text: string)
    ensures ParseBlob(text).EmptyValue? <==> forall c <- text :: IsBlank(c)
    ensures ParseBlob(text).OddDigits? ==>
              var digits := CompactHex(text, 0);
              && ParseBlob(text).count == |digits| && |digits| % 2 == 1 && forall c <- digits :: HexValue(c) >= 0
    ensures ParseBlob(text).NeitherForm? ==>
              var digits := CompactHex(text, 0); digits == "" || exists c <- digits :: HexValue(c) < 0
    ensures ParseBlob(text).OddDigits? || ParseBlob(text).NeitherForm? ==> Base64Bytes(text).None?
  {
    var digits := CompactHex(text, 0);
    if ParseBlob(text).OddDigits? {
      forall c | c in digits ensures HexValue(c) >= 0 { var i :| 0 <= i < |digits| && digits[i] == c; }
    } else if ParseBlob(text).NeitherForm? && digits != "" {
      var i :| 0 <= i < |digits| && !(0 <= HexValue(digits[i]) < 16);
      assert digits[i] in digits;
    }
  }

  // --- Hex text, however it is laid out ------------------------------------------------------------

  /** A pasted hex dump, piece by piece. */
  datatype Piece = Separator(c: char) | Prefix(x: char) | Digit(c: char)

  predicate ProperPiece(p: Piece) {
    match p
    case Separator(c) => Separates(c)
    case Prefix(x) => x == 'x' || x == 'X'
    case Digit(c) => HexValue(c) >= 0
  }

  function PieceText(p: Piece): string {
    match p
    case Separator(c) => [c]
    case Prefix(x) => ['0', x]
    case Digit(c) => [c]
  }

  function PiecesText(pieces: seq<Piece>): string {
    if pieces == [] then "" else PieceText(pieces[0]) + PiecesText(pieces[1..])
  }

  function PiecesDigits(pieces: seq<Piece>): string {
    if pieces == [] then "" else
    (if pieces[0].Digit? then [pieces[0].c] else "") + PiecesDigits(pieces[1..])
  }

  /** The digits spell the bytes, in either case. */
  predicate Spells(digits: string, bytes: seq<Byte>) {
    |digits| == 2 * |bytes| && ValidDigits(digits, 16)
    && forall i | 0 <= i < |bytes| :: HexValue(digits[2 * i]) * 16 + HexValue(digits[2 * i + 1]) == bytes[i]
  }

  lemma {:induction false} CompactPieces(text: string, p: nat, pieces: seq<Piece>)
    requires p <= |text| && text[p..] == PiecesText(pieces) && forall x <- pieces :: ProperPiece(x)
    ensures CompactHex(text, p) == PiecesDigits(pieces)
    decreases pieces
  {
    if pieces != [] {
      var x, more := pieces[0], pieces[1..];
      var t := PieceText(x);
      assert ProperPiece(x);
      assert text[p..] == t + PiecesText(more);
      assert text[p] == t[0] && (|t| == 2 ==> text[p + 1] == t[1]);
      assert text[p + |t|..] == text[p..][|t|..];
      CompactPieces(text, p + |t|, more);
      if more != [] && x.Digit? { PieceStarts(more); assert text[p + 1] == text[p..][1] == PiecesText(more)[0]; }
    }
  }

  /** No piece starts with an x, so a digit 0 and the next piece do not look like a prefix. */
  lemma {:induction false} PieceStarts(pieces: seq<Piece>)
    requires pieces != [] && forall x <- pieces :: ProperPiece(x)
    ensures PiecesText(pieces) != "" && PiecesText(pieces)[0] != 'x' && PiecesText(pieces)[0] != 'X'
  {
    assert ProperPiece(pieces[0]);
  }

  lemma {:induction false} SpelledBytes(digits: string, bytes: seq<Byte>)
    requires Spells(digits, bytes)
    ensures HexBytes(digits) == bytes
  {
    if bytes != [] {
      assert HexValue(digits[2 * 0]) * 16 + HexValue(digits[2 * 0 + 1]) == bytes[0];
      forall i | 0 <= i < |bytes| - 1
        ensures HexValue(digits[2..][2 * i]) * 16 + HexValue(digits[2..][2 * i + 1]) == bytes[1..][i]
      {
        assert HexValue(digits[2 * (i + 1)]) * 16 + HexValue(digits[2 * (i + 1) + 1]) == bytes[i + 1];
      }
      SpelledBytes(digits[2..], bytes[1..]);
    }
  }

  // --- A CPER record in base64 starts with Q --------------------------------------------------

  lemma {:induction false} NoBlanksFrom(text: string)
    ensures forall c <- NoBlanks(text) :: c in text && !IsBlank(c)
  {
    if text != "" {
      NoBlanksFrom(text[..|text| - 1]);
      assert text == text[..|text| - 1] + [text[|text| - 1]];
    }
  }

  lemma {:induction false} UnpaddedPrefix(s: string)
    ensures Unpadded(s) <= s
  {
  }

  lemma {:induction false} Shifts()
    ensures Power2(0) == 1 && Power2(2) == 4 && Power2(4) == 16
  {
    assert Power2(1) == 2 * Power2(0) && Power2(2) == 2 * Power2(1) && Power2(3) == 2 * Power2(2);
  }

  /** One character of the loop, at each of the four phases. */
  lemma {:induction false} SextetStep(s: string, p: nat, accumulator: nat, bits: nat)
    requires p < |s| && Base64Value(s[p]) >= 0 && bits in {0, 2, 4, 6}
    ensures var next := Shifted(accumulator, Base64Value(s[p]));
            && (bits == 0 ==> Sextets(s, p, accumulator, bits) == Sextets(s, p + 1, next, 6))
            && (bits == 6 ==> Sextets(s, p, accumulator, bits) == Put(next / 16 % 256, Sextets(s, p + 1, next, 4)))
            && (bits == 4 ==> Sextets(s, p, accumulator, bits) == Put(next / 4 % 256, Sextets(s, p + 1, next, 2)))
            && (bits == 2 ==> Sextets(s, p, accumulator, bits) == Put(next / 1 % 256, Sextets(s, p + 1, next, 0)))
  {
    Shifts();
  }

  ghost function Put(byte: Byte, rest: Option<seq<Byte>>): Option<seq<Byte>> {
    if rest.None? then None else Some([byte] + rest.value)
  }

  /** The bits above a sextet wrap away without a trace in the byte that is written. */
  lemma {:induction false} ShiftedBits(accumulator: nat, v: nat)
    requires v < 64
    ensures Shifted(accumulator, v) % 64 == v && Shifted(accumulator, v) / 64 % 0x400_0000 == accumulator % 0x400_0000
  {
    var low := accumulator % 0x400_0000;
    Quotient(accumulator * 64, WORD_LIMIT, accumulator / 0x400_0000, low * 64);
    Quotient(low * 64 + v, WORD_LIMIT, 0, low * 64 + v);
    Quotient(low * 64 + v, 64, low, v);
  }

  lemma {:induction false} LowSextets(accumulator: nat, u: nat, v: nat)
    requires u < 64 && v < 64 && accumulator % 64 == u
    ensures Shifted(accumulator, v) % 4096 == u * 64 + v
  {
    ShiftedBits(accumulator, v);
    var next := Shifted(accumulator, v);
    LowOfLow(next / 64);
    LowOfLow(accumulator);
    Quotient(next, 4096, next / 64 / 64, next / 64 % 64 * 64 + v);
  }

  lemma {:induction false} LowOfLow(n: nat)
    ensures n % 0x400_0000 % 64 == n % 64
  {
    Quotient(n, 64, n / 0x400_0000 * 0x10_0000 + n % 0x400_0000 / 64, n % 0x400_0000 % 64);
  }

  lemma {:induction false} ByteFromLow(next: nat, r: nat)
    requires next % 4096 == r
    ensures next / 16 % 256 == r / 16 && next / 4 % 256 == r / 4 % 256 && next / 1 % 256 == r % 256
  {
    var k := next / 4096;
    Quotient(next, 16, 256 * k + r / 16, r % 16);
    Quotient(256 * k + r / 16, 256, k, r / 16);
    Quotient(next, 4, 1024 * k + r / 4, r % 4);
    Quotient(1024 * k + r / 4, 256, 4 * k + r / 4 / 256, r / 4 % 256);
    Quotient(next, 256, 16 * k + r / 256, r % 256);
  }

  /** The first two characters decide the first byte. */
  lemma {:induction false} FirstByte(s: string)
    requires Sextets(s, 0, 0, 0).Some? && Sextets(s, 0, 0, 0).value != []
    ensures |s| >= 2 && Base64Value(s[0]) >= 0 && Base64Value(s[1]) >= 0
    ensures Sextets(s, 0, 0, 0).value[0] == Base64Value(s[0]) * 4 + Base64Value(s[1]) / 16
  {
    SextetStep(s, 0, 0, 0);
    var u := Base64Value(s[0]);
    var first := Shifted(0, u);
    if |s| >= 2 {
      SextetStep(s, 1, first, 6);
      var v := Base64Value(s[1]);
      ShiftedBits(0, u);
      LowSextets(first, u, v);
      ByteFromLow(Shifted(first, v), u * 64 + v);
    }
  }

  lemma {:induction false} CperStartsWithQ(text: string)
    requires Base64Bytes(text).Some? && IsCper(Base64Bytes(text).value)
    ensures 'Q' in text
  {
    var compact := NoBlanks(text);
    var s := Unpadded(compact);
    UnpaddedPrefix(compact);
    FirstByte(s);
    assert Base64Value(s[0]) == 16;
    assert compact[0] == 'Q';
    NoBlanksFrom(text);
    assert compact[0] in compact;
  }

  lemma {:induction false} PiecesNeverQ(pieces: seq<Piece>)
    requires forall x <- pieces :: ProperPiece(x)
    ensures 'Q' !in PiecesText(pieces)
  {
    if pieces != [] {
      assert ProperPiece(pieces[0]);
      PiecesNeverQ(pieces[1..]);
    }
  }

  lemma {:induction false} DigitInText(pieces: seq<Piece>)
    requires (forall x <- pieces :: ProperPiece(x)) && PiecesDigits(pieces) != ""
    ensures exists c <- PiecesText(pieces) :: !IsBlank(c)
  {
    var x := pieces[0];
    assert ProperPiece(x);
    if x.Digit? {
      assert x.c in PiecesText(pieces);
    } else {
      DigitInText(pieces[1..]);
      var c :| c in PiecesText(pieces[1..]) && !IsBlank(c);
      assert c in PiecesText(pieces);
    }
  }

  /** The hex digits of any nonempty byte string, with any separators and 0x prefixes
      anywhere between them, are read as hex and as that byte string. */
  lemma {:induction false} HexPasteReads(pieces: seq<Piece>, bytes: seq<Byte>)
    requires (forall x <- pieces :: ProperPiece(x)) && bytes != [] && Spells(PiecesDigits(pieces), bytes)
    ensures ParseBlob(PiecesText(pieces)) == Decoded(bytes, Hex)
  {
    var text := PiecesText(pieces);
    assert text[0..] == text;
    CompactPieces(text, 0, pieces);
    SpelledBytes(PiecesDigits(pieces), bytes);
    DigitInText(pieces);
    PiecesNeverQ(pieces);
    HexWins(text, bytes);
  }

  lemma {:induction false} HexWins(text: string, bytes: seq<Byte>)
    requires 'Q' !in text && exists c <- text :: !IsBlank(c)
    requires AllHex(CompactHex(text, 0)) && |CompactHex(text, 0)| % 2 == 0 && HexBytes(CompactHex(text, 0)) == bytes
    ensures ParseBlob(text) == Decoded(bytes, Hex)
  {
    if Base64Bytes(text).Some? && IsCper(Base64Bytes(text).value) { CperStartsWithQ(text);}
  }

  // --- Base64 text (RFC 4648, section 4) ---------------------------------------------------------

  function Base64Char(v: nat): char
    requires v < 64
  {
    if v < 26 then ('A' as int + v) as char
    else if v < 52 then ('a' as int + v - 26) as char
    else if v < 62 then ('0' as int + v - 52) as char
    else if v == 62 then '+' else '/'
  }

  function Group(a: Byte, b: Byte, c: Byte): string {
    [ Base64Char(a / 4), Base64Char(a % 4 * 16 + b / 16), Base64Char(b % 16 * 4 + c / 64), Base64Char(c % 64) ]
  }

  function Base64Text(bytes: seq<Byte>): string {
    if bytes == [] then ""
    else if |bytes| == 1 then Group(bytes[0], 0, 0)[..2] + "=="
    else if |bytes| == 2 then Group(bytes[0], bytes[1], 0)[..3] + "="
    else Group(bytes[0], bytes[1], bytes[2]) + Base64Text(bytes[3..])
  }

  /** The characters without the padding. */
  function Base64Body(bytes: seq<Byte>): string {
    if bytes == [] then ""
    else if |bytes| == 1 then Group(bytes[0], 0, 0)[..2]
    else if |bytes| == 2 then Group(bytes[0], bytes[1], 0)[..3]
    else Group(bytes[0], bytes[1], bytes[2]) + Base64Body(bytes[3..])
  }

  lemma {:induction false} CharReads(v: nat)
    requires v < 64
    ensures Base64Value(Base64Char(v)) == v && !IsBlank(Base64Char(v)) && Base64Char(v) != '='
  {
  }


  /** Two, three or four characters of a group, read from between bytes: `acc` is whatever
      the accumulator holds. */
  lemma {:induction false} GroupReads(s: string, p: nat, acc: nat, a: Byte, b: Byte, c: Byte, n: nat)
      returns (next: nat)
    requires 2 <= n <= 4 && p + n <= |s| && s[p..p + n] == Group(a, b, c)[..n]
    ensures n == 4 ==> Sextets(s, p, acc, 0) == Put(a, Put(b, Put(c, Sextets(s, p + 4, next, 0))))
    ensures n == 3 && p + 3 == |s| ==> Sextets(s, p, acc, 0) == Put(a, Put(b, Some([])))
    ensures n == 2 && p + 2 == |s| ==> Sextets(s, p, acc, 0) == Put(a, Some([]))
  {
    var v0, v1, v2, v3 := a / 4, a % 4 * 16 + b / 16, b % 16 * 4 + c / 64, c % 64;
    GroupChars(s, p, a, b, c, n);
    var n0 := Shifted(acc, v0);
    var n1 := Shifted(n0, v1);
    var n2 := Shifted(n1, v2);
    next := Shifted(n2, v3);
    SextetStep(s, p, acc, 0);
    SextetStep(s, p + 1, n0, 6);
    GroupBytes(acc, a, b, c);
    if n >= 3 { SextetStep(s, p + 2, n1, 4); }
    if n == 4 { SextetStep(s, p + 3, n2, 2); }
  }

  lemma {:induction false} GroupChars(s: string, p: nat, a: Byte, b: Byte, c: Byte, n: nat)
    requires 2 <= n <= 4 && p + n <= |s| && s[p..p + n] == Group(a, b, c)[..n]
    ensures Base64Value(s[p]) == a / 4 && Base64Value(s[p + 1]) == a % 4 * 16 + b / 16
    ensures n >= 3 ==> Base64Value(s[p + 2]) == b % 16 * 4 + c / 64
    ensures n == 4 ==> Base64Value(s[p + 3]) == c % 64
  {
    var g := Group(a, b, c);
    assert s[p..p + n][0] == g[0] && s[p..p + n][1] == g[1];
    assert n >= 3 ==> s[p..p + n][2] == g[2];
    assert n == 4 ==> s[p..p + n][3] == g[3];
    CharReads(a / 4);
    CharReads(a % 4 * 16 + b / 16);
    CharReads(b % 16 * 4 + c / 64);
    CharReads(c % 64);
  }

  /** What one more sextet leaves in the low bits. */
  lemma {:induction false} NextSextet(acc: nat, u: nat, v: nat)
    requires u < 64 && v < 64 && acc % 64 == u
    ensures var next := Shifted(acc, v); var r := u * 64 + v;
            next % 64 == v && next / 16 % 256 == r / 16 && next / 4 % 256 == r / 4 % 256 && next / 1 % 256 == r % 256
  {
    ShiftedBits(acc, v);
    LowSextets(acc, u, v);
    ByteFromLow(Shifted(acc, v), u * 64 + v);
  }

  /** The three bytes in the four sextets. */
  lemma {:induction false} SextetBytes(a: Byte, b: Byte, c: Byte)
    ensures var v0, v1, v2, v3 := a / 4, a % 4 * 16 + b / 16, b % 16 * 4 + c / 64, c % 64;
            (v0 * 64 + v1) / 16 == a && (v1 * 64 + v2) / 4 % 256 == b && (v2 * 64 + v3) % 256 == c
  {
    assert a / 4 * 64 + (a % 4 * 16 + b / 16) == 16 * a + b / 16;
    Quotient(16 * a + b / 16, 16, a, b / 16);
    assert (a % 4 * 16 + b / 16) * 64 + (b % 16 * 4 + c / 64) == 4 * (256 * (a % 4) + b) + c / 64;
    Quotient(4 * (256 * (a % 4) + b) + c / 64, 4, 256 * (a % 4) + b, c / 64);
    Quotient(256 * (a % 4) + b, 256, a % 4, b);
    assert (b % 16 * 4 + c / 64) * 64 + c % 64 == 256 * (b % 16) + c;
    Quotient(256 * (b % 16) + c, 256, b % 16, c);
  }

  /** The bytes written along a group. */
  lemma {:induction false} GroupBytes(acc: nat, a: Byte, b: Byte, c: Byte)
    ensures var v0, v1, v2, v3 := a / 4, a % 4 * 16 + b / 16, b % 16 * 4 + c / 64, c % 64;
            var n0 := Shifted(acc, v0); var n1 := Shifted(n0, v1); var n2 := Shifted(n1, v2);
            && n1 / 16 % 256 == a && n2 / 4 % 256 == b && Shifted(n2, v3) / 1 % 256 == c
  {
    var v0, v1, v2, v3 := a / 4, a % 4 * 16 + b / 16, b % 16 * 4 + c / 64, c % 64;
    var n0 := Shifted(acc, v0);
    var n1 := Shifted(n0, v1);
    SextetBytes(a, b, c);
    ShiftedBits(acc, v0);
    NextSextet(n0, v0, v1);
    NextSextet(n1, v1, v2);
    NextSextet(Shifted(n1, v2), v2, v3);
  }

  lemma {:induction false} BodyReads(s: string, p: nat, acc: nat, bytes: seq<Byte>)
    requires p <= |s| && s[p..] == Base64Body(bytes)
    ensures Sextets(s, p, acc, 0) == Some(bytes)
    decreases bytes
  {
    if |bytes| == 1 {
      TailStarts(s, p, Group(bytes[0], 0, 0), 2, "");
      var next := GroupReads(s, p, acc, bytes[0], 0, 0, 2);
      assert bytes == [bytes[0]] + [];
    } else if |bytes| == 2 {
      TailStarts(s, p, Group(bytes[0], bytes[1], 0), 3, "");
      var next := GroupReads(s, p, acc, bytes[0], bytes[1], 0, 3);
      assert bytes == [bytes[0]] + ([bytes[1]] + []);
    } else if |bytes| >= 3 {
      var next := WholeGroup(s, p, acc, bytes, Base64Body(bytes[3..]));
      BodyReads(s, p + 4, next, bytes[3..]);
      assert bytes == [bytes[0]] + ([bytes[1]] + ([bytes[2]] + bytes[3..]));
    }
  }

  lemma {:induction false} WholeGroup(s: string, p: nat, acc: nat, bytes: seq<Byte>, rest: string) returns (next: nat)
    requires p <= |s| && |bytes| >= 3 && s[p..] == Group(bytes[0], bytes[1], bytes[2]) + rest
    ensures p + 4 <= |s| && s[p + 4..] == rest
    ensures Sextets(s, p, acc, 0) == Put(bytes[0], Put(bytes[1], Put(bytes[2], Sextets(s, p + 4, next, 0))))
  {
    TailStarts(s, p, Group(bytes[0], bytes[1], bytes[2]), 4, rest);
    next := GroupReads(s, p, acc, bytes[0], bytes[1], bytes[2], 4);
  }

  lemma {:induction false} TailStarts(s: string, p: nat, g: string, n: nat, rest: string)
    requires p <= |s| && n <= |g| && s[p..] == g[..n] + rest
    ensures p + n <= |s| && s[p..p + n] == g[..n] && s[p + n..] == rest && (rest == "" ==> p + n == |s|)
  {
    assert s[p..p + n] == s[p..][..n];
    assert s[p + n..] == s[p..][n..];
  }

  predicate NoPadding(s: string) { forall c <- s :: c != '=' && !IsBlank(c) }

  lemma {:induction false} GroupNoPadding(a: Byte, b: Byte, c: Byte)
    ensures NoPadding(Group(a, b, c))
  {
    CharReads(a / 4);
    CharReads(a % 4 * 16 + b / 16);
    CharReads(b % 16 * 4 + c / 64);
    CharReads(c % 64);
  }

  ghost predicate Padded(text: string, body: string) {
    NoPadding(body) && |text| % 4 == 0 && (text == body || text == body + "=" || text == body + "==")
  }

  lemma {:induction false} MorePadded(g: string, text: string, body: string)
    requires Padded(text, body) && NoPadding(g) && |g| == 4
    ensures Padded(g + text, g + body)
  {
    assert g + (body + "=") == g + body + "=" && g + (body + "==") == g + body + "==";
  }

  lemma {:induction false} TextIsPaddedBody(bytes: seq<Byte>)
    ensures Padded(Base64Text(bytes), Base64Body(bytes)) && (bytes != [] ==> Base64Body(bytes) != "")
  {
    if |bytes| == 1 {
      GroupNoPadding(bytes[0], 0, 0);
    } else if |bytes| == 2 {
      GroupNoPadding(bytes[0], bytes[1], 0);
    } else if |bytes| >= 3 {
      GroupNoPadding(bytes[0], bytes[1], bytes[2]);
      TextIsPaddedBody(bytes[3..]);
      MorePadded(Group(bytes[0], bytes[1], bytes[2]), Base64Text(bytes[3..]), Base64Body(bytes[3..]));
    }
  }

  lemma {:induction false} PaddingComesOff(body: string, text: string)
    requires Padded(text, body)
    ensures Unpadded(text) == body
  {
    if body != "" { assert body[|body| - 1] in body; }
    assert (body + "=")[..|body|] == body;
    assert (body + "==")[..|body| + 1] == body + "=";
  }

  /** Whatever white space is put into the base64 text of a nonempty byte string, the
      decoder gives the byte string. */
  lemma {:induction false} Base64Reads(text: string, bytes: seq<Byte>)
    requires bytes != [] && NoBlanks(text) == Base64Text(bytes)
    ensures Base64Bytes(text) == Some(bytes)
  {
    var body := Base64Body(bytes);
    TextIsPaddedBody(bytes);
    PaddingComesOff(body, Base64Text(bytes));
    assert body[0..] == body;
    BodyReads(body, 0, 0, bytes);
  }

  lemma {:induction false} KeptNonHex(text: string, p: nat, c: char)
    requires p <= |text| && c in text[p..] && !Separates(c) && HexValue(c) < 0 && c != 'x' && c != 'X'
    ensures c in CompactHex(text, p)
    decreases |text| - p
  {
    var i :| 0 <= i < |text| - p && text[p..][i] == c;
    assert text[p + i] == c;
    if i > 0 {
      assert text[p + 1..][i - 1] == c;
      if !Separates(text[p]) && text[p] == '0' && p + 1 < |text| && (text[p + 1] == 'x' || text[p + 1] == 'X') {
        assert i != 1 && text[p + 2..][i - 2] == c;
        KeptNonHex(text, p + 2, c);
      } else {
        KeptNonHex(text, p + 1, c);
      }
    }
  }

  /** The base64 text of any record that starts with CPER, with white space anywhere in it,
      is read as base64 and as that record, although hex is tried first. */
  lemma {:induction false} Base64PasteReads(text: string, bytes: seq<Byte>)
    requires IsCper(bytes) && NoBlanks(text) == Base64Text(bytes)
    ensures ParseBlob(text) == Decoded(bytes, Base64)
  {
    Base64Reads(text, bytes);
    CperStartsWithQ(text);
    assert text[0..] == text;
    KeptNonHex(text, 0, 'Q');
    var compact := CompactHex(text, 0);
    var i :| 0 <= i < |compact| && compact[i] == 'Q';
    assert !ValidDigits(compact, 16);
    assert !IsBlank('Q');
  }

  lemma {:induction false} BlankHasNothing(text: string)
    requires forall c <- text :: IsBlank(c)
    ensures NoBlanks(text) == ""
  {
    if text != "" {
      var n := |text| - 1;
      assert text[n] in text && forall c <- text[..n] :: c in text;
      BlankHasNothing(text[..n]);
    }
  }

  predicate IsHexText(text: string) { AllHex(CompactHex(text, 0)) && |CompactHex(text, 0)| % 2 == 0 }

  /** The base64 text of any nonempty byte string, with white space anywhere in it, is read as
      base64 exactly when the bytes start with CPER or the text is not an even number of hex
      digits as well; otherwise it is read as those. */
  lemma {:induction false} Base64Wins(text: string, bytes: seq<Byte>)
    requires bytes != [] && NoBlanks(text) == Base64Text(bytes)
    ensures ParseBlob(text) == Decoded(bytes, Base64) <==> IsCper(bytes) || !IsHexText(text)
    ensures ParseBlob(text) != Decoded(bytes, Base64) ==> ParseBlob(text) == Decoded(HexBytes(CompactHex(text, 0)), Hex)
  {
    Base64Reads(text, bytes);
    TextIsPaddedBody(bytes);
    if forall c <- text :: IsBlank(c) { BlankHasNothing(text); }
    if IsCper(bytes) { Base64PasteReads(text, bytes); }
  }

  lemma {:induction false} DigitIsPlain(c: char)
    requires 0 <= HexValue(c) < 16
    ensures !Separates(c) && c != 'x' && c != 'X'
  {
  }

  lemma {:induction false} DigitsAreCompact(text: string, p: nat)
    requires p <= |text| && ValidDigits(text, 16)
    ensures CompactHex(text, p) == text[p..]
    decreases |text| - p
  {
    if p < |text| {
      DigitsAreCompact(text, p + 1);
      DigitIsPlain(text[p]);
      if p + 1 < |text| { DigitIsPlain(text[p + 1]); }
    }
  }

  lemma {:induction false} DigitsHaveNoBlanks(text: string)
    requires ValidDigits(text, 16)
    ensures NoBlanks(text) == text
  {
    if text != "" {
      var n := |text| - 1;
      DigitsHaveNoBlanks(text[..n]);
      DigitIsPlain(text[n]);
      assert text == text[..n] + [text[n]];
    }
  }

  /** Base64 text that consists of hex digits is read as those. */
  lemma {:induction false} Base64LooksLikeHex(bytes: seq<Byte>, text: string)
    requires bytes != [] && text == Base64Text(bytes) && ValidDigits(text, 16)
    ensures ParseBlob(text) == Decoded(HexBytes(text), Hex)
  {
    DigitsHaveNoBlanks(text);
    TextIsPaddedBody(bytes);
    DigitsAreCompact(text, 0);
    assert CompactHex(text, 0) == text;
    Halves(|text|);
    if IsCper(bytes) { CperIsNoHex(text, bytes); }
    Base64Wins(text, bytes);
  }

  lemma {:induction false} Halves(n: nat)
    ensures n % 4 == 0 ==> n % 2 == 0
  {
    if n >= 4 { Halves(n - 4); }
  }

  lemma {:induction false} CperIsNoHex(text: string, bytes: seq<Byte>)
    requires IsCper(bytes) && NoBlanks(text) == Base64Text(bytes)
    ensures !ValidDigits(text, 16)
  {
    Base64Reads(text, bytes);
    CperStartsWithQ(text);
    var i :| 0 <= i < |text| && text[i] == 'Q';
  }

  /** The bytes 0x69, 0xB7 and 0x1D have such a text. */
  lemma {:induction false} ShortBase64IsHex()
    ensures Base64Text([0x69, 0xB7, 0x1D]) == "abcd" && ParseBlob("abcd") == Decoded([0xAB, 0xCD], Hex)
  {
    var bytes: seq<Byte> := [0x69, 0xB7, 0x1D];
    ThreeBytes(bytes);
    GroupIs("abcd");
    ReadAsHex(bytes, "abcd");
  }

  lemma {:induction false} GroupIs(s: string)
    requires s == "abcd"
    ensures Group(0x69, 0xB7, 0x1D) == s && |s| == 4 && ValidDigits(s, 16)
  {
  }

  lemma {:induction false} ThreeBytes(bytes: seq<Byte>)
    requires |bytes| == 3
    ensures Base64Text(bytes) == Group(bytes[0], bytes[1], bytes[2])
  {
    assert bytes[3..] == [] && Base64Text([]) == "";
  }

  lemma {:induction false} ReadAsHex(bytes: seq<Byte>, s: string)
    requires bytes != [] && Base64Text(bytes) == s && |s| == 4 && ValidDigits(s, 16)
    ensures ParseBlob(s)
         == Decoded([HexValue(s[0]) * 16 + HexValue(s[1]), HexValue(s[2]) * 16 + HexValue(s[3])], Hex)
  {
    FourDigits(s);
    Base64LooksLikeHex(bytes, s);
  }

  lemma {:induction false} FourDigits(s: string)
    requires |s| == 4 && ValidDigits(s, 16)
    ensures HexBytes(s) == [HexValue(s[0]) * 16 + HexValue(s[1]), HexValue(s[2]) * 16 + HexValue(s[3])]
  {
    assert HexBytes(s[2..][2..]) == [];
  }

  // --- The loops ------------------------------------------------------------------------------

  method DoCompactHex(text: string) returns (out: string)
    ensures out == CompactHex(text, 0)
  {
    out := "";
    var i := 0;
    while i < |text|
      invariant i <= |text| && out + CompactHex(text, i) == CompactHex(text, 0)
    {
      var c := text[i];
      if Separates(c) {
        i := i + 1;
        continue;
      }
      if c == '0' && i + 1 < |text| && (text[i + 1] == 'x' || text[i + 1] == 'X') {
        i := i + 2;
        continue;
      }
      assert out + ([c] + CompactHex(text, i + 1)) == out + [c] + CompactHex(text, i + 1);
      out := out + [c];
      i := i + 1;
    }
    assert out + "" == out;
  }

  method DoHexBytes(compact: string) returns (bytes: seq<Byte>)
    requires ValidDigits(compact, 16)
    ensures bytes == HexBytes(compact)
  {
    bytes := [];
    var i := 0;
    while i + 1 < |compact|
      invariant i <= |compact| && bytes + HexBytes(compact[i..]) == HexBytes(compact)
    {
      var high, low := HexValue(compact[i]), HexValue(compact[i + 1]);
      HexStep(compact, i, bytes);
      bytes := bytes + [high * 16 + low];
      i := i + 2;
    }
    assert bytes + [] == bytes;
  }

  lemma {:induction false} HexStep(compact: string, i: nat, bytes: seq<Byte>)
    requires ValidDigits(compact, 16) && i + 1 < |compact|
    ensures bytes + HexBytes(compact[i..])
         == bytes + [HexValue(compact[i]) * 16 + HexValue(compact[i + 1])] + HexBytes(compact[i + 2..])
  {
    assert compact[i..][2..] == compact[i + 2..];
    var byte: Byte := HexValue(compact[i]) * 16 + HexValue(compact[i + 1]);
    assert HexBytes(compact[i..]) == [byte] + HexBytes(compact[i + 2..]);
    assert bytes + ([byte] + HexBytes(compact[i + 2..])) == bytes + [byte] + HexBytes(compact[i + 2..]);
  }

  /** What is written before a point of the decoding loop and what is still to come. */
  ghost function After(out: seq<Byte>, rest: Option<seq<Byte>>): Option<seq<Byte>> {
    if rest.None? then None else Some(out + rest.value)
  }

  lemma {:induction false} AfterPut(out: seq<Byte>, byte: Byte, rest: Option<seq<Byte>>)
    ensures After(out, Put(byte, rest)) == After(out + [byte], rest)
  {
    if rest.Some? { assert out + ([byte] + rest.value) == out + [byte] + rest.value; }
  }

  method DoSextets(s: string) returns (r: Option<seq<Byte>>)
    ensures r == Sextets(s, 0, 0, 0)
  {
    var accumulator: nat, bits: nat := 0, 0;
    var out: seq<Byte> := [];
    assert Sextets(s, 0, 0, 0).Some? ==> [] + Sextets(s, 0, 0, 0).value == Sextets(s, 0, 0, 0).value;
    for p := 0 to |s|
      invariant bits in {0, 2, 4, 6}
      invariant Sextets(s, 0, 0, 0) == After(out, Sextets(s, p, accumulator, bits))
    {
      var value := Base64Value(s[p]);
      if value < 0 { return None; }
      SextetStep(s, p, accumulator, bits);
      accumulator := Shifted(accumulator, value);
      bits := bits + 6;
      if bits >= 8 {
        bits := bits - 8;
        Shifts();
        var byte := accumulator / Power2(bits) % 256;
        AfterPut(out, byte, Sextets(s, p + 1, accumulator, bits));
        out := out + [byte];
      }
    }
    assert out + [] == out;
    return Some(out);
  }

  method DoBase64(text: string) returns (r: Option<seq<Byte>>)
    ensures r == Base64Bytes(text)
  {
    var compact := "";
    for i := 0 to |text|
      invariant compact == NoBlanks(text[..i])
    {
      assert text[..i + 1][..i] == text[..i];
      if !IsBlank(text[i]) { compact := compact + [text[i]]; }
    }
    assert text[..|text|] == text;
    if compact == "" || |compact| % 4 != 0 { return None; }
    r := DoSextets(Unpadded(compact));
  }

  method Parse(text: string) returns (blob: Blob)
    ensures blob == ParseBlob(text)
  {
    if forall c <- text :: IsBlank(c) { return EmptyValue; }
    var compact := DoCompactHex(text);
    var hex: Option<seq<Byte>> := None;
    if AllHex(compact) && |compact| % 2 == 0 {
      var bytes := DoHexBytes(compact);
      hex := Some(bytes);
    }
    var base64 := DoBase64(text);
    if base64.Some? && IsCper(base64.value) && !(hex.Some? && IsCper(hex.value)) {
      return Decoded(base64.value, Base64);
    }
    if hex.Some? { return Decoded(hex.value, Hex); }
    if base64.Some? { return Decoded(base64.value, Base64); }
    if AllHex(compact) { return OddDigits(|compact|); }
    return NeitherForm;
  }
}
