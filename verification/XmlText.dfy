/** What the XML reader makes of entities and character references: text in which any character
    is spelled out as one of them decodes to the text meant. */
module XmlText {
  import opened Arithmetic
  import opened Integers
  import opened Text
  import opened Xml

  // --- Octets of a code point --------------------------------------------------------------

  lemma {:induction false} TwoOctets(mark: nat, code: nat)
    requires mark <= 0xF0
    ensures Octets(mark, code, 1) == [(mark + code / 64 % 64) as char, (0x80 + code % 64) as char]
  {
    assert Octets(mark, code / 64, 0) == [(mark + code / 64 % 64) as char];
  }

  lemma {:induction false} ThreeOctets(mark: nat, code: nat)
    requires mark <= 0xF0
    ensures Octets(mark, code, 2)
         == [(mark + code / 64 / 64 % 64) as char, (0x80 + code / 64 % 64) as char, (0x80 + code % 64) as char]
  {
    TwoOctets(mark, code / 64);
  }

  lemma {:induction false} FourOctets(mark: nat, code: nat)
    requires mark <= 0xF0
    ensures Octets(mark, code, 3)
         == [(mark + code / 64 / 64 / 64 % 64) as char, (0x80 + code / 64 / 64 % 64) as char,
             (0x80 + code / 64 % 64) as char, (0x80 + code % 64) as char]
  {
    ThreeOctets(mark, code / 64);
  }

  /** Every code point is read back from the octets it is written as. */
  lemma {:induction false} Utf8ReadsBack(code: nat)
    requires code <= 0x10_FFFF
    ensures FromUtf8(Utf8(code)) == Some(code)
  {
    if code < 0x80 {
    } else if code < 0x800 {
      TwoOctets(0xC0, code);
      assert code / 64 % 64 == code / 64 < 0x20;
    } else if code < 0x1_0000 {
      ThreeOctets(0xE0, code);
      assert code / 64 / 64 % 64 == code / 64 / 64 < 0x10;
    } else {
      FourOctets(0xF0, code);
      assert code / 64 / 64 / 64 % 64 == code / 64 / 64 / 64 < 8;
    }
  }

  // --- Character references (XML 1.0, section 4.1) ------------------------------------------------

  function Radix(hex: bool): nat { if hex then 16 else 10 }

  lemma {:induction false} NumeralGrows(digits: string, radix: nat)
    requires ValidDigits(digits, radix) && digits != "" && radix > 0
    ensures ValidDigits(digits[..|digits| - 1], radix)
    ensures Numeral(digits[..|digits| - 1], radix) <= Numeral(digits, radix)
  {
    Larger(Numeral(digits[..|digits| - 1], radix), 1, radix);
  }

  /** Digits that are all valid denote their number, as long as it is no longer than a code point
      before its last digit. */
  lemma {:induction false} CodePointIs(digits: string, hex: bool)
    ensures CodePoint(digits, hex).Some? ==>
              ValidDigits(digits, Radix(hex)) && CodePoint(digits, hex).value == Numeral(digits, Radix(hex))
    ensures ValidDigits(digits, Radix(hex)) && Numeral(digits, Radix(hex)) <= LAST_CODE_POINT ==>
              CodePoint(digits, hex).Some?
  {
    if digits != "" {
      var n := |digits| - 1;
      CodePointIs(digits[..n], hex);
      if ValidDigits(digits, Radix(hex)) { NumeralGrows(digits, Radix(hex)); }
    }
  }

  /** `#` and decimal digits, or `#x` and hexadecimal ones, stand for the code point they denote
      if there is one; nothing else that starts with `#` stands for anything. */
  lemma {:induction false} ReferenceExact(digits: string, hex: bool, x: char)
    requires hex ==> x == 'x' || x == 'X'
    requires !hex && digits != "" ==> digits[0] != 'x' && digits[0] != 'X'
    ensures Reference(if hex then "#" + ([x] + digits) else "#" + digits)
         == if digits != "" && ValidDigits(digits, Radix(hex)) && Numeral(digits, Radix(hex)) <= 0x10_FFFF
            then Some(Utf8(Numeral(digits, Radix(hex)))) else None
  {
    CodePointIs(digits, hex);
    if hex {
      assert ("#" + ([x] + digits))[2..] == digits;
    } else {
      assert ("#" + digits)[1..] == digits;
    }
  }

  lemma {:induction false} NoReference(name: string)
    requires name == "" || name[0] != '#'
    ensures Reference(name).None?
  {
  }

  // --- The five entities ------------------------------------------------------------------------

  /** The name of the entity a character has. */
  function EntityName(c: char): string {
    match c
    case '&' => "amp"
    case '<' => "lt"
    case '>' => "gt"
    case '\"' => "quot"
    case '\'' => "apos"
    case _ => ""
  }

  ghost predicate NoChar(s: string, c: char) { forall i | 0 <= i < |s| :: s[i] != c }

  lemma {:induction false} EntityShape(c: char)
    ensures |EntityName(c)| <= 4 && NoChar(EntityName(c), ';')
  {
  }

  lemma {:induction false} EntityKnown(c: char)
    requires EntityName(c) != ""
    ensures Entity(EntityName(c)) == Some([c])
  {
    var k := if c == '<' then 0 else if c == '>' then 1 else if c == '&' then 2 else if c == '\"' then 3 else 4;
    LookedUp(ENTITIES, k);
  }

  lemma {:induction false} LookedUp(table: seq<(string, char)>, k: nat)
    requires k < |table| && forall i | 0 <= i < k :: table[i].0 != table[k].0
    ensures LookUp(table, table[k].0) == Some(table[k].1)
  {
    if k > 0 { LookedUp(table[1..], k - 1); }
  }

  lemma {:induction false} NotLookedUp(table: seq<(string, char)>, name: string)
    requires forall i | 0 <= i < |table| :: table[i].0 != name
    ensures LookUp(table, name).None?
  {
    if table != [] { NotLookedUp(table[1..], name); }
  }

  /** Any other name stands for something only as a character reference. */
  lemma {:induction false} EntityUnknown(name: string)
    requires forall i | 0 <= i < |ENTITIES| :: ENTITIES[i].0 != name
    ensures Entity(name) == Reference(name)
  {
    NotLookedUp(ENTITIES, name);
  }

  // --- Text spelled with them -----------------------------------------------------------------

  /** One character: as it is, by its entity, or by its number. */
  datatype Piece = Itself(c: char) | ByName(c: char) | ByNumber(hex: bool, digits: string)

  ghost predicate ProperPiece(piece: Piece) {
    match piece
    case Itself(c) => c != '&'
    case ByName(c) => EntityName(c) != ""
    case ByNumber(hex, digits) =>
      && 1 <= |digits| <= (if hex then 9 else 10) && ValidDigits(digits, Radix(hex))
          && Numeral(digits, Radix(hex)) <= 0x10_FFFF
  }

  ghost predicate ProperPieces(pieces: seq<Piece>) {
    pieces == [] || (ProperPiece(pieces[0]) && ProperPieces(pieces[1..]))
  }

  /** What stands between the ampersand and the semicolon. */
  function RefName(piece: Piece): string {
    match piece
    case Itself(_) => ""
    case ByName(c) => EntityName(c)
    case ByNumber(hex, digits) => if hex then "#" + (['x'] + digits) else "#" + digits
  }

  function SpellOne(piece: Piece): string {
    match piece
    case Itself(c) => [c]
    case _ => "&" + (RefName(piece) + ";")
  }

  function MeanOne(piece: Piece): string
    requires piece.ByNumber? ==> ValidDigits(piece.digits, Radix(piece.hex))
                                 && Numeral(piece.digits, Radix(piece.hex)) <= 0x10_FFFF
  {
    match piece
    case Itself(c) => [c]
    case ByName(c) => [c]
    case ByNumber(hex, digits) => Utf8(Numeral(digits, Radix(hex)))
  }

  function Spell(pieces: seq<Piece>): string {
    if pieces == [] then "" else SpellOne(pieces[0]) + Spell(pieces[1..])
  }

  ghost function Mean(pieces: seq<Piece>): string
    requires ProperPieces(pieces)
  {
    if pieces == [] then "" else MeanOne(pieces[0]) + Mean(pieces[1..])
  }

  // The reader's recursive helpers under names that do not unfold by themselves.

  ghost function FindFrom(s: string, p: nat, c: char): nat
    requires p <= |s|
  {
    FindChar(s, p, c)
  }

  ghost function Replaced(s: string, p: nat): string
    requires p <= |s|
  {
    DecodeEntities(s, p)
  }

  lemma {:induction false} FindCharAt(s: string, p: nat, q: nat, c: char)
    requires p <= q <= |s| && (forall i | p <= i < q :: s[i] != c) && (q < |s| ==> s[q] == c)
    ensures FindChar(s, p, c) == q
    decreases q - p
  {
    if p < q { FindCharAt(s, p + 1, q, c); }
  }

  lemma {:induction false} EntityReads(s: string, p: nat, name: string)
    requires At(s, p, "&" + (name + ";")) && NoChar(name, ';')
    ensures p < |s| && s[p] == '&' && FindFrom(s, p + 1, ';') == p + 1 + |name| < |s|
            && s[p + 1..p + 1 + |name|] == name
  {
    AtConcat(s, p, "&", name + ";");
    AtConcat(s, p + 1, name, ";");
    AtHead(s, p, "&");
    AtHead(s, p + 1 + |name|, ";");
    AtIndex(s, p + 1, name);
    AtSlice(s, p + 1, name);
    forall i | p + 1 <= i < p + 1 + |name| ensures s[i] != ';' {
      assert s[p + 1 + (i - p - 1)] == name[i - p - 1];
    }
    FindCharAt(s, p + 1, p + 1 + |name|, ';');
  }

  lemma {:induction false} EntityStep(s: string, p: nat, end: nat, meaning: string)
    requires p < end < |s| && end - p <= 12 && s[p] == '&' && FindFrom(s, p + 1, ';') == end
    requires Entity(s[p + 1..end]) == Some(meaning)
    ensures Replaced(s, p) == meaning + Replaced(s, end + 1)
  {
  }

  lemma {:induction false} PlainStep(s: string, p: nat)
    requires p < |s| && s[p] != '&'
    ensures Replaced(s, p) == [s[p]] + Replaced(s, p + 1)
  {
  }

  /** An ampersand stays when no semicolon follows within twelve characters, or when what stands
      before it is no entity. */
  lemma {:induction false} AmpersandStays(s: string, p: nat)
    requires p < |s| && s[p] == '&'
    requires var end := FindFrom(s, p + 1, ';');
             end == |s| || end - p > 12 || Entity(s[p + 1..end]).None?
    ensures Replaced(s, p) == "&" + Replaced(s, p + 1)
  {
  }

  lemma {:induction false} NumberMeans(digits: string, hex: bool, name: string)
    requires ProperPiece(ByNumber(hex, digits)) && name == (if hex then "#" + (['x'] + digits) else "#" + digits)
    ensures |name| <= 11 && NoChar(name, ';') && Entity(name) == Some(Utf8(Numeral(digits, Radix(hex))))
  {
    assert 0 <= HexValue(digits[0]) < Radix(hex);
    ReferenceExact(digits, hex, 'x');
    forall i | 0 <= i < |digits| ensures digits[i] != ';' { assert 0 <= HexValue(digits[i]); }
    assert name[0] == '#' && forall i | 0 <= i < |ENTITIES| :: ENTITIES[i].0[0] != '#';
    EntityUnknown(name);
  }

  lemma {:induction false} RefNameMeans(piece: Piece)
    requires ProperPiece(piece) && !piece.Itself?
    ensures |RefName(piece)| <= 11 && NoChar(RefName(piece), ';')
    ensures Entity(RefName(piece)) == Some(MeanOne(piece))
  {
    if piece.ByName? {
      EntityShape(piece.c);
      EntityKnown(piece.c);
    } else {
      NumberMeans(piece.digits, piece.hex, RefName(piece));
    }
  }

  lemma {:induction false} RefDecodes(s: string, p: nat, name: string, meaning: string, next: nat)
    requires At(s, p, "&" + (name + ";")) && |name| <= 11 && NoChar(name, ';') && Entity(name) == Some(meaning)
    requires next == p + |"&" + (name + ";")|
    ensures next <= |s| && Replaced(s, p) == meaning + Replaced(s, next)
  {
    EntityReads(s, p, name);
    EntityStep(s, p, p + 1 + |name|, meaning);
  }

  lemma {:induction false} PieceDecodes(s: string, p: nat, piece: Piece, next: nat)
    requires ProperPiece(piece) && At(s, p, SpellOne(piece)) && next == p + |SpellOne(piece)|
    ensures next <= |s| && Replaced(s, p) == MeanOne(piece) + Replaced(s, next)
  {
    if piece.Itself? {
      AtHead(s, p, [piece.c]);
      PlainStep(s, p);
    } else {
      RefNameMeans(piece);
      RefDecodes(s, p, RefName(piece), MeanOne(piece), next);
    }
  }

  lemma {:induction false} SpellSplit(s: string, p: nat, piece: Piece, more: seq<Piece>, pieces: seq<Piece>, next: nat)
    requires pieces != [] && piece == pieces[0] && more == pieces[1..] && ProperPieces(pieces)
             && At(s, p, Spell(pieces))
    requires next == p + |SpellOne(piece)|
    ensures ProperPiece(piece) && ProperPieces(more) && At(s, p, SpellOne(piece)) && At(s, next, Spell(more))
    ensures p + |Spell(pieces)| == next + |Spell(more)| && Mean(pieces) == MeanOne(piece) + Mean(more)
  {
    AtConcat(s, p, SpellOne(piece), Spell(more));
  }

  lemma {:induction false} PiecesDecode(s: string, p: nat, pieces: seq<Piece>)
    requires ProperPieces(pieces) && At(s, p, Spell(pieces)) && p + |Spell(pieces)| == |s|
    ensures Replaced(s, p) == Mean(pieces)
    decreases |pieces|
  {
    if pieces != [] {
      var next := p + |SpellOne(pieces[0])|;
      SpellSplit(s, p, pieces[0], pieces[1..], pieces, next);
      PieceDecodes(s, p, pieces[0], next);
      PiecesDecode(s, next, pieces[1..]);
    }
  }

  /** However its characters are spelled, the text decodes to what is meant. */
  lemma {:induction false} SpellingReadsBack(pieces: seq<Piece>)
    requires ProperPieces(pieces)
    ensures Decoded(Spell(pieces)) == Mean(pieces)
  {
    AtIndex(Spell(pieces), 0, Spell(pieces));
    PiecesDecode(Spell(pieces), 0, pieces);
  }
}
