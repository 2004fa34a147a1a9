/** The SMBIOS structure walker (DSP0134, sections 6.1.2 and 6.1.3): it stays inside the table
    whatever the firmware wrote, and reads a well-formed stream back exactly. */
module Smbios {
  import opened Text

  /** A structure found in a table. Its formatted area is not copied: it is the `length` bytes
      of the table from `start` on. */
  datatype Structure = Structure(kind: Byte, handle: nat, start: nat, length: nat, strings: seq<seq<Byte>>)

  const HEADER_SIZE: nat := 4

  const END_OF_TABLE: Byte := 127

  // --- Walking a table --------------------------------------------------------------------------

  /** The first NUL at or after `p`, or the end of the table. */
  function NulAt(data: seq<Byte>, p: nat): (q: nat)
    requires p <= |data|
    ensures p <= q <= |data| && (q < |data| ==> data[q] == 0)
    ensures forall i | p <= i < q :: data[i] != 0
    decreases |data| - p
  {
    if p == |data| || data[p] == 0 then p else NulAt(data, p + 1)
  }

  /** The strings after a formatted area, where the walk goes on, and whether the empty string
      that closes them was found. */
  datatype Tail = Tail(strings: seq<seq<Byte>>, end: nat, terminated: bool)

  function ReadStrings(data: seq<Byte>, p: nat, strings: seq<seq<Byte>>): (t: Tail)
    requires p <= |data|
    ensures p <= t.end <= |data| && (t.terminated ==> p + 1 < t.end)
    decreases |data| - p
  {
    if p == |data| then Tail(strings, p, false) else
    var q := NulAt(data, p);
    if q == |data| then Tail(strings, q, false) else
    var more := strings + [data[p..q]];
    if q + 1 < |data| && data[q + 1] == 0 then Tail(more, q + 2, true) else ReadStrings(data, q + 1, more)
  }

  function ReadTail(data: seq<Byte>, p: nat): (t: Tail)
    requires p <= |data|
    ensures p <= t.end <= |data| && (t.terminated ==> p + 1 < t.end)
  {
    if p + 1 < |data| && data[p] == 0 && data[p + 1] == 0 then Tail([], p + 2, true) else ReadStrings(data, p, [])
  }

  /** A whole header at `offset`, with a formatted area that fits. */
  predicate AreaFits(data: seq<Byte>, offset: nat) {
    offset + HEADER_SIZE <= |data| && data[offset + 1] >= HEADER_SIZE && offset + data[offset + 1] <= |data|
  }

  function Handle(low: nat, high: nat): nat { low + 256 * high }

  function StructureAt(data: seq<Byte>, offset: nat): Structure
    requires AreaFits(data, offset)
  {
    var length := data[offset + 1];
    Structure(data[offset], Handle(data[offset + 2], data[offset + 3]), offset, length,
        ReadTail(data, offset + length).strings)
  }

  /** The walk stops after an unterminated structure and after the end-of-table one. */
  predicate Last(data: seq<Byte>, offset: nat)
    requires AreaFits(data, offset)
  {
    !ReadTail(data, offset + data[offset + 1]).terminated || data[offset] == END_OF_TABLE
  }

  function Structures(data: seq<Byte>, offset: nat): seq<Structure>
    decreases |data| - offset
  {
    if !AreaFits(data, offset) then []
    else if Last(data, offset) then [StructureAt(data, offset)]
    else [StructureAt(data, offset)] + Structures(data, ReadTail(data, offset + data[offset + 1]).end)
  }

  /** The walk under a name that does not unfold by itself. */
  ghost function Walk(data: seq<Byte>, offset: nat): seq<Structure> { Structures(data, offset) }

  /** A structure whose formatted area ends with the table is still found, without strings. */
  lemma {:induction false} AreaAtEnd(data: seq<Byte>, offset: nat)
    requires offset + 4 <= |data| && data[offset + 1] >= 4 && offset + data[offset + 1] == |data|
    ensures var low: int, high: int := data[offset + 2], data[offset + 3];
            Walk(data, offset) == [Structure(data[offset], low + 256 * high, offset, data[offset + 1], [])]
  {
  }

  /** Nothing is found where there is no whole header, or one that is too short or too long. */
  lemma {:induction false} NoArea(data: seq<Byte>, offset: nat)
    requires offset + 4 > |data| || data[offset + 1] < 4 || offset + data[offset + 1] > |data|
    ensures Walk(data, offset) == []
  {
  }

  // --- Whatever the table holds --------------------------------------------------------------------

  ghost predicate NulFree(text: seq<Byte>) { forall i | 0 <= i < |text| :: text[i] != 0 }

  ghost predicate AllNulFree(strings: seq<seq<Byte>>) { forall i | 0 <= i < |strings| :: NulFree(strings[i]) }

  /** The area and header are the table's own, and the strings hold no NUL. */
  ghost predicate Inside(data: seq<Byte>, s: Structure) {
    && HEADER_SIZE <= s.length < 256 && s.start + s.length <= |data|
    && s.kind == data[s.start] && s.length == data[s.start + 1]
    && s.handle == Handle(data[s.start + 2], data[s.start + 3])
    && AllNulFree(s.strings)
  }

  lemma {:induction false} StringsNulFree(data: seq<Byte>, p: nat, strings: seq<seq<Byte>>)
    requires p <= |data| && AllNulFree(strings)
    ensures AllNulFree(ReadStrings(data, p, strings).strings)
    decreases |data| - p
  {
    if p < |data| {
      var q := NulAt(data, p);
      if q < |data| {
        assert NulFree(data[p..q]);
        StringsNulFree(data, q + 1, strings + [data[p..q]]);
      }
    }
  }

  /** Structures from `from` on, each inside the table and clear of the area before it; only
      the last can be the end of the table. */
  ghost predicate LaidOut(data: seq<Byte>, r: seq<Structure>, from: nat) {
    r == [] || (
      && Inside(data, r[0]) && r[0].start >= from
      && (r[0].kind == 127 ==> |r| == 1)
      && LaidOut(data, r[1..], r[0].start + r[0].length + 1))
  }

  lemma {:induction false} LaterToo(data: seq<Byte>, r: seq<Structure>, from: nat, earlier: nat)
    requires LaidOut(data, r, from) && earlier <= from
    ensures LaidOut(data, r, earlier)
  {
  }

  /** Whatever the table holds, the walk ends with structures whose areas lie inside it, in
      order and apart from one another. */
  lemma {:induction false} WalkInside(data: seq<Byte>, offset: nat)
    ensures LaidOut(data, Walk(data, offset), offset)
    decreases |data| - offset
  {
    if AreaFits(data, offset) {
      var s := StructureAt(data, offset);
      StringsNulFree(data, s.start + s.length, []);
      assert Inside(data, s);
      WalkStep(data, offset);
      if Last(data, offset) {
        assert [s][1..] == [];
      } else {
        var next := ReadTail(data, s.start + s.length).end;
        WalkInside(data, next);
        LaterToo(data, Walk(data, next), next, s.start + s.length + 1);
        assert ([s] + Walk(data, next))[1..] == Walk(data, next);
      }
    }
  }

  lemma {:induction false} WalkStep(data: seq<Byte>, offset: nat)
    requires AreaFits(data, offset)
    ensures Walk(data, offset)
         == if Last(data, offset) then [StructureAt(data, offset)]
            else [StructureAt(data, offset)] + Walk(data, ReadTail(data, offset + data[offset + 1]).end)
  {
  }

  // --- Tables cut short -------------------------------------------------------------------------------

  lemma {:induction false} NulCut(data: seq<Byte>, n: nat, p: nat)
    requires p <= n <= |data|
    ensures NulAt(data[..n], p) < n ==> NulAt(data, p) == NulAt(data[..n], p)
    decreases n - p
  {
    if p < n && data[p] != 0 { NulCut(data, n, p + 1); }
  }

  lemma {:induction false} SliceCut(data: seq<Byte>, n: nat, p: nat, q: nat)
    requires p <= q <= n <= |data|
    ensures data[..n][p..q] == data[p..q]
  {
  }

  lemma {:induction false} StringsCut(data: seq<Byte>, n: nat, p: nat, strings: seq<seq<Byte>>)
    requires p <= n <= |data| && ReadStrings(data[..n], p, strings).terminated
    ensures ReadStrings(data, p, strings) == ReadStrings(data[..n], p, strings)
    decreases n - p
  {
    var q := NulAt(data[..n], p);
    NulCut(data, n, p);
    SliceCut(data, n, p, q);
    var more := strings + [data[p..q]];
    if !(q + 1 < n && data[q + 1] == 0) { StringsCut(data, n, q + 1, more); }
  }

  lemma {:induction false} TailCut(data: seq<Byte>, n: nat, p: nat)
    requires p <= n <= |data| && ReadTail(data[..n], p).terminated
    ensures ReadTail(data, p) == ReadTail(data[..n], p)
  {
    if !(p + 1 < n && data[p] == 0 && data[p + 1] == 0) { StringsCut(data, n, p, []); }
  }

  ghost predicate SameArea(a: Structure, b: Structure) { a.(strings := b.strings) == b }

  /** `cut` is how `whole` begins; its last structure may lack strings or have other ones. */
  ghost predicate Begins(cut: seq<Structure>, whole: seq<Structure>) {
    cut == [] || (
      && whole != [] && SameArea(cut[0], whole[0])
      && (|cut| > 1 ==> cut[0] == whole[0] && Begins(cut[1..], whole[1..])))
  }

  /** Cutting a table short loses structures at the end but invents none. */
  lemma {:induction false} CutKeepsStructures(data: seq<Byte>, n: nat, offset: nat)
    requires n <= |data|
    ensures Begins(Walk(data[..n], offset), Walk(data, offset))
    decreases n - offset
  {
    var less := data[..n];
    if AreaFits(less, offset) {
      AreaCut(data, n, offset);
      WalkStep(less, offset);
      WalkStep(data, offset);
      if !Last(less, offset) {
        var next := ReadTail(data, offset + data[offset + 1]).end;
        CutKeepsStructures(data, n, next);
        StepBegins(StructureAt(data, offset), Walk(less, next), Walk(data, next));
      }
    }
  }

  lemma {:induction false} StepBegins(s: Structure, cut: seq<Structure>, whole: seq<Structure>)
    requires Begins(cut, whole)
    ensures Begins([s] + cut, [s] + whole)
  {
    assert ([s] + cut)[1..] == cut && ([s] + whole)[1..] == whole;
  }

  lemma {:induction false} AreaCut(data: seq<Byte>, n: nat, offset: nat)
    requires n <= |data| && AreaFits(data[..n], offset)
    ensures AreaFits(data, offset) && SameArea(StructureAt(data[..n], offset), StructureAt(data, offset))
    ensures data[..n][offset + 1] == data[offset + 1]
    ensures !Last(data[..n], offset) ==>
              !Last(data, offset) && StructureAt(data[..n], offset) == StructureAt(data, offset)
              && ReadTail(data[..n], offset + data[offset + 1]) == ReadTail(data, offset + data[offset + 1])
  {
    var p := offset + data[offset + 1];
    if ReadTail(data[..n], p).terminated { TailCut(data, n, p); }
  }

  // --- Well-formed streams ---------------------------------------------------------------------------

  /** A structure as firmware should write it. `body` is its formatted area after the header. */
  datatype Written = Written(kind: Byte, handle: nat, body: seq<Byte>, strings: seq<seq<Byte>>)

  ghost predicate WellFormed(w: Written) {
    && |w.body| <= 251 && w.handle < 65536
    && forall i | 0 <= i < |w.strings| :: w.strings[i] != [] && NulFree(w.strings[i])
  }

  function EncodeHeader(w: Written): seq<Byte>
    requires |w.body| <= 251 && w.handle < 65536
  {
    [w.kind, HEADER_SIZE + |w.body|, w.handle % 256, w.handle / 256]
  }

  function EncodeStrings(strings: seq<seq<Byte>>): seq<Byte> {
    if strings == [] then [] else strings[0] + ([0] + EncodeStrings(strings[1..]))
  }

  /** The strings with a NUL after each and one more, or two if there are none. */
  function EncodeTail(strings: seq<seq<Byte>>): seq<Byte> {
    if strings == [] then [0, 0] else EncodeStrings(strings) + [0]
  }

  function Encode(w: Written): seq<Byte>
    requires |w.body| <= 251 && w.handle < 65536
  {
    EncodeHeader(w) + (w.body + EncodeTail(w.strings))
  }

  ghost predicate AllWellFormed(ws: seq<Written>) { ws == [] || (WellFormed(ws[0]) && AllWellFormed(ws[1..])) }

  ghost predicate Closed(ws: seq<Written>) { ws != [] && (ws[0].kind == 127 || Closed(ws[1..])) }

  ghost function EncodeAll(ws: seq<Written>): seq<Byte>
    requires AllWellFormed(ws)
  {
    if ws == [] then [] else Encode(ws[0]) + EncodeAll(ws[1..])
  }

  /** `w` as it should be found at `start`. */
  function Placed(w: Written, start: nat): Structure {
    Structure(w.kind, w.handle, start, HEADER_SIZE + |w.body|, w.strings)
  }

  /** What the walk should find of `ws`, written from `offset` on: everything up to and with
      the first end-of-table structure. */
  ghost function Expected(ws: seq<Written>, offset: nat): seq<Structure>
    requires AllWellFormed(ws)
  {
    if ws == [] then [] else
    var w := ws[0];
    if w.kind == 127 then [Placed(w, offset)]
    else [Placed(w, offset)] + Expected(ws[1..], offset + |Encode(w)|)
  }

  ghost predicate Holds(data: seq<Byte>, p: nat, w: seq<Byte>) { p + |w| <= |data| && data[p..p + |w|] == w }

  lemma {:induction false} HoldsParts(data: seq<Byte>, p: nat, a: seq<Byte>, b: seq<Byte>)
    requires Holds(data, p, a + b)
    ensures Holds(data, p, a) && Holds(data, p + |a|, b)
  {
    var ab := a + b;
    assert data[p..p + |a|] == ab[..|a|];
    assert data[p + |a|..p + |ab|] == ab[|a|..];
  }

  lemma {:induction false} HoldsIndex(data: seq<Byte>, p: nat, w: seq<Byte>, i: nat)
    requires Holds(data, p, w) && i < |w|
    ensures data[p + i] == w[i]
  {
    assert data[p..p + |w|][i] == data[p + i];
  }

  lemma {:induction false} NulFound(data: seq<Byte>, p: nat, text: seq<Byte>)
    requires Holds(data, p, text) && NulFree(text) && p + |text| < |data| && data[p + |text|] == 0
    ensures NulAt(data, p) == p + |text|
  {
    forall i | p <= i < p + |text| ensures data[i] != 0 {
      HoldsIndex(data, p, text, i - p);
      assert text[i - p] != 0;
    }
  }

  lemma {:induction false} FirstString(data: seq<Byte>, p: nat, q: nat, text: seq<Byte>, rest: seq<Byte>)
    requires NulFree(text) && q == p + |text| && Holds(data, p, text + ([0] + rest)) && rest != []
    ensures q + 1 < |data| && NulAt(data, p) == q && data[p..q] == text
    ensures Holds(data, q + 1, rest) && data[q + 1] == rest[0]
  {
    HoldsParts(data, p, text, [0] + rest);
    HoldsParts(data, q, [0], rest);
    HoldsIndex(data, q, [0], 0);
    HoldsIndex(data, q + 1, rest, 0);
    NulFound(data, p, text);
  }

  lemma {:induction false} StringsText(strings: seq<seq<Byte>>)
    requires strings != [] && strings[0] != []
    ensures EncodeStrings(strings) + [0] == strings[0] + ([0] + (EncodeStrings(strings[1..]) + [0]))
    ensures (EncodeStrings(strings) + [0])[0] == strings[0][0]
  {
  }

  lemma {:induction false} StringsRead(data: seq<Byte>, p: nat, end: nat, strings: seq<seq<Byte>>, acc: seq<seq<Byte>>)
    requires strings != [] && (forall i | 0 <= i < |strings| :: strings[i] != [] && NulFree(strings[i]))
    requires Holds(data, p, EncodeStrings(strings) + [0]) && end == p + |EncodeStrings(strings)| + 1
    ensures ReadStrings(data, p, acc) == Tail(acc + strings, end, true)
    decreases |strings|
  {
    var text, more := strings[0], strings[1..];
    var q := p + |text|;
    StringsText(strings);
    FirstString(data, p, q, text, EncodeStrings(more) + [0]);
    assert acc + [text] + more == acc + strings;
    if more != [] {
      StringsText(more);
      StringsRead(data, q + 1, end, more, acc + [text]);
    }
  }

  lemma {:induction false} TailReads(data: seq<Byte>, p: nat, strings: seq<seq<Byte>>)
    requires forall i | 0 <= i < |strings| :: strings[i] != [] && NulFree(strings[i])
    requires Holds(data, p, EncodeTail(strings))
    ensures p <= |data| && ReadTail(data, p) == Tail(strings, p + |EncodeTail(strings)|, true)
  {
    HoldsIndex(data, p, EncodeTail(strings), 0);
    if strings == [] {
      HoldsIndex(data, p, EncodeTail(strings), 1);
    } else {
      StringsText(strings);
      StringsRead(data, p, p + |EncodeTail(strings)|, strings, []);
      assert [] + strings == strings;
    }
  }

  /** Each structure's area is where it was written. */
  lemma {:induction false} AreaReads(data: seq<Byte>, p: nat, w: Written)
    requires WellFormed(w) && Holds(data, p, Encode(w))
    ensures AreaFits(data, p) && data[p] == w.kind && data[p + 1] == HEADER_SIZE + |w.body|
    ensures Handle(data[p + 2], data[p + 3]) == w.handle
    ensures Holds(data, p + HEADER_SIZE, w.body) && Holds(data, p + HEADER_SIZE + |w.body|, EncodeTail(w.strings))
  {
    var header := EncodeHeader(w);
    HoldsParts(data, p, header, w.body + EncodeTail(w.strings));
    HoldsParts(data, p + 4, w.body, EncodeTail(w.strings));
    HoldsIndex(data, p, header, 0);
    HoldsIndex(data, p, header, 1);
    HoldsIndex(data, p, header, 2);
    HoldsIndex(data, p, header, 3);
  }

  lemma {:induction false} StructureReads(data: seq<Byte>, p: nat, w: Written)
    requires WellFormed(w) && Holds(data, p, Encode(w))
    ensures AreaFits(data, p) && StructureAt(data, p) == Placed(w, p)
    ensures ReadTail(data, p + data[p + 1]) == Tail(w.strings, p + |Encode(w)|, true)
  {
    var tail := p + HEADER_SIZE + |w.body|;
    var end := p + |Encode(w)|;
    AreaReads(data, p, w);
    assert end == tail + |EncodeTail(w.strings)|;
    TailReads(data, tail, w.strings);
    AreaAndTail(data, p, tail, end, w);
  }

  lemma {:induction false} AreaAndTail(data: seq<Byte>, p: nat, tail: nat, end: nat, w: Written)
    requires |w.body| <= 251 && tail == p + HEADER_SIZE + |w.body|
    requires AreaFits(data, p) && data[p] == w.kind && data[p + 1] == HEADER_SIZE + |w.body|
    requires Handle(data[p + 2], data[p + 3]) == w.handle && ReadTail(data, tail) == Tail(w.strings, end, true)
    ensures StructureAt(data, p) == Placed(w, p) && ReadTail(data, p + data[p + 1]) == Tail(w.strings, end, true)
  {
  }

  // The stream and what to find in it, under names that do not unfold.

  ghost function Stream(ws: seq<Written>): seq<Byte>
    requires AllWellFormed(ws)
  {
    EncodeAll(ws)
  }

  ghost function Wanted(ws: seq<Written>, offset: nat): seq<Structure>
    requires AllWellFormed(ws)
  {
    Expected(ws, offset)
  }

  lemma {:induction false} StreamStep(ws: seq<Written>, p: nat, next: nat)
    requires AllWellFormed(ws) && ws != [] && next == p + |Encode(ws[0])|
    ensures WellFormed(ws[0]) && AllWellFormed(ws[1..])
    ensures Stream(ws) == Encode(ws[0]) + Stream(ws[1..])
    ensures Wanted(ws, p) == [Placed(ws[0], p)] + if ws[0].kind == END_OF_TABLE then [] else Wanted(ws[1..], next)
  {
  }

  /** A well-formed stream is read back exactly, up to and with its first end-of-table
      structure; with none, the walk goes on behind the stream. */
  lemma {:induction false} StreamReadsBack(data: seq<Byte>, p: nat, end: nat, ws: seq<Written>)
    requires AllWellFormed(ws) && Holds(data, p, Stream(ws)) && end == p + |Stream(ws)|
    ensures Walk(data, p) == if Closed(ws) then Wanted(ws, p) else Wanted(ws, p) + Walk(data, end)
    decreases |ws|
  {
    if ws == [] {
      assert [] + Walk(data, p) == Walk(data, p);
    } else {
      var next, first := FirstFound(data, p, ws);
      if ws[0].kind != END_OF_TABLE {
        StreamReadsBack(data, next, end, ws[1..]);
        JoinStep(first, Wanted(ws[1..], next), Walk(data, end));
      }
    }
  }

  lemma {:induction false} FirstFound(data: seq<Byte>, p: nat, ws: seq<Written>) returns (next: nat, first: Structure)
    requires AllWellFormed(ws) && ws != [] && Holds(data, p, Stream(ws))
    ensures AllWellFormed(ws[1..]) && next + |Stream(ws[1..])| == p + |Stream(ws)| && Holds(data, next, Stream(ws[1..]))
    ensures Walk(data, p) == [first] + if ws[0].kind == END_OF_TABLE then [] else Walk(data, next)
    ensures Wanted(ws, p) == [first] + if ws[0].kind == END_OF_TABLE then [] else Wanted(ws[1..], next)
  {
    next, first := p + |Encode(ws[0])|, Placed(ws[0], p);
    StreamStep(ws, p, next);
    assert Holds(data, p, Encode(ws[0])) && Holds(data, next, Stream(ws[1..])) by {
      HoldsParts(data, p, Encode(ws[0]), Stream(ws[1..]));
    }
    StructureFound(data, p, next, ws[0]);
  }

  lemma {:induction false} StructureFound(data: seq<Byte>, p: nat, next: nat, w: Written)
    requires WellFormed(w) && Holds(data, p, Encode(w)) && next == p + |Encode(w)|
    ensures Walk(data, p) == [Placed(w, p)] + if w.kind == END_OF_TABLE then [] else Walk(data, next)
  {
    StructureReads(data, p, w);
    WalkIs(data, p, next, Placed(w, p), w.strings);
  }

  lemma {:induction false} WalkIs(data: seq<Byte>, p: nat, next: nat, s: Structure, strings: seq<seq<Byte>>)
    requires AreaFits(data, p) && StructureAt(data, p) == s
             && ReadTail(data, p + data[p + 1]) == Tail(strings, next, true)
    ensures Walk(data, p) == [s] + if s.kind == 127 then [] else Walk(data, next)
  {
    WalkStep(data, p);
  }

  /** The same of a whole table, with anything after the stream. */
  lemma {:induction false} TableReadsBack(ws: seq<Written>, after: seq<Byte>)
    requires AllWellFormed(ws)
    ensures Structures(EncodeAll(ws) + after, 0)
         == Expected(ws, 0) + if Closed(ws) then [] else Structures(EncodeAll(ws) + after, |EncodeAll(ws)|)
  {
    var data := Stream(ws) + after;
    assert Holds(data, 0, Stream(ws)) by { assert data[0..0 + |Stream(ws)|] == Stream(ws); }
    StreamReadsBack(data, 0, |Stream(ws)|, ws);
  }

  lemma {:induction false} JoinStep(s: Structure, a: seq<Structure>, b: seq<Structure>)
    ensures [s] + (a + b) == [s] + a + b
  {
  }

  // --- String fields -------------------------------------------------------------------------------------

  function ByteAt(data: seq<Byte>, s: Structure, offset: nat): Option<Byte>
    requires s.start + s.length <= |data|
  {
    if offset >= s.length then None else Some(data[s.start + offset])
  }

  /** String numbers count from 1; 0 is no string, and so is a number past the last. */
  function StringField(data: seq<Byte>, s: Structure, offset: nat): seq<Byte>
    requires s.start + s.length <= |data|
  {
    var index := ByteAt(data, s, offset);
    if index.None? || index.value == 0 || index.value > |s.strings| then [] else s.strings[index.value - 1]
  }

  lemma {:induction false} FieldNames(data: seq<Byte>, s: Structure, offset: nat, k: nat)
    requires s.start + s.length <= |data| && offset < s.length && k < |s.strings| && data[s.start + offset] == k + 1
    ensures StringField(data, s, offset) == s.strings[k]
  {
  }

  lemma {:induction false} BodyByte(data: seq<Byte>, p: nat, w: Written, i: nat)
    requires WellFormed(w) && Holds(data, p, Encode(w)) && i < |w.body|
    ensures p + HEADER_SIZE + |w.body| <= |data| && data[p + HEADER_SIZE + i] == w.body[i]
  {
    AreaReads(data, p, w);
    HoldsIndex(data, p + HEADER_SIZE, w.body, i);
  }

  /** In a written structure, field `offset` with the number `k + 1` in it names string `k`. */
  lemma {:induction false} FieldReadsBack(data: seq<Byte>, p: nat, w: Written, offset: nat, k: nat)
    requires WellFormed(w) && Holds(data, p, Encode(w))
    requires HEADER_SIZE <= offset < HEADER_SIZE + |w.body| && k < |w.strings| && w.body[offset - HEADER_SIZE] == k + 1
    ensures AreaFits(data, p) && StringField(data, StructureAt(data, p), offset) == w.strings[k]
  {
    BodyByte(data, p, w, offset - HEADER_SIZE);
    FieldNames(data, Placed(w, p), offset, k);
    StructureReads(data, p, w);
  }

  // --- The walker itself ------------------------------------------------------------------------------------

  method DoTail(data: seq<Byte>, start: nat) returns (strings: seq<seq<Byte>>, pos: nat, terminated: bool)
    requires start <= |data|
    ensures Tail(strings, pos, terminated) == ReadTail(data, start)
  {
    strings, pos, terminated := [], start, false;
    if pos + 1 < |data| && data[pos] == 0 && data[pos + 1] == 0 { return [], pos + 2, true; }
    while pos < |data|
      invariant start <= pos <= |data| && !terminated
      invariant ReadStrings(data, pos, strings) == ReadTail(data, start)
      decreases |data| - pos
    {
      var from := pos;
      while pos < |data| && data[pos] != 0
        invariant from <= pos <= |data| && NulAt(data, pos) == NulAt(data, from)
      {
        pos := pos + 1;
      }
      if pos >= |data| { return; }
      strings := strings + [data[from..pos]];
      pos := pos + 1;
      if pos < |data| && data[pos] == 0 { return strings, pos + 1, true; }
    }
  }

  method ParseStructures(data: seq<Byte>) returns (structures: seq<Structure>)
    ensures structures == Structures(data, 0)
  {
    structures := [];
    var offset := 0;
    while offset + HEADER_SIZE <= |data|
      invariant structures + Walk(data, offset) == Structures(data, 0)
      decreases |data| - offset
    {
      var kind, length := data[offset], data[offset + 1];
      if length < HEADER_SIZE || offset + length > |data| { break; }
      var strings, pos, terminated := DoTail(data, offset + length);
      var structure := Structure(kind, Handle(data[offset + 2], data[offset + 3]), offset, length, strings);
      structures := structures + [structure];
      if !terminated || kind == END_OF_TABLE {
        assert Walk(data, offset) == [structure];
        return;
      }
      assert Walk(data, offset) == [structure] + Walk(data, pos);
      offset := pos;
    }
    assert Walk(data, offset) == [];
  }
}
