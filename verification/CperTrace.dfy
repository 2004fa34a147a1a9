/** The traced decode of a CPER record: tracing changes nothing about the record, and says of
    every field it notes where in the record the field lies. */
module CperTrace {
  import opened Cper
  import opened Text

  /** A field as the walkthrough shows it; its texts are left out. */
  datatype Span = Span(offset: nat, length: nat, depth: nat)

  type Notes = seq<(nat, nat)>

  /** Offset and length of the header's fields (UEFI Table N-1). */
  const HEADER_NOTES: Notes := [
    (0, 4), (4, 2), (6, 4), (10, 2), (12, 4), (16, 4), (20, 4), (24, 8), (32, 16), (48, 16), (64, 16), (80, 16),
    (96, 8), (104, 4), (108, 8)]

  /** The fields of a section descriptor (UEFI Table N-2). */
  const DESCRIPTOR_NOTES: Notes := [(0, 4), (4, 4), (8, 2), (10, 1), (12, 4), (16, 16), (32, 16), (48, 4), (52, 20)]

  const GENERIC_HEAD: Notes := [(0, 8), (8, 1), (9, 1), (10, 1), (11, 1), (12, 1), (13, 1), (16, 8)]

  const GENERIC_TAIL: Notes := [(152, 8), (160, 8), (168, 8), (176, 8), (184, 8)]

  const IA32_X64_HEAD: Notes := [(0, 8), (8, 8), (16, 48)]

  function NoteIf(value: Option<nat>, at: nat): Notes { if value.Some? then [(at, 8)] else [] }

  function ErrorInfoNotes(info: ErrorInfo, at: nat): Notes {
    [(at, 16), (at + 16, 8), (at + 24, 8)]
    + NoteIf(info.targetId, at + 32) + NoteIf(info.requestorId, at + 40) + NoteIf(info.responderId, at + 48)
    + NoteIf(info.instructionIp, at + 56)
  }

  function AllErrorNotes(infos: seq<ErrorInfo>): Notes {
    if infos == [] then [] else
    var n := |infos| - 1;
    AllErrorNotes(infos[..n]) + ErrorInfoNotes(infos[n], ERROR_INFO_START + n * ERROR_INFO_SIZE)
  }

  /** What decoding a body notes, from the start of the body. */
  function BodyNotes(body: Body): Notes {
    match body
    case Generic(_, _, brand) => GENERIC_HEAD + (if brand != "" then [(24, 128)] else []) + GENERIC_TAIL
    case Ia32X64(_, _, _, _, _, _, infos) => IA32_X64_HEAD + AllErrorNotes(infos)
    case _ => []
  }

  function Shifted(notes: Notes, base: nat, depth: nat): seq<Span> {
    if notes == [] then [] else
    var n := |notes| - 1;
    Shifted(notes[..n], base, depth) + [Span(base + notes[n].0, notes[n].1, depth)]
  }

  // Spans under names that do not unfold by themselves.

  function Noted(notes: Notes, base: nat, depth: nat): seq<Span> { Shifted(notes, base, depth) }

  function Traced(sections: seq<Section>): seq<Span> { SectionTraces(sections) }

  /** A descriptor's fields where it stands, and its body's one level deeper where the
      descriptor says. */
  function SectionTrace(s: Section, index: nat): seq<Span> {
    Noted(DESCRIPTOR_NOTES, DescriptorOffset(index), 0) + Noted(BodyNotes(s.body), s.descriptor.offset, 1)
  }

  function SectionTraces(sections: seq<Section>): seq<Span> {
    if sections == [] then [] else
    var n := |sections| - 1;
    SectionTraces(sections[..n]) + SectionTrace(sections[n], n)
  }

  lemma {:induction false} TracedSnoc(sections: seq<Section>, s: Section, trace: seq<Span>)
    requires trace == SectionTrace(s, |sections|)
    ensures Traced(sections + [s]) == Traced(sections) + trace
  {
    assert (sections + [s])[..|sections|] == sections;
  }

  function TraceOf(record: Record): seq<Span> {
    match record
    case Rejected(_) => []
    case Decoded(_, sections, _) => Noted(HEADER_NOTES, 0, 0) + Traced(sections)
  }

  // --- What the spans hold -----------------------------------------------------------------------

  /** The number at a noted field. */
  function NumberAt(data: seq<Byte>, note: (nat, nat)): nat { ReadOr0(data, note.0, note.1) }

  /** Each field of the header is what its span holds. */
  lemma {:induction false} HeaderNotesTell(data: seq<Byte>)
    ensures var h, n := DecodeHeader(data), HEADER_NOTES;
            && |n| == 15 && h.signature == ReadText(data, n[0].0, n[0].1)
            && h.revision == NumberAt(data, n[1]) && h.signatureEnd == NumberAt(data, n[2])
            && h.sectionCount == NumberAt(data, n[3]) && h.severityRaw == NumberAt(data, n[4])
            && h.validationBits == NumberAt(data, n[5]) && h.recordLength == NumberAt(data, n[6])
    ensures var h, n := DecodeHeader(data), HEADER_NOTES;
            && h.timestamp.raw == NumberAt(data, n[7])
            && h.platformId == ReadGuid(data, n[8].0) && h.partitionId == ReadGuid(data, n[9].0)
            && h.creatorId == ReadGuid(data, n[10].0) && h.notificationType == ReadGuid(data, n[11].0)
            && n[8].1 == n[9].1 == n[10].1 == n[11].1 == 16
            && h.recordId == NumberAt(data, n[12]) && h.flags == NumberAt(data, n[13])
            && h.persistenceInfo == NumberAt(data, n[14])
  {
    HeaderFields(data, DecodeHeader(data));
    HeaderSpans(HEADER_NOTES);
  }

  lemma {:induction false} HeaderSpans(n: Notes)
    requires n == HEADER_NOTES
    ensures |n| == 15 && n[0] == (0, 4) && n[1] == (4, 2) && n[2] == (6, 4) && n[3] == (10, 2) && n[4] == (12, 4)
    ensures n[5] == (16, 4) && n[6] == (20, 4) && n[7] == (24, 8) && n[8] == (32, 16) && n[9] == (48, 16)
    ensures n[10] == (64, 16) && n[11] == (80, 16) && n[12] == (96, 8) && n[13] == (104, 4) && n[14] == (108, 8)
  {
  }

  lemma {:induction false} HeaderFields(data: seq<Byte>, h: Header)
    requires h == DecodeHeader(data)
    ensures h.signature == ReadText(data, 0, 4) && h.revision == NumberAt(data, (4, 2))
    ensures h.signatureEnd == NumberAt(data, (6, 4)) && h.sectionCount == NumberAt(data, (10, 2))
    ensures h.severityRaw == NumberAt(data, (12, 4)) && h.validationBits == NumberAt(data, (16, 4))
    ensures h.recordLength == NumberAt(data, (20, 4)) && h.timestamp.raw == NumberAt(data, (24, 8))
    ensures h.platformId == ReadGuid(data, 32) && h.partitionId == ReadGuid(data, 48)
    ensures h.creatorId == ReadGuid(data, 64) && h.notificationType == ReadGuid(data, 80)
    ensures h.recordId == NumberAt(data, (96, 8)) && h.flags == NumberAt(data, (104, 4))
    ensures h.persistenceInfo == NumberAt(data, (108, 8))
  {
  }

  /** Each field of a descriptor that stands at `at`. */
  lemma {:induction false} DescriptorNotesTell(data: seq<Byte>, at: nat)
    requires Has(data, at, DESCRIPTOR_SIZE)
    ensures var d, n := DecodeDescriptor(data, at).value, DESCRIPTOR_NOTES;
            && |n| == 9 && d.offset == ReadOr0(data, at + n[0].0, n[0].1)
            && d.length == ReadOr0(data, at + n[1].0, n[1].1) && d.revision == ReadOr0(data, at + n[2].0, n[2].1)
            && d.validationBits == ReadOr0(data, at + n[3].0, n[3].1)
            && d.flags == ReadOr0(data, at + n[4].0, n[4].1)
            && d.sectionType == ReadGuid(data, at + n[5].0) && d.fruId == ReadGuid(data, at + n[6].0)
            && n[5].1 == n[6].1 == 16 && d.severityRaw == ReadOr0(data, at + n[7].0, n[7].1)
            && d.fruText == ReadText(data, at + n[8].0, n[8].1)
  {
  }

  /** The span of eight bytes from `at` is noted just when the field was read, and holds it. */
  ghost predicate NotedIf(notes: Notes, body: seq<Byte>, at: nat, value: Option<nat>) {
    OneIf(notes, at, value.Some?) && (value.Some? ==> Read(body, at, 8) == value)
  }

  ghost predicate OneIf(notes: Notes, at: nat, there: bool) {
    if there then (at, 8) in notes else forall n <- notes :: n.0 != at
  }

  lemma {:induction false} ErrorInfoNotesTell(body: seq<Byte>, at: nat)
    ensures var info := DecodeErrorInfo(body, at); var notes := ErrorInfoNotes(info, at);
            && |notes| >= 3 && notes[..3] == [(at, 16), (at + 16, 8), (at + 24, 8)]
            && info.checkType == ReadGuid(body, at) && info.validationBits == ReadOr0(body, at + 16, 8)
            && info.checkInfoRaw == ReadOr0(body, at + 24, 8)
            && NotedIf(notes, body, at + 32, info.targetId) && NotedIf(notes, body, at + 40, info.requestorId)
            && NotedIf(notes, body, at + 48, info.responderId) && NotedIf(notes, body, at + 56, info.instructionIp)
  {
    InfoNotes(DecodeErrorInfo(body, at), at);
  }

  lemma {:induction false} InfoNotes(info: ErrorInfo, at: nat)
    ensures var notes := ErrorInfoNotes(info, at);
            && |notes| >= 3 && notes[..3] == [(at, 16), (at + 16, 8), (at + 24, 8)]
            && OneIf(notes, at + 32, info.targetId.Some?) && OneIf(notes, at + 40, info.requestorId.Some?)
            && OneIf(notes, at + 48, info.responderId.Some?) && OneIf(notes, at + 56, info.instructionIp.Some?)
  {
    var a, b, c, d := NoteIf(info.targetId, at + 32), NoteIf(info.requestorId, at + 40),
        NoteIf(info.responderId, at + 48), NoteIf(info.instructionIp, at + 56);
    var head: Notes := [(at, 16), (at + 16, 8), (at + 24, 8)];
    FiveParts(head, a, b, c, d);
    assert forall n <- head :: n.0 < at + 32;
  }

  lemma {:induction false} FiveParts(head: Notes, a: Notes, b: Notes, c: Notes, d: Notes)
    ensures var all := head + a + b + c + d;
            && |all| >= |head| && all[..|head|] == head
            && forall n :: n in all <==> n in head || n in a || n in b || n in c || n in d
  {
  }

  /** The numbers of a generic section, each at its span; the brand's span is noted when there is one. */
  lemma {:induction false} GenericNotesTell(body: seq<Byte>)
    ensures var b := DecodeBody(PROCESSOR_GENERIC, body); var notes := BodyNotes(b);
            && b.Generic? && |b.values| == 12 && GENERIC_HEAD <= notes && b.validationBits == NumberAt(body, notes[0])
            && (forall i | 0 <= i < 7 :: b.values[i] == NumberAt(body, GENERIC_HEAD[i + 1]))
            && (forall i | 0 <= i < 5 :: b.values[7 + i] == NumberAt(body, GENERIC_TAIL[i]))
            && notes == GENERIC_HEAD + (if b.brand == "" then [] else [(24, 128)]) + GENERIC_TAIL
            && (b.brand != "" ==> b.brand == ReadText(body, 24, 128))
  {
  }

  lemma {:induction false} AllErrorNotesAt(infos: seq<ErrorInfo>, k: nat)
    requires k < |infos|
    ensures forall n <- ErrorInfoNotes(infos[k], 64 + 64 * k) :: n in AllErrorNotes(infos)
  {
    var last := |infos| - 1;
    if k < last { AllErrorNotesAt(infos[..last], k); }
  }

  /** The head of an IA32/X64 section, then the structures where they stand. */
  lemma {:induction false} Ia32NotesTell(body: seq<Byte>, k: nat)
    ensures var b := DecodeIa32X64(body); var notes := BodyNotes(b);
            && |notes| >= 3 && notes[..3] == [(0, 8), (8, 8), (16, 48)]
            && b.validationBits == ReadOr0(body, 0, 8) && b.localApicId == ReadOr0(body, 8, 8)
            && b.cpuidInfo == Bytes(body, 16, 48)
            && (k < |b.errorInfo| ==>
                  b.errorInfo[k] == DecodeErrorInfo(body, 64 + 64 * k)
                  && forall n <- ErrorInfoNotes(b.errorInfo[k], 64 + 64 * k) :: n in notes)
  {
    var b := DecodeIa32X64(body);
    Ia32Notes(b);
    if k < |b.errorInfo| { AllErrorNotesAt(b.errorInfo, k); }
  }

  lemma {:induction false} Ia32Notes(b: Body)
    requires b.Ia32X64?
    ensures BodyNotes(b) == IA32_X64_HEAD + AllErrorNotes(b.errorInfo)
    ensures |BodyNotes(b)| >= 3 && BodyNotes(b)[..3] == [(0, 8), (8, 8), (16, 48)]
    ensures forall n <- AllErrorNotes(b.errorInfo) :: n in BodyNotes(b)
  {
  }

  // --- Where the spans lie -----------------------------------------------------------------------

  ghost predicate Within(notes: Notes, length: nat) { forall i | 0 <= i < |notes| :: notes[i].0 + notes[i].1 <= length }

  ghost predicate Inside(spans: seq<Span>, from: nat, to: nat) {
    forall s <- spans :: from <= s.offset && s.offset + s.length <= to
  }

  lemma {:induction false} ShiftedInside(notes: Notes, base: nat, depth: nat, length: nat)
    ensures Within(notes, length) <==> Inside(Noted(notes, base, depth), base, base + length)
  {
    if notes != [] {
      var n := |notes| - 1;
      var less := Noted(notes[..n], base, depth);
      var last := Span(base + notes[n].0, notes[n].1, depth);
      ShiftedInside(notes[..n], base, depth, length);
      assert forall s :: s in less + [last] <==> s in less || s == last;
      assert Noted(notes, base, depth) == less + [last];
      assert Within(notes, length) <==> Within(notes[..n], length) && notes[n].0 + notes[n].1 <= length;
    }
  }

  lemma {:induction false} WithinConcat(a: Notes, b: Notes, length: nat)
    ensures Within(a + b, length) <==> Within(a, length) && Within(b, length)
  {
    if Within(a + b, length) {
      forall i | 0 <= i < |a| ensures a[i].0 + a[i].1 <= length { assert (a + b)[i] == a[i]; }
      forall i | 0 <= i < |b| ensures b[i].0 + b[i].1 <= length { assert (a + b)[|a| + i] == b[i]; }
    }
  }

  lemma {:induction false} ErrorInfoWithin(info: ErrorInfo, at: nat, length: nat)
    requires at + ERROR_INFO_SIZE <= length
    ensures Within(ErrorInfoNotes(info, at), length)
  {
    var head: Notes := [(at, 16), (at + 16, 8), (at + 24, 8)];
    var a, b, c, d := NoteIf(info.targetId, at + 32), NoteIf(info.requestorId, at + 40),
        NoteIf(info.responderId, at + 48),
                      NoteIf(info.instructionIp, at + 56);
    WithinConcat(head, a, length);
    WithinConcat(head + a, b, length);
    WithinConcat(head + a + b, c, length);
    WithinConcat(head + a + b + c, d, length);
  }

  lemma {:induction false} ErrorNotesWithin(infos: seq<ErrorInfo>, length: nat)
    requires |infos| <= Fitting(length, ERROR_INFO_START, ERROR_INFO_SIZE)
    ensures Within(AllErrorNotes(infos), length)
  {
    if infos != [] {
      var n := |infos| - 1;
      var at := ERROR_INFO_START + n * ERROR_INFO_SIZE;
      ErrorNotesWithin(infos[..n], length);
      Fits1(length - ERROR_INFO_START, ERROR_INFO_SIZE, n);
      ErrorInfoWithin(infos[n], at, length);
      WithinConcat(AllErrorNotes(infos[..n]), ErrorInfoNotes(infos[n], at), length);
    }
  }

  /** How long a body of a type must be for its unconditional fields. */
  function Needed(sectionType: Guid): nat {
    if sectionType == PROCESSOR_GENERIC then 192 else if sectionType == IA32_X64_PROCESSOR then 64 else 0
  }

  lemma {:induction false} GenericNotesWithin(brand: string, length: nat)
    ensures Within(GENERIC_HEAD + (if brand != "" then [(24, 128)] else []) + GENERIC_TAIL, length) <==> length >= 192
  {
    var middle: Notes := if brand != "" then [(24, 128)] else [];
    WithinConcat(GENERIC_HEAD + middle, GENERIC_TAIL, length);
    WithinConcat(GENERIC_HEAD, middle, length);
    assert GENERIC_TAIL[4] == (184, 8);
  }

  lemma {:induction false} Ia32X64NotesWithin(infos: seq<ErrorInfo>, length: nat)
    requires |infos| <= Fitting(length, ERROR_INFO_START, ERROR_INFO_SIZE)
    ensures Within(IA32_X64_HEAD + AllErrorNotes(infos), length) <==> length >= 64
  {
    WithinConcat(IA32_X64_HEAD, AllErrorNotes(infos), length);
    ErrorNotesWithin(infos, length);
    assert IA32_X64_HEAD[2] == (16, 48);
  }

  /** A longer buffer fits at least as many structures. */
  lemma {:induction false} FitsMore(a: nat, b: nat, start: nat, size: nat)
    requires size > 0 && a <= b
    ensures Fitting(a, start, size) <= Fitting(b, start, size)
  {
    if a >= start {
      var q := (a - start) / size;
      if q > 0 {
        Fits1(a - start, size, q - 1);
        Fits1(b - start, size, q - 1);
      }
    }
  }

  /** The fields noted of a body lie in the room from its start on exactly when that room is as
      long as the type needs, however short the body: it is noted in full. */
  lemma {:induction false} RoomForNotes(sectionType: Guid, bytes: seq<Byte>, room: nat)
    requires |bytes| <= room
    ensures Within(BodyNotes(DecodeBody(sectionType, bytes)), room) <==> room >= Needed(sectionType)
  {
    var body := DecodeBody(sectionType, bytes);
    if sectionType == PROCESSOR_GENERIC {
      GenericNotesWithin(body.brand, room);
    } else if sectionType == IA32_X64_PROCESSOR {
      FitsMore(|bytes|, room, ERROR_INFO_START, ERROR_INFO_SIZE);
      Ia32X64NotesWithin(body.errorInfo, room);
    }
  }

  /** The fields noted of a body lie inside it exactly when it is as long as its type needs. */
  lemma {:induction false} BodyNotesWithin(sectionType: Guid, bytes: seq<Byte>)
    ensures Within(BodyNotes(DecodeBody(sectionType, bytes)), |bytes|) <==> |bytes| >= Needed(sectionType)
  {
    RoomForNotes(sectionType, bytes, |bytes|);
  }

  ghost predicate LongEnough(s: Section) { s.body.Unavailable? || |s.raw| >= Needed(s.descriptor.sectionType) }

  lemma {:induction false} DescriptorSpansInside(index: nat, to: nat)
    requires DescriptorOffset(index) + DESCRIPTOR_SIZE <= to
    ensures Inside(Noted(DESCRIPTOR_NOTES, DescriptorOffset(index), 0), 0, to)
  {
    ShiftedInside(DESCRIPTOR_NOTES, DescriptorOffset(index), 0, DESCRIPTOR_SIZE);
    Wider(Noted(DESCRIPTOR_NOTES, DescriptorOffset(index), 0), DescriptorOffset(index), DescriptorOffset(index)
        + DESCRIPTOR_SIZE, to);
  }

  lemma {:induction false} Wider(spans: seq<Span>, from: nat, to: nat, end: nat)
    requires Inside(spans, from, to) && to <= end
    ensures Inside(spans, 0, end)
  {
  }

  /** The fields noted of a section's body lie inside the body exactly when it is long enough. */
  lemma {:induction false} SectionSpansInside(data: seq<Byte>, index: nat)
    requires Has(data, DescriptorOffset(index), DESCRIPTOR_SIZE) && !SectionAt(data, index).body.Unavailable?
    ensures var s := SectionAt(data, index); var d := s.descriptor;
            && d.offset + d.length <= |data|
            && (Inside(Noted(BodyNotes(s.body), d.offset, 1), d.offset, d.offset + d.length) <==> LongEnough(s))
  {
    var s := SectionAt(data, index);
    BodyNotesWithin(s.descriptor.sectionType, s.raw);
    ShiftedInside(BodyNotes(s.body), s.descriptor.offset, 1, s.descriptor.length);
  }

  lemma {:induction false} InsideConcat(a: seq<Span>, b: seq<Span>, to: nat)
    ensures Inside(a + b, 0, to) <==> Inside(a, 0, to) && Inside(b, 0, to)
  {
    assert forall s :: s in a + b <==> s in a || s in b;
  }

  lemma {:induction false} NotedFrom(notes: Notes, base: nat, depth: nat, to: nat)
    ensures Inside(Noted(notes, base, depth), base, to) <==> Inside(Noted(notes, base, depth), 0, to)
  {
    ShiftedAfter(notes, base, depth);
  }

  lemma {:induction false} ShiftedAfter(notes: Notes, base: nat, depth: nat)
    ensures forall s <- Noted(notes, base, depth) :: base <= s.offset
  {
    if notes != [] {
      var n := |notes| - 1;
      ShiftedAfter(notes[..n], base, depth);
      assert Noted(notes, base, depth) == Noted(notes[..n], base, depth) + [Span(base + notes[n].0, notes[n].1, depth)];
    }
  }

  /** What the section's type needs ends inside a record of `size` bytes. */
  predicate Reaches(s: Section, size: nat) {
    s.body.Unavailable? || s.descriptor.offset + Needed(s.descriptor.sectionType) <= size
  }

  /** The fields noted of a section's body lie in the record exactly when what its type needs
      does. */
  lemma {:induction false} BodySpansInRecord(data: seq<Byte>, index: nat)
    requires Has(data, DescriptorOffset(index), DESCRIPTOR_SIZE)
    ensures var s := SectionAt(data, index);
            Inside(Noted(BodyNotes(s.body), s.descriptor.offset, 1), 0, |data|) <==> Reaches(s, |data|)
  {
    var s := SectionAt(data, index);
    if s.body.Unavailable? {
      assert Noted(BodyNotes(s.body), s.descriptor.offset, 1) == [];
    } else {
      var room := |data| - s.descriptor.offset;
      RoomForNotes(s.descriptor.sectionType, s.raw, room);
      ShiftedInside(BodyNotes(s.body), s.descriptor.offset, 1, room);
      NotedFrom(BodyNotes(s.body), s.descriptor.offset, 1, |data|);
    }
  }

  lemma {:induction false} SectionTraceInside(data: seq<Byte>, index: nat)
    requires Has(data, DescriptorOffset(index), DESCRIPTOR_SIZE)
    ensures Inside(SectionTrace(SectionAt(data, index), index), 0, |data|) <==> Reaches(SectionAt(data, index), |data|)
  {
    var s := SectionAt(data, index);
    DescriptorSpansInside(index, |data|);
    BodySpansInRecord(data, index);
    InsideConcat(Noted(DESCRIPTOR_NOTES, DescriptorOffset(index), 0), Noted(BodyNotes(s.body), s.descriptor.offset, 1),
                 |data|);
  }

  predicate EachReaches(sections: seq<Section>, size: nat) {
    sections == [] || (EachReaches(sections[..|sections| - 1], size) && Reaches(sections[|sections| - 1], size))
  }

  lemma {:induction false} TracesInside(data: seq<Byte>, count: nat)
    requires count <= Fitting(|data|, HEADER_SIZE, DESCRIPTOR_SIZE)
    ensures Inside(Traced(Sections(data, count)), 0, |data|) <==> EachReaches(Sections(data, count), |data|)
  {
    if count > 0 {
      var n := count - 1;
      FitsBefore(data, HEADER_SIZE, DESCRIPTOR_SIZE, n);
      var s := SectionAt(data, n);
      NextSection(data, n);
      assert (Sections(data, n) + [s])[..n] == Sections(data, n);
      TracesInside(data, n);
      SectionTraceInside(data, n);
      TracedSnoc(Sections(data, n), s, SectionTrace(s, n));
      InsideConcat(Traced(Sections(data, n)), SectionTrace(s, n), |data|);
    }
  }

  predicate AllReach(record: Record, size: nat) {
    match record
    case Rejected(_) => true
    case Decoded(_, sections, _) => EachReaches(sections, size)
  }

  /** Every span noted of a record lies inside it exactly when what the type of each section
      needs, from the start of the section's body on, does. */
  lemma {:induction false} TraceInside(data: seq<Byte>)
    ensures Inside(TraceOf(Decode(data)), 0, |data|) <==> AllReach(Decode(data), |data|)
  {
    if Decode(data).Decoded? {
      SectionsAre(data);
      HeaderInside(|data|);
      TracesInside(data, SectionCount(data));
      InsideConcat(Noted(HEADER_NOTES, 0, 0), Traced(Decode(data).sections), |data|);
    }
  }

  // --- A record whose trace leaves it -----------------------------------------------------------

  function Zeros(count: nat): seq<Byte> { seq(count, _ => 0) }

  /** A header that declares one section, and the section's descriptor: an IA32/X64 body of no
      bytes at the end of the record. */
  function ShortRecord(): (r: seq<Byte>)
    ensures |r| == 200
  {
    [0x43, 0x50, 0x45, 0x52] + Zeros(6) + [1, 0] + Zeros(116)
    + [200, 0, 0, 0] + Zeros(12)
    + [0xb0, 0xa0, 0x3e, 0xdc, 0x44, 0xa1, 0x97, 0x47, 0xb9, 0x5b, 0x53, 0xfa, 0x24, 0x2b, 0x6e, 0x1d] + Zeros(40)
  }

  lemma {:induction false} ShortRecordParts()
    ensures ShortRecord()[0..4] == [0x43, 0x50, 0x45, 0x52] && ShortRecord()[10..12] == [1, 0]
    ensures ShortRecord()[128..132] == [200, 0, 0, 0] && ShortRecord()[132..136] == [0, 0, 0, 0]
    ensures ShortRecord()[144..160]
         == [0xb0, 0xa0, 0x3e, 0xdc, 0x44, 0xa1, 0x97, 0x47, 0xb9, 0x5b, 0x53, 0xfa, 0x24, 0x2b, 0x6e, 0x1d]
  {
  }

  lemma {:induction false} TwoBytes(b: seq<Byte>)
    requires |b| >= 2
    ensures LittleEndian(b) == b[0] as int + 0x100 * b[1] as int + 0x1_0000 * LittleEndian(b[2..])
    ensures |b| == 2 ==> b[2..] == []
  {
    var rest := b[1..];
    assert LittleEndian(b) == b[0] as int + 0x100 * LittleEndian(rest);
    assert LittleEndian(rest) == rest[0] as int + 0x100 * LittleEndian(rest[1..]);
    assert rest[1..] == b[2..];
  }

  lemma {:induction false} ShortRecordType()
    ensures ReadGuid(ShortRecord(), 144) == IA32_X64_PROCESSOR
  {
    ShortRecordParts();
    var raw := ShortRecord()[144..160];
    TwoBytes(raw[..4]);
    TwoBytes(raw[..4][2..]);
    TwoBytes(raw[4..6]);
    TwoBytes(raw[6..8]);
    assert raw[8..] == IA32_X64_PROCESSOR.data4;
  }

  lemma {:induction false} ShortRecordHeader()
    ensures DecodeHeader(ShortRecord()).signature == "CPER" && DecodeHeader(ShortRecord()).sectionCount == 1
  {
    ShortRecordParts();
    TwoBytes(ShortRecord()[10..12]);
    var b := ShortRecord()[0..4];
    assert TextUpToNul(b[1..][1..][1..][1..]) == "";
    assert TextUpToNul(b) == "CPER";
  }

  lemma {:induction false} ShortRecordSection()
    ensures Has(ShortRecord(), DescriptorOffset(0), DESCRIPTOR_SIZE)
    ensures var s := SectionAt(ShortRecord(), 0);
            !s.body.Unavailable? && s.descriptor.offset == 200 && s.descriptor.sectionType == IA32_X64_PROCESSOR
  {
    ShortRecordParts();
    ShortRecordType();
    TwoBytes(ShortRecord()[128..132]);
    TwoBytes(ShortRecord()[128..132][2..]);
    TwoBytes(ShortRecord()[132..136]);
    TwoBytes(ShortRecord()[132..136][2..]);
  }

  lemma {:induction false} OneSection(data: seq<Byte>)
    requires |data| == 200 && DecodeHeader(data).signature == "CPER" && DecodeHeader(data).sectionCount == 1
    ensures Has(data, DescriptorOffset(0), DESCRIPTOR_SIZE)
    ensures Decode(data).Decoded? && Decode(data).sections == [SectionAt(data, 0)]
  {
    SectionsAre(data);
  }

  lemma {:induction false} OneShort(data: seq<Byte>, s: Section)
    requires Decode(data).Decoded? && Decode(data).sections == [s]
    ensures Inside(TraceOf(Decode(data)), 0, |data|) <==> Reaches(s, |data|)
  {
    TraceInside(data);
    assert [s][..0] == [] && EachReaches([], |data|);
  }

  /** This record decodes, and its trace notes bytes past its end. */
  lemma {:induction false} ShortRecordLeaves()
    ensures Decode(ShortRecord()).Decoded? && |Decode(ShortRecord()).sections| == 1
    ensures !Inside(TraceOf(Decode(ShortRecord())), 0, |ShortRecord()|)
  {
    var data := ShortRecord();
    ShortRecordHeader();
    ShortRecordSection();
    OneSection(data);
    OneShort(data, SectionAt(data, 0));
  }

  lemma {:induction false} SectionsAre(data: seq<Byte>)
    requires Decode(data).Decoded?
    ensures |data| >= HEADER_SIZE && Decode(data).sections == Sections(data, SectionCount(data))
  {
  }

  lemma {:induction false} HeaderInside(to: nat)
    requires to >= HEADER_SIZE
    ensures Inside(Noted(HEADER_NOTES, 0, 0), 0, to)
  {
    ShiftedInside(HEADER_NOTES, 0, 0, HEADER_SIZE);
    Wider(Noted(HEADER_NOTES, 0, 0), 0, HEADER_SIZE, to);
  }

  // --- The traced decode itself -------------------------------------------------------------------

  class Trace {
    var fields: seq<Span>
    var base: nat
    var depth: nat

    constructor ()
      ensures fields == [] && base == 0 && depth == 0
    {
      fields, base, depth := [], 0, 0;
    }

    method Add(offset: nat, length: nat)
      modifies this`fields
      ensures fields == old(fields) + [Span(base + offset, length, depth)]
    {
      fields := fields + [Span(base + offset, length, depth)];
    }

    method AddAll(notes: Notes, at: nat)
      modifies this`fields
      ensures fields == old(fields) + Noted(notes, base + at, depth)
    {
      assert old(fields) + [] == old(fields);
      for i := 0 to |notes|
        invariant fields == old(fields) + Noted(notes[..i], base + at, depth)
      {
        NotedSnoc(notes, i, base + at, depth);
        Add(at + notes[i].0, notes[i].1);
      }
      assert notes[..|notes|] == notes;
    }
  }

  /** The fields at `at`, and then those `inner` with the trace moved to `base` and back. */
  method NoteNested(trace: Trace, outer: Notes, at: nat, nested: bool, inner: Notes, base: nat)
    requires trace.base == 0 && trace.depth == 0
    modifies trace
    ensures trace.base == 0 && trace.depth == 0
    ensures trace.fields == old(trace.fields) + Noted(outer, at, 0) + if nested then Noted(inner, base, 1) else []
  {
    trace.AddAll(outer, at);
    if !nested { return; }
    var previousBase, previousDepth := trace.base, trace.depth;
    trace.base, trace.depth := base, previousDepth + 1;
    trace.AddAll(inner, 0);
    trace.base, trace.depth := previousBase, previousDepth;
  }

  lemma {:induction false} SectionTraceIs(start: seq<Span>, sections: seq<Section>, s: Section)
    ensures var inner := Noted(BodyNotes(s.body), s.descriptor.offset, 1);
            start + Traced(sections) + Noted(DESCRIPTOR_NOTES, DescriptorOffset(|sections|), 0)
            + (if s.body.Unavailable? then [] else inner)
            == start + Traced(sections + [s])
  {
    var outer, inner := Noted(DESCRIPTOR_NOTES, DescriptorOffset(|sections|), 0),
                        Noted(BodyNotes(s.body), s.descriptor.offset, 1);
    TracedSnoc(sections, s, SectionTrace(s, |sections|));
    assert s.body.Unavailable? ==> inner == [];
    InnerLast(start, Traced(sections), outer, inner);
  }

  lemma {:induction false} InnerLast<T>(a: seq<T>, b: seq<T>, c: seq<T>, d: seq<T>)
    ensures a + b + c + d == a + (b + (c + d))
  {
  }

  /** One section more. */
  method NoteSection(trace: Trace, section: Section, index: nat, ghost start: seq<Span>, ghost sections: seq<Section>)
    requires trace.base == 0 && trace.depth == 0 && index == |sections| && trace.fields == start + Traced(sections)
    modifies trace
    ensures trace.base == 0 && trace.depth == 0 && trace.fields == start + Traced(sections + [section])
  {
    SectionTraceIs(start, sections, section);
    NoteNested(trace, DESCRIPTOR_NOTES, DescriptorOffset(index), !section.body.Unavailable?, BodyNotes(section.body),
               section.descriptor.offset);
  }

  lemma {:induction false} NotedSnoc(notes: Notes, i: nat, base: nat, depth: nat)
    requires i < |notes|
    ensures Noted(notes[..i + 1], base, depth) == Noted(notes[..i], base, depth)
            + [Span(base + notes[i].0, notes[i].1, depth)]
  {
    assert notes[..i + 1][..i] == notes[..i];
  }

  /** Decoding with a trace gives the record that decoding without one gives. */
  method DecodeTraced(data: seq<Byte>, trace: Trace) returns (record: Record)
    modifies trace
    ensures record == Decode(data) && trace.fields == TraceOf(record) && trace.base == 0 && trace.depth == 0
  {
    trace.fields, trace.base, trace.depth := [], 0, 0;
    if |data| < HEADER_SIZE { return Rejected(TooShort(|data|)); }
    var h := DecodeHeader(data);
    if h.signature != "CPER" { return Rejected(NoSignature(h.signature)); }
    record := DecodeRest(data, trace);
  }

  method DecodeRest(data: seq<Byte>, trace: Trace) returns (record: Record)
    requires |data| >= HEADER_SIZE && DecodeHeader(data).signature == "CPER"
    requires trace.fields == [] && trace.base == 0 && trace.depth == 0
    modifies trace
    ensures record == Decode(data) && trace.fields == TraceOf(record) && trace.base == 0 && trace.depth == 0
  {
    var h := DecodeHeader(data);
    trace.AddAll(HEADER_NOTES, 0);
    assert trace.fields == Noted(HEADER_NOTES, 0, 0);
    var sections, more := DoSectionsTraced(data, h.sectionCount, trace);
    var warnings := HeaderWarnings(h, |data|) + more + if h.sectionCount == 0 then [NoSections] else [];
    DecodeIs(data, sections, more, warnings);
    record := Decoded(h, sections, warnings);
  }

  method DoSectionsTraced(data: seq<Byte>, declared: nat, trace: Trace)
      returns (sections: seq<Section>, warnings: seq<Warning>)
    requires trace.base == 0 && trace.depth == 0
    modifies trace
    ensures sections == Sections(data, Min(declared, Fitting(|data|, HEADER_SIZE, DESCRIPTOR_SIZE)))
    ensures warnings == BodyWarnings(sections)
                        + if |sections| < declared then [MissingDescriptors(declared, |sections|)] else []
    ensures trace.base == 0 && trace.depth == 0 && trace.fields == old(trace.fields) + Traced(sections)
  {
    sections, warnings := [], [];
    assert trace.fields + [] == trace.fields;
    for index := 0 to declared
      invariant index <= Fitting(|data|, HEADER_SIZE, DESCRIPTOR_SIZE) && sections == Sections(data, index)
      invariant warnings == BodyWarnings(sections)
      invariant trace.base == 0 && trace.depth == 0 && trace.fields == old(trace.fields) + Traced(sections)
    {
      FitsBefore(data, HEADER_SIZE, DESCRIPTOR_SIZE, index);
      if !Has(data, DescriptorOffset(index), DESCRIPTOR_SIZE) {
        warnings := warnings + [MissingDescriptors(declared, |sections|)];
        return;
      }
      NextSection(data, index);
      var section := SectionAt(data, index);
      NoteSection(trace, section, index, old(trace.fields), sections);
      if section.body.Unavailable? { warnings := warnings + [BodyOutOfRange(index)]; }
      sections := sections + [section];
    }
  }
}
