/** CPER records (UEFI Specification, Appendix N): a decoder that is total, exact about how
    much it decodes, and unmoved by what a truncation cuts off. */
module Cper {
  import opened Arithmetic
  import opened Text

  // --- Bounds-checked reads -------------------------------------------------------------------

  /** The extent lies inside the buffer; written without an addition that could wrap. */
  predicate Has(data: seq<Byte>, offset: nat, length: nat) { offset <= |data| && length <= |data| - offset }

  function Bytes(data: seq<Byte>, offset: nat, length: nat): Option<seq<Byte>> {
    if Has(data, offset, length) then Some(data[offset..offset + length]) else None
  }

  function LittleEndian(bytes: seq<Byte>): nat {
    if bytes == [] then 0 else bytes[0] + 256 * LittleEndian(bytes[1..])
  }

  function Read(data: seq<Byte>, offset: nat, width: nat): Option<nat> {
    var raw := Bytes(data, offset, width);
    if raw.None? then None else Some(LittleEndian(raw.value))
  }

  function ReadOr0(data: seq<Byte>, offset: nat, width: nat): nat {
    if Read(data, offset, width).Some? then Read(data, offset, width).value else 0
  }

  /** Printable characters up to the first NUL, `.` for the rest, no blanks at the end. */
  function TextUpToNul(bytes: seq<Byte>): string {
    if bytes == [] || bytes[0] == 0 then "" else
    [if 0x20 <= bytes[0] < 0x7F then bytes[0] as char else '.'] + TextUpToNul(bytes[1..])
  }

  function TrimEnd(s: string): string {
    if s != "" && s[|s| - 1] == ' ' then TrimEnd(s[..|s| - 1]) else s
  }

  function ReadText(data: seq<Byte>, offset: nat, length: nat): string {
    var raw := Bytes(data, offset, length);
    if raw.None? then "" else TrimEnd(TextUpToNul(raw.value))
  }

  /** A field that the buffer does not hold in full reads as nothing. */
  lemma {:induction false} PastTheEnd(data: seq<Byte>, offset: nat, width: nat)
    requires offset + width > |data|
    ensures Read(data, offset, width).None? && ReadOr0(data, offset, width) == 0 && ReadText(data, offset, width) == ""
    ensures width == 16 ==> ReadGuid(data, offset) == Guid(0, 0, 0, [0, 0, 0, 0, 0, 0, 0, 0])
  {
  }

  // --- Identifiers -------------------------------------------------------------------------------

  datatype Guid = Guid(data1: nat, data2: nat, data3: nat, data4: seq<Byte>)

  const NULL_GUID := Guid(0, 0, 0, [0, 0, 0, 0, 0, 0, 0, 0])

  function ReadGuid(data: seq<Byte>, offset: nat): Guid {
    var raw := Bytes(data, offset, 16);
    if raw.None? then NULL_GUID else
    Guid(LittleEndian(raw.value[..4]), LittleEndian(raw.value[4..6]), LittleEndian(raw.value[6..8]), raw.value[8..])
  }

  const PROCESSOR_GENERIC := Guid(0x9876ccad, 0x47b4, 0x4bdb, [0xb6, 0x5e, 0x16, 0xf1, 0x93, 0xc4, 0xf3, 0xdb])
  const IA32_X64_PROCESSOR := Guid(0xdc3ea0b0, 0xa144, 0x4797, [0xb9, 0x5b, 0x53, 0xfa, 0x24, 0x2b, 0x6e, 0x1d])
  const PLATFORM_MEMORY := Guid(0xa5bc1114, 0x6f64, 0x4ede, [0xb8, 0x63, 0x3e, 0x83, 0xed, 0x7c, 0x83, 0xb1])
  const CACHE_CHECK := Guid(0xa55701f5, 0xe3ef, 0x43de, [0xac, 0x72, 0x24, 0x9b, 0x57, 0x3f, 0xad, 0x2c])
  const TLB_CHECK := Guid(0xfc06b535, 0x5e1f, 0x4562, [0x9f, 0x25, 0x0a, 0x3b, 0x9a, 0xdb, 0x63, 0xc3])
  const BUS_CHECK := Guid(0x1cf3f8b3, 0xc5b1, 0x49a2, [0xaa, 0x59, 0x5e, 0xef, 0x92, 0xff, 0xa6, 0x3c])
  const MICRO_ARCHITECTURAL_CHECK := Guid(0x48ab7f57, 0xdc34, 0x4f6c, [0xa7, 0xd3, 0xb0, 0xb5, 0xb0, 0xa7, 0x43, 0x14])

  // --- Header -------------------------------------------------------------------------------------

  datatype Severity = Recoverable | Fatal | Corrected | Informational | Unknown

  function ToSeverity(raw: nat): Severity {
    match raw
    case 0 => Recoverable
    case 1 => Fatal
    case 2 => Corrected
    case 3 => Informational
    case _ => Unknown
  }

  datatype Timestamp = Timestamp(
    present: bool, precise: bool, plausible: bool,
    second: nat, minute: nat, hour: nat, day: nat, month: nat, year: nat, raw: nat)

  /** Two decimal digits in one byte. */
  function Bcd(byte: Byte): Option<nat> {
    var high, low := byte / 16, byte % 16;
    if high > 9 || low > 9 then None else Some(high * 10 + low)
  }

  /** All but the fourth byte, which is not a number. */
  predicate AllBcd(b: seq<Byte>)
    requires |b| == 8
  {
    Bcd(b[0]).Some? && Bcd(b[1]).Some? && Bcd(b[2]).Some? && Bcd(b[4]).Some? && Bcd(b[5]).Some? && Bcd(b[6]).Some?
    && Bcd(b[7]).Some?
  }

  function DecodeTimestamp(data: seq<Byte>, offset: nat, valid: bool): Timestamp {
    var empty := Timestamp(valid, false, false, 0, 0, 0, 0, 0, 0, ReadOr0(data, offset, 8));
    var raw := Bytes(data, offset, 8);
    if raw.None? then empty else
    var b := raw.value;
    var t := empty.(precise := b[3] % 2 == 1);
    if !AllBcd(b) then t else BcdFields(t, b)
  }

  function BcdFields(t: Timestamp, b: seq<Byte>): Timestamp
    requires |b| == 8 && AllBcd(b)
  {
    var second, minute, hour := Bcd(b[0]).value, Bcd(b[1]).value, Bcd(b[2]).value;
    var day, month, year := Bcd(b[4]).value, Bcd(b[5]).value, Bcd(b[7]).value * 100 + Bcd(b[6]).value;
    t.(second := second, minute := minute, hour := hour, day := day, month := month, year := year,
       plausible := second <= 60 && minute <= 59 && hour <= 23 && 1 <= day <= 31 && 1 <= month <= 12
                    && 1998 <= year <= 2200)
  }

  datatype Header = Header(
    signature: string,
    revision: nat,
    signatureEnd: nat,
    sectionCount: nat,
    severity: Severity,
    severityRaw: nat,
    validationBits: nat,
    recordLength: nat,
    timestamp: Timestamp,
    platformId: Guid,
    partitionId: Guid,
    creatorId: Guid,
    notificationType: Guid,
    recordId: nat,
    flags: nat,
    persistenceInfo: nat)

  const HEADER_SIZE := 128
  const DESCRIPTOR_SIZE := 72

  function DecodeHeader(data: seq<Byte>): Header {
    var validation := ReadOr0(data, 16, 4);
    Header(
      ReadText(data, 0, 4), ReadOr0(data, 4, 2), ReadOr0(data, 6, 4), ReadOr0(data, 10, 2),
      ToSeverity(ReadOr0(data, 12, 4)), ReadOr0(data, 12, 4), validation, ReadOr0(data, 20, 4),
      DecodeTimestamp(data, 24, Bit(validation, 1)),
      ReadGuid(data, 32), ReadGuid(data, 48), ReadGuid(data, 64), ReadGuid(data, 80),
      ReadOr0(data, 96, 8), ReadOr0(data, 104, 4), ReadOr0(data, 108, 8))
  }

  datatype Descriptor = Descriptor(
    offset: nat,
    length: nat,
    revision: nat,
    validationBits: nat,
    flags: nat,
    sectionType: Guid,
    fruId: Guid,
    severity: Severity,
    severityRaw: nat,
    fruText: string)

  function DescriptorOffset(index: nat): nat { HEADER_SIZE + index * DESCRIPTOR_SIZE }

  function DecodeDescriptor(data: seq<Byte>, at: nat): Option<Descriptor> {
    if !Has(data, at, DESCRIPTOR_SIZE) then None else
    Some(Descriptor(
      ReadOr0(data, at, 4), ReadOr0(data, at + 4, 4), ReadOr0(data, at + 8, 2), ReadOr0(data, at + 10, 1),
      ReadOr0(data, at + 12, 4), ReadGuid(data, at + 16), ReadGuid(data, at + 32),
      ToSeverity(ReadOr0(data, at + 48, 4)), ReadOr0(data, at + 48, 4), ReadText(data, at + 52, 20)))
  }

  // --- Check structures ------------------------------------------------------------------------

  datatype Check =
    | CacheOrTlb(tlb: bool)
    | Bus
    | MicroArchitectural

  datatype Named =
    | TransactionType | Operation | Level
    | ContextCorrupt | Uncorrected | PreciseIp | RestartableIp | Overflow
    | Participation | TimedOut | AddressSpace
    | ErrorType

  /** A field, the bit that says whether it is valid, and where it lies. */
  datatype Place = Place(name: Named, validBit: nat, low: nat, width: nat)

  const SHARED_PLACES := [
    Place(TransactionType, 0, 16, 2), Place(Operation, 1, 18, 2), Place(Level, 2, 20, 4),
    Place(ContextCorrupt, 3, 24, 1), Place(Uncorrected, 4, 25, 1), Place(PreciseIp, 5, 26, 1),
    Place(RestartableIp, 6, 27, 1), Place(Overflow, 7, 28, 1)]

  const BUS_PLACES := SHARED_PLACES
    + [Place(Participation, 8, 29, 2), Place(TimedOut, 9, 31, 1), Place(AddressSpace, 10, 32, 2)]

  const MS_PLACES := [
    Place(ErrorType, 0, 16, 3), Place(ContextCorrupt, 1, 19, 1), Place(Uncorrected, 2, 20, 1),
    Place(PreciseIp, 3, 21, 1), Place(RestartableIp, 4, 22, 1), Place(Overflow, 5, 23, 1)]

  function Places(check: Check): seq<Place> {
    match check
    case CacheOrTlb(_) => SHARED_PLACES
    case Bus => BUS_PLACES
    case MicroArchitectural => MS_PLACES
  }

  function ValidationWidth(check: Check): nat { if check.CacheOrTlb? then 8 else 16 }

  datatype FieldRow = FieldRow(name: Named, value: nat)

  datatype CheckInfo = CheckInfo(check: Check, raw: nat, validationBits: nat, rows: seq<FieldRow>)

  /** The fields whose validation bit is set, in order. */
  function ValidRows(places: seq<Place>, value: nat, validation: nat): seq<FieldRow> {
    if places == [] then [] else
    (if Bit(validation, places[0].validBit) then [FieldRow(places[0].name,
        Field(value, places[0].low, places[0].width))] else [])
    + ValidRows(places[1..], value, validation)
  }

  function DecodeCheck(check: Check, value: nat): CheckInfo {
    var validation := Field(value, 0, ValidationWidth(check));
    CheckInfo(check, value, validation, ValidRows(Places(check), value, validation))
  }

  function CheckOf(guid: Guid): Option<Check> {
    if guid == CACHE_CHECK then Some(CacheOrTlb(false))
    else if guid == TLB_CHECK then Some(CacheOrTlb(true))
    else if guid == BUS_CHECK then Some(Bus)
    else if guid == MICRO_ARCHITECTURAL_CHECK then Some(MicroArchitectural)
    else None
  }

  // --- Section bodies ------------------------------------------------------------------------------

  function ReadIf(valid: bool, data: seq<Byte>, offset: nat, width: nat): Option<nat> {
    if valid then Read(data, offset, width) else None
  }

  datatype ErrorInfo = ErrorInfo(
    checkType: Guid,
    validationBits: nat,
    checkInfoRaw: nat,
    check: Option<CheckInfo>,
    targetId: Option<nat>,
    requestorId: Option<nat>,
    responderId: Option<nat>,
    instructionIp: Option<nat>)

  const ERROR_INFO_SIZE := 64
  const ERROR_INFO_START := 64

  function DecodeErrorInfo(body: seq<Byte>, at: nat): ErrorInfo {
    var guid, valid, raw := ReadGuid(body, at), ReadOr0(body, at + 16, 8), ReadOr0(body, at + 24, 8);
    ErrorInfo(guid, valid, raw,
              if Bit(valid, 0) && CheckOf(guid).Some? then Some(DecodeCheck(CheckOf(guid).value, raw)) else None,
              ReadIf(Bit(valid, 1), body, at + 32, 8), ReadIf(Bit(valid, 2), body, at + 40, 8),
              ReadIf(Bit(valid, 3), body, at + 48, 8), ReadIf(Bit(valid, 4), body, at + 56, 8))
  }

  function Min(a: nat, b: nat): nat { if a < b then a else b }

  /** How many structures of `size` bytes fit from `start` on. */
  function Fitting(length: nat, start: nat, size: nat): nat
    requires size > 0
  {
    if length < start then 0 else (length - start) / size
  }

  function ErrorInfos(body: seq<Byte>, count: nat): seq<ErrorInfo> {
    seq(count, i requires 0 <= i < count => DecodeErrorInfo(body, ERROR_INFO_START + i * ERROR_INFO_SIZE))
  }

  datatype Body =
    | Unavailable
    | Generic(validationBits: nat, values: seq<nat>, brand: string)
    | Ia32X64(validationBits: nat, localApicId: nat, cpuidInfo: Option<seq<Byte>>, leaf1: Option<nat>,
              declaredErrorInfo: nat, declaredContextInfo: nat, errorInfo: seq<ErrorInfo>)
    | Memory(validationBits: nat, validValues: seq<Option<nat>>)
    | Unrecognised

  /** Offset and width of the fields every Processor Generic section has. */
  const GENERIC_FIELDS := [
    (8, 1), (9, 1), (10, 1), (11, 1), (12, 1), (13, 1), (16, 8), (152, 8), (160, 8), (168, 8), (176, 8), (184, 8)]

  /** Validation bit, offset and width of the Platform Memory fields. */
  const MEMORY_FIELDS := [
    (0, 8, 8), (1, 16, 8), (2, 24, 8), (3, 32, 2), (4, 34, 2), (5, 36, 2), (6, 38, 2), (7, 40, 2), (8, 42, 2),
    (9, 44, 2), (10, 46, 2), (11, 48, 8), (12, 56, 8), (13, 64, 8), (14, 72, 1), (15, 74, 2), (16, 76, 2), (17, 78, 2)]

  function DecodeIa32X64(body: seq<Byte>): Body {
    var valid := ReadOr0(body, 0, 8);
    var declared := Field(valid, 2, 6);
    var cpuid := Bytes(body, 16, 48);
    var eax := if cpuid.Some? then LittleEndian(cpuid.value[..4]) else 0;
    Ia32X64(valid, ReadOr0(body, 8, 8), cpuid, if Bit(valid, 1) && eax != 0 then Some(eax) else None,
            declared, Field(valid, 8, 6), ErrorInfos(body,
                Min(declared, Fitting(|body|, ERROR_INFO_START, ERROR_INFO_SIZE))))
  }

  function DecodeBody(sectionType: Guid, body: seq<Byte>): Body {
    var valid := ReadOr0(body, 0, 8);
    if sectionType == PROCESSOR_GENERIC then
      Generic(valid,
              seq(|GENERIC_FIELDS|, i requires 0 <= i < |GENERIC_FIELDS| => ReadOr0(body, GENERIC_FIELDS[i].0,
                  GENERIC_FIELDS[i].1)),
              if Bit(valid, 7) then ReadText(body, 24, 128) else "")
    else if sectionType == IA32_X64_PROCESSOR then DecodeIa32X64(body)
    else if sectionType == PLATFORM_MEMORY then
      Memory(valid, seq(|MEMORY_FIELDS|, i requires 0 <= i < |MEMORY_FIELDS| =>
               ReadIf(Bit(valid, MEMORY_FIELDS[i].0), body, MEMORY_FIELDS[i].1, MEMORY_FIELDS[i].2)))
    else Unrecognised
  }

  // --- The record -------------------------------------------------------------------------------------

  /** `raw` is what the section's hex dump shows. */
  datatype Section = Section(descriptor: Descriptor, body: Body, raw: seq<Byte>)

  function SectionAt(data: seq<Byte>, index: nat): Section
    requires Has(data, DescriptorOffset(index), DESCRIPTOR_SIZE)
  {
    var d := DecodeDescriptor(data, DescriptorOffset(index)).value;
    var body := Bytes(data, d.offset, d.length);
    if body.None? then Section(d, Unavailable, []) else Section(d, DecodeBody(d.sectionType, body.value), body.value)
  }

  /** How many descriptors are declared and fit. */
  function SectionCount(data: seq<Byte>): nat {
    Min(DecodeHeader(data).sectionCount, Fitting(|data|, HEADER_SIZE, DESCRIPTOR_SIZE))
  }

  lemma {:induction false} FitsBefore(data: seq<Byte>, start: nat, size: nat, index: nat)
    requires size > 0
    ensures Has(data, start + index * size, size) <==> index < Fitting(|data|, start, size)
  {
    if |data| >= start { Fits1(|data| - start, size, index); }
  }

  lemma {:induction false} Fits1(room: nat, size: nat, index: nat)
    requires size > 0
    ensures index * size + size <= room <==> index < room / size
  {
    var q := room / size;
    assert room == size * q + room % size;
    assert size * (index + 1) == index * size + size;
    if index < q { Larger(size, index + 1, q); } else { Larger(size, q, index); }
  }

  function Sections(data: seq<Byte>, count: nat): seq<Section>
    requires count <= Fitting(|data|, HEADER_SIZE, DESCRIPTOR_SIZE)
  {
    seq(count, i requires 0 <= i < count => FitsBefore(data, HEADER_SIZE, DESCRIPTOR_SIZE, i); SectionAt(data, i))
  }

  datatype Problem =
    | TooShort(size: nat)
    | NoSignature(found: string)

  datatype Warning =
    | WrongSignatureEnd(value: nat)
    | WrongLength(declared: nat, size: nat)
    | BadTimestamp(raw: nat)
    | BodyOutOfRange(index: nat)
    | MissingDescriptors(declared: nat, decoded: nat)
    | NoSections

  datatype Record =
    | Rejected(problem: Problem)
    | Decoded(header: Header, sections: seq<Section>, warnings: seq<Warning>)

  function HeaderWarnings(h: Header, size: nat): seq<Warning> {
    (if h.signatureEnd != 0xFFFF_FFFF then [WrongSignatureEnd(h.signatureEnd)] else [])
    + (if h.recordLength != size then [WrongLength(h.recordLength, size)] else [])
    + (if Bit(h.validationBits, 1) && !h.timestamp.plausible then [BadTimestamp(h.timestamp.raw)] else [])
  }

  function BodyWarnings(sections: seq<Section>): seq<Warning> {
    if sections == [] then [] else
    var n := |sections| - 1;
    BodyWarnings(sections[..n]) + if sections[n].body.Unavailable? then [BodyOutOfRange(n)] else []
  }

  function Decode(data: seq<Byte>): Record {
    if |data| < HEADER_SIZE then Rejected(TooShort(|data|)) else
    var h := DecodeHeader(data);
    if h.signature != "CPER" then Rejected(NoSignature(h.signature)) else
    var sections := Sections(data, SectionCount(data));
    Decoded(h, sections,
            HeaderWarnings(h, |data|) + BodyWarnings(sections)
            + (if |sections| < h.sectionCount then [MissingDescriptors(h.sectionCount, |sections|)] else [])
            + (if h.sectionCount == 0 then [NoSections] else []))
  }

  // --- A truncated record ---------------------------------------------------------------------

  /** A read inside a prefix of the buffer does not see the rest. */
  lemma {:induction false} BytesSame(data: seq<Byte>, n: nat, offset: nat, length: nat)
    requires offset + length <= n <= |data|
    ensures Bytes(data[..n], offset, length) == Bytes(data, offset, length)
  {
    assert data[..n][offset..offset + length] == data[offset..offset + length];
  }

  lemma {:induction false} HeaderSame(data: seq<Byte>, n: nat)
    requires HEADER_SIZE <= n <= |data|
    ensures DecodeHeader(data[..n]) == DecodeHeader(data)
  {
    NumbersSame(data, n);
    BytesSame(data, n, 24, 8);
    BytesSame(data, n, 32, 16);
    BytesSame(data, n, 48, 16);
    BytesSame(data, n, 64, 16);
    BytesSame(data, n, 80, 16);
    BytesSame(data, n, 0, 4);
  }

  lemma {:induction false} NumbersSame(data: seq<Byte>, n: nat)
    requires HEADER_SIZE <= n <= |data|
    ensures forall at, width | (at, width) in {(4, 2), (6, 4), (10, 2), (12, 4), (16, 4), (20, 4), (24, 8), (96, 8),
            (104, 4), (108, 8)} ::
              ReadOr0(data[..n], at, width) == ReadOr0(data, at, width)
  {
    forall at: nat, width: nat | at + width <= n ensures Bytes(data[..n], at, width) == Bytes(data, at, width) {
      BytesSame(data, n, at, width);
    }
  }

  lemma {:induction false} DescriptorSame(data: seq<Byte>, n: nat, at: nat)
    requires at + DESCRIPTOR_SIZE <= n <= |data|
    ensures DecodeDescriptor(data[..n], at) == DecodeDescriptor(data, at)
  {
    BytesSame(data, n, at, 4);
    BytesSame(data, n, at + 4, 4);
    BytesSame(data, n, at + 8, 2);
    BytesSame(data, n, at + 10, 1);
    BytesSame(data, n, at + 12, 4);
    BytesSame(data, n, at + 16, 16);
    BytesSame(data, n, at + 32, 16);
    BytesSame(data, n, at + 48, 4);
    BytesSame(data, n, at + 52, 20);
  }

  /** A section decoded from a prefix has the same descriptor, and is the same section
      altogether if its body was inside the prefix. */
  lemma {:induction false} SectionSame(data: seq<Byte>, n: nat, index: nat)
    requires n <= |data| && Has(data[..n], DescriptorOffset(index), DESCRIPTOR_SIZE)
    ensures Has(data, DescriptorOffset(index), DESCRIPTOR_SIZE)
    ensures SectionAt(data[..n], index).descriptor == SectionAt(data, index).descriptor
    ensures !SectionAt(data[..n], index).body.Unavailable? ==> SectionAt(data[..n], index) == SectionAt(data, index)
  {
    DescriptorSame(data, n, DescriptorOffset(index));
    var d := DecodeDescriptor(data, DescriptorOffset(index)).value;
    if Has(data[..n], d.offset, d.length) { BytesSame(data, n, d.offset, d.length); }
  }

  lemma {:induction false} SectionsSame(data: seq<Byte>, n: nat, few: nat, all: nat)
    requires n <= |data| && few <= all && few <= SectionCount(data[..n]) && all <= SectionCount(data)
    ensures |Sections(data[..n], few)| == few && |Sections(data, all)| == all
    ensures forall i | 0 <= i < few ::
              && Sections(data[..n], few)[i].descriptor == Sections(data, all)[i].descriptor
              && (!Sections(data[..n], few)[i].body.Unavailable? ==>
                  Sections(data[..n], few)[i] == Sections(data, all)[i])
  {
    forall i | 0 <= i < few
      ensures Sections(data[..n], few)[i].descriptor == Sections(data, all)[i].descriptor
      ensures !Sections(data[..n], few)[i].body.Unavailable? ==> Sections(data[..n], few)[i] == Sections(data, all)[i]
    {
      FitsBefore(data[..n], HEADER_SIZE, DESCRIPTOR_SIZE, i);
      SectionSame(data, n, i);
    }
  }

  /** Cutting a record off anywhere after its header changes neither the verdict nor the
      header, leaves exactly the sections whose descriptors are declared and still fit, each
      with its descriptor, and changes no section whose body is still there. */
  lemma {:induction false} TruncationStable(data: seq<Byte>, n: nat)
    requires HEADER_SIZE <= n <= |data|
    ensures match Decode(data)
            case Rejected(problem) => Decode(data[..n]) == Rejected(problem)
            case Decoded(header, sections, _) =>
              var cut := Decode(data[..n]);
              && cut.Decoded? && cut.header == header
              && |cut.sections| == Min(header.sectionCount, (n - HEADER_SIZE) / DESCRIPTOR_SIZE) <= |sections|
              && forall i | 0 <= i < |cut.sections| ::
                   && cut.sections[i].descriptor == sections[i].descriptor
                   && (!cut.sections[i].body.Unavailable? ==> cut.sections[i] == sections[i])
  {
    HeaderSame(data, n);
    var cut := Decode(data[..n]);
    if cut.Decoded? {
      FittingGrows(n, |data|);
      SectionsSame(data, n, SectionCount(data[..n]), SectionCount(data));
    }
  }

  lemma {:induction false} FittingGrows(a: nat, b: nat)
    requires HEADER_SIZE <= a <= b
    ensures Fitting(a, HEADER_SIZE, DESCRIPTOR_SIZE) <= Fitting(b, HEADER_SIZE, DESCRIPTOR_SIZE)
  {
  }

  /** A section is available exactly when its extent lies inside the record, and then its raw
      bytes are that extent. */
  lemma {:induction false} BodyInside(data: seq<Byte>, index: nat)
    requires Has(data, DescriptorOffset(index), DESCRIPTOR_SIZE)
    ensures var s := SectionAt(data, index); var d := s.descriptor;
            && (!s.body.Unavailable? <==> d.offset + d.length <= |data|)
            && (!s.body.Unavailable? ==> s.raw == data[d.offset..d.offset + d.length])
  {
  }

  // --- Partners of the readers -----------------------------------------------------------------

  /** A number as `width` bytes, the low byte first. */
  function ToLittleEndian(value: nat, width: nat): (r: seq<Byte>)
    ensures |r| == width
  {
    if width == 0 then [] else [value % 256] + ToLittleEndian(value / 256, width - 1)
  }

  lemma {:induction false} LittleEndianReadsBack(value: nat, width: nat)
    requires value < Power2(8 * width)
    ensures LittleEndian(ToLittleEndian(value, width)) == value
  {
    if width > 0 {
      PowerSum(8, 8 * (width - 1));
      assert Power2(8) == 256 by { PowerSum(4, 4); PowerSum(2, 2); assert Power2(2) == 2 * Power2(1) == 4 * Power2(0); }
      LittleEndianReadsBack(value / 256, width - 1);
    }
  }

  function ToBcd(n: nat): Byte
    requires n < 100
  {
    n / 10 * 16 + n % 10
  }

  /** A byte is two decimal digits exactly when it is the coding of the number they make. */
  lemma {:induction false} BcdExact(byte: Byte, n: nat)
    ensures Bcd(byte) == Some(n) <==> n < 100 && byte == ToBcd(n)
  {
  }

  /** Every date and time of the years 1998 to 2200 comes back from its eight bytes, marked
      plausible. */
  lemma {:induction false} TimestampReadsBack(t: Timestamp, data: seq<Byte>, at: nat)
    requires t.second <= 60 && t.minute <= 59 && t.hour <= 23 && 1 <= t.day <= 31 && 1 <= t.month <= 12
    requires 1998 <= t.year <= 2200 && t.plausible
    requires Bytes(data, at, 8) == Some([ToBcd(t.second), ToBcd(t.minute), ToBcd(t.hour), if t.precise then 1 else 0,
                                         ToBcd(t.day), ToBcd(t.month), ToBcd(t.year % 100), ToBcd(t.year / 100)])
    requires t.raw == ReadOr0(data, at, 8)
    ensures DecodeTimestamp(data, at, t.present) == t
  {
    var b := Bytes(data, at, 8).value;
    DigitsReadBack(t, b);
    DecodesTo(data, at, t.present, b);
    FieldsReadBack(Timestamp(t.present, t.precise, false, 0, 0, 0, 0, 0, 0, t.raw), b, t);
  }

  lemma {:induction false} DecodesTo(data: seq<Byte>, at: nat, present: bool, b: seq<Byte>)
    requires Bytes(data, at, 8) == Some(b) && |b| == 8 && AllBcd(b)
    ensures DecodeTimestamp(data, at, present)
         == BcdFields(Timestamp(present, b[3] % 2 == 1, false, 0, 0, 0, 0, 0, 0, ReadOr0(data, at, 8)), b)
  {
  }

  lemma {:induction false} FieldsReadBack(empty: Timestamp, b: seq<Byte>, t: Timestamp)
    requires |b| == 8 && AllBcd(b)
    requires Bcd(b[0]).value == t.second && Bcd(b[1]).value == t.minute && Bcd(b[2]).value == t.hour
    requires Bcd(b[4]).value == t.day && Bcd(b[5]).value == t.month
    requires Bcd(b[6]).value == t.year % 100 && Bcd(b[7]).value == t.year / 100
    requires t.second <= 60 && t.minute <= 59 && t.hour <= 23 && 1 <= t.day <= 31 && 1 <= t.month <= 12
    requires 1998 <= t.year <= 2200 && t.plausible
    requires empty.present == t.present && empty.precise == t.precise && empty.raw == t.raw
    ensures BcdFields(empty, b) == t
  {
  }

  lemma {:induction false} DigitsReadBack(t: Timestamp, b: seq<Byte>)
    requires t.second < 100 && t.minute < 100 && t.hour < 100 && t.day < 100 && t.month < 100 && t.year < 10000
    requires |b| == 8 && b[0] == ToBcd(t.second) && b[1] == ToBcd(t.minute) && b[2] == ToBcd(t.hour)
    requires b[4] == ToBcd(t.day) && b[5] == ToBcd(t.month) && b[6] == ToBcd(t.year % 100)
             && b[7] == ToBcd(t.year / 100)
    ensures AllBcd(b)
    ensures Bcd(b[0]).value == t.second && Bcd(b[1]).value == t.minute && Bcd(b[2]).value == t.hour
    ensures Bcd(b[4]).value == t.day && Bcd(b[5]).value == t.month
    ensures Bcd(b[6]).value == t.year % 100 && Bcd(b[7]).value == t.year / 100
  {
    BcdExact(ToBcd(t.second), t.second);
    BcdExact(ToBcd(t.minute), t.minute);
    BcdExact(ToBcd(t.hour), t.hour);
    BcdExact(ToBcd(t.day), t.day);
    BcdExact(ToBcd(t.month), t.month);
    BcdExact(ToBcd(t.year % 100), t.year % 100);
    BcdExact(ToBcd(t.year / 100), t.year / 100);
  }

  // --- Check structures put together bit by bit -----------------------------------------------------

  /** Where the fields of a check structure lie, the gaps between them included. */
  function Widths(check: Check): seq<nat> {
    match check
    case CacheOrTlb(_) => [8, 8, 2, 2, 4, 1, 1, 1, 1, 1]
    case Bus => [16, 2, 2, 4, 1, 1, 1, 1, 1, 2, 1, 2]
    case MicroArchitectural => [16, 3, 1, 1, 1, 1, 1]
  }

  /** The first field behind the validation bits and the gap. */
  function FirstField(check: Check): nat { if check.CacheOrTlb? then 2 else 1 }

  /** Every field of a check structure with a value: validation bits, a gap where there is
      one, the fields in order, and anything above them. */
  ghost predicate Structured(check: Check, parts: seq<Part>) {
    && Arithmetic.Fits(parts) && |parts| == |Widths(check)| + 1
    && forall i | 0 <= i < |Widths(check)| :: parts[i].width == Widths(check)[i]
  }

  /** The rows the decoder ought to report. */
  function ExpectedRows(places: seq<Place>, parts: seq<Part>, validation: nat): seq<FieldRow>
    requires |places| <= |parts|
  {
    if places == [] then [] else
    (if Bit(validation, places[0].validBit) then [FieldRow(places[0].name, parts[0].value)] else [])
    + ExpectedRows(places[1..], parts[1..], validation)
  }

  lemma {:induction false} RowsRead(places: seq<Place>, parts: seq<Part>, all: seq<Part>, first: nat, validation: nat)
    requires Arithmetic.Fits(all) && first <= |all| && parts == all[first..] && |places| <= |parts|
    requires forall i | 0 <= i < |places| ::
               places[i].low == Offset(all, first + i) && places[i].width == parts[i].width
    ensures ValidRows(places, Pack(all), validation) == ExpectedRows(places, parts, validation)
    decreases |places|
  {
    if places != [] {
      assert parts[0] == all[first];
      FieldOfPack(all, first);
      assert places[0].low == Offset(all, first + 0);
      forall i | 0 <= i < |places| - 1
        ensures places[1..][i].low == Offset(all, first + 1 + i) && places[1..][i].width == parts[1..][i].width
      {
        assert places[i + 1].low == Offset(all, first + (i + 1));
      }
      RowsRead(places[1..], parts[1..], all, first + 1, validation);
    }
  }

  /** A check structure put together from its fields is decoded to exactly the fields whose
      validation bit is set, with their values. */
  lemma {:induction false} CheckReadsBack(check: Check, parts: seq<Part>)
    requires Structured(check, parts)
    ensures DecodeCheck(check, Pack(parts))
         == CheckInfo(check, Pack(parts), parts[0].value,
                      ExpectedRows(Places(check), parts[FirstField(check)..|Widths(check)|], parts[0].value))
  {
    var w, first := Widths(check), FirstField(check);
    FieldOfPack(parts, 0);
    PlacesFollow(check, parts);
    RowsRead(Places(check), parts[first..], parts, first, parts[0].value);
    MoreParts(Places(check), parts[first..], parts[first..|w|], parts[0].value);
  }

  lemma {:induction false} MoreParts(places: seq<Place>, parts: seq<Part>, fewer: seq<Part>, validation: nat)
    requires |places| <= |fewer| && fewer <= parts
    ensures ExpectedRows(places, parts, validation) == ExpectedRows(places, fewer, validation)
    decreases |places|
  {
    if places != [] { MoreParts(places[1..], parts[1..], fewer[1..], validation); }
  }

  lemma {:induction false} PlacesFollow(check: Check, parts: seq<Part>)
    requires Structured(check, parts)
    ensures FirstField(check) + |Places(check)| <= |parts|
            && |parts[FirstField(check)..|Widths(check)|]| >= |Places(check)|
    ensures forall i | 0 <= i < |Places(check)| ::
              && Places(check)[i].low == Offset(parts, FirstField(check) + i)
              && Places(check)[i].width == parts[FirstField(check)..][i].width
  {
    var w := Widths(check);
    forall k: nat | k <= |w| ensures Offset(parts, k) == Sum(w, k) { OffsetIsSum(parts, w, k); }
    Sums(check);
  }

  function Sum(w: seq<nat>, k: nat): nat
    requires k <= |w|
  {
    if k == 0 then 0 else Sum(w, k - 1) + w[k - 1]
  }

  lemma {:induction false} OffsetIsSum(parts: seq<Part>, w: seq<nat>, k: nat)
    requires k <= |w| <= |parts| && forall i | 0 <= i < |w| :: parts[i].width == w[i]
    ensures Offset(parts, k) == Sum(w, k)
  {
    if k > 0 { OffsetIsSum(parts, w, k - 1); }
  }

  lemma {:induction false} SumUpTo(w: seq<nat>)
    requires 7 <= |w|
    ensures Sum(w, 1) == w[0] && Sum(w, 2) == w[0] + w[1] && Sum(w, 3) == w[0] + w[1] + w[2]
    ensures Sum(w, 4) == Sum(w, 3) + w[3] && Sum(w, 5) == Sum(w, 4) + w[4] && Sum(w, 6) == Sum(w, 5) + w[5]
    ensures Sum(w, 7) == Sum(w, 6) + w[6]
    ensures |w| >= 9 ==> Sum(w, 8) == Sum(w, 7) + w[7] && Sum(w, 9) == Sum(w, 8) + w[8]
    ensures |w| >= 11 ==> Sum(w, 10) == Sum(w, 9) + w[9] && Sum(w, 11) == Sum(w, 10) + w[10]
  {
    assert Sum(w, 0) == 0;
  }

  lemma {:induction false} Sums(check: Check)
    ensures |Widths(check)| == FirstField(check) + |Places(check)|
    ensures forall i | 0 <= i < |Places(check)| ::
              Places(check)[i].low == Sum(Widths(check), FirstField(check) + i)
              && Places(check)[i].width == Widths(check)[FirstField(check) + i]
  {
    SumUpTo(Widths(check));
  }

  // --- How much of a processor section is read ----------------------------------------------------

  /** The error-info structures of an IA32/X64 section are exactly the declared ones that fit,
      each read at its place. */
  lemma {:induction false} ErrorInfoExact(body: seq<Byte>)
    ensures var x := DecodeIa32X64(body);
            && x.declaredErrorInfo == Field(ReadOr0(body, 0, 8), 2, 6)
            && (forall i: nat | i < x.declaredErrorInfo ::
                  i < |x.errorInfo| <==> Has(body, ERROR_INFO_START + i * ERROR_INFO_SIZE, ERROR_INFO_SIZE))
            && |x.errorInfo| <= x.declaredErrorInfo
            && (forall i | 0 <= i < |x.errorInfo| ::
                  x.errorInfo[i] == DecodeErrorInfo(body, ERROR_INFO_START + i * ERROR_INFO_SIZE))
  {
    forall i: nat ensures Has(body, ERROR_INFO_START + i * ERROR_INFO_SIZE, ERROR_INFO_SIZE)
                     <==> i < Fitting(|body|, ERROR_INFO_START, ERROR_INFO_SIZE)
    {
      FitsBefore(body, ERROR_INFO_START, ERROR_INFO_SIZE, i);
    }
  }

  // --- The loops ----------------------------------------------------------------------------------

  method DoLittleEndian(data: seq<Byte>, offset: nat, width: nat) returns (r: Option<nat>)
    ensures r == Read(data, offset, width)
  {
    if !Has(data, offset, width) { return None; }
    ghost var raw := data[offset..offset + width];
    var value := 0;
    for i := 0 to width
      invariant value == LittleEndian(raw[..i])
    {
      assert raw[i] == data[offset + i];
      LittleEndianSnoc(raw[..i], raw[i]);
      assert raw[..i + 1] == raw[..i] + [raw[i]];
      value := value + Power2(8 * i) * data[offset + i];
    }
    assert raw[..width] == raw;
    return Some(value);
  }

  lemma {:induction false} LittleEndianSnoc(bytes: seq<Byte>, b: Byte)
    ensures LittleEndian(bytes + [b]) == LittleEndian(bytes) + Power2(8 * |bytes|) * b
  {
    if bytes == [] {
      assert [] + [b] == [b] && LittleEndian([b]) == b + 256 * LittleEndian([]);
    } else {
      var more := bytes[1..];
      assert (bytes + [b])[1..] == more + [b];
      LittleEndianSnoc(more, b);
      PowerSum(8, 8 * |more|);
      assert Power2(8) == 256 by { PowerSum(4, 4); PowerSum(2, 2); assert Power2(2) == 2 * Power2(1) == 4 * Power2(0); }
      assert 256 * (Power2(8 * |more|) * b) == 256 * Power2(8 * |more|) * b;
    }
  }

  method DoErrorInfos(body: seq<Byte>, declared: nat) returns (infos: seq<ErrorInfo>)
    ensures infos == ErrorInfos(body, Min(declared, Fitting(|body|, ERROR_INFO_START, ERROR_INFO_SIZE)))
  {
    infos := [];
    for index := 0 to declared
      invariant index <= Fitting(|body|, ERROR_INFO_START, ERROR_INFO_SIZE) && infos == ErrorInfos(body, index)
    {
      var at := ERROR_INFO_START + index * ERROR_INFO_SIZE;
      FitsBefore(body, ERROR_INFO_START, ERROR_INFO_SIZE, index);
      if !Has(body, at, ERROR_INFO_SIZE) { break; }
      infos := infos + [DecodeErrorInfo(body, at)];
    }
  }

  lemma {:induction false} NextSection(data: seq<Byte>, index: nat)
    requires index < Fitting(|data|, HEADER_SIZE, DESCRIPTOR_SIZE)
    ensures Has(data, DescriptorOffset(index), DESCRIPTOR_SIZE)
    ensures Sections(data, index + 1) == Sections(data, index) + [SectionAt(data, index)]
    ensures BodyWarnings(Sections(data, index + 1))
         == BodyWarnings(Sections(data, index))
            + if SectionAt(data, index).body.Unavailable? then [BodyOutOfRange(index)] else []
  {
    FitsBefore(data, HEADER_SIZE, DESCRIPTOR_SIZE, index);
    var sections, section := Sections(data, index), SectionAt(data, index);
    assert Sections(data, index + 1) == sections + [section];
    assert (sections + [section])[..index] == sections;
  }

  /** The descriptor loop: it stops at the first descriptor that does not fit. */
  method DoSections(data: seq<Byte>, declared: nat) returns (sections: seq<Section>, warnings: seq<Warning>)
    ensures sections == Sections(data, Min(declared, Fitting(|data|, HEADER_SIZE, DESCRIPTOR_SIZE)))
    ensures warnings == BodyWarnings(sections)
                        + if |sections| < declared then [MissingDescriptors(declared, |sections|)] else []
  {
    sections, warnings := [], [];
    for index := 0 to declared
      invariant index <= Fitting(|data|, HEADER_SIZE, DESCRIPTOR_SIZE) && sections == Sections(data, index)
      invariant warnings == BodyWarnings(sections)
    {
      FitsBefore(data, HEADER_SIZE, DESCRIPTOR_SIZE, index);
      if !Has(data, DescriptorOffset(index), DESCRIPTOR_SIZE) {
        warnings := warnings + [MissingDescriptors(declared, |sections|)];
        return;
      }
      NextSection(data, index);
      var section := SectionAt(data, index);
      if section.body.Unavailable? { warnings := warnings + [BodyOutOfRange(index)]; }
      sections := sections + [section];
    }
  }

  lemma {:induction false} DecodeIs(data: seq<Byte>, sections: seq<Section>, more: seq<Warning>, warnings: seq<Warning>)
    requires |data| >= HEADER_SIZE && DecodeHeader(data).signature == "CPER"
             && sections == Sections(data, SectionCount(data))
    requires var declared := DecodeHeader(data).sectionCount;
             more == BodyWarnings(sections) + if |sections| < declared
                 then [MissingDescriptors(declared, |sections|)] else []
    requires warnings == HeaderWarnings(DecodeHeader(data), |data|) + more
                         + if DecodeHeader(data).sectionCount == 0 then [NoSections] else []
    ensures Decode(data) == Decoded(DecodeHeader(data), sections, warnings)
  {
  }

  method DecodeRecord(data: seq<Byte>) returns (record: Record)
    ensures record == Decode(data)
  {
    if |data| < HEADER_SIZE { return Rejected(TooShort(|data|)); }
    var h := DecodeHeader(data);
    if h.signature != "CPER" { return Rejected(NoSignature(h.signature)); }
    var sections, more := DoSections(data, h.sectionCount);
    var warnings := HeaderWarnings(h, |data|) + more + if h.sectionCount == 0 then [NoSections] else [];
    DecodeIs(data, sections, more, warnings);
    return Decoded(h, sections, warnings);
  }
}
