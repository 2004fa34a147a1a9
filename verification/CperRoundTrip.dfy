/** CPER records put together byte by byte (UEFI Specification, Appendix N) decode to the
    fields they were put together from. */
module CperRoundTrip {
  import opened Arithmetic
  import opened Cper
  import opened Splits
  import opened Text

  // --- Fields side by side ------------------------------------------------------------------

  /** The value fits in so many bytes. */
  predicate Wide(value: nat, width: nat) { value < Power2(8 * width) }

  /** The bytes from `at` on are these parts, one after the other. */
  ghost predicate Laid(data: seq<Byte>, at: nat, parts: seq<seq<Byte>>) {
    at + |Flatten(parts)| <= |data| && data[at..at + |Flatten(parts)|] == Flatten(parts)
  }

  lemma {:induction false} PartReads(data: seq<Byte>, at: nat, parts: seq<seq<Byte>>, k: nat, offset: nat)
    requires Laid(data, at, parts) && k < |parts| && offset == Before(parts, k)
    ensures Bytes(data, at + offset, |parts[k]|) == Some(parts[k]) && Before(parts, k + 1) == offset + |parts[k]|
  {
    var all := Flatten(parts);
    var end := offset + |parts[k]|;
    PartInFlatten(parts, k);
    SliceOfSlice(data, at, |all|, offset, end);
  }

  lemma {:induction false} SliceOfSlice(data: seq<Byte>, at: nat, length: nat, a: nat, b: nat)
    requires at + length <= |data| && a <= b <= length
    ensures data[at..at + length][a..b] == data[at + a..at + b]
  {
    var s := data[at..at + length];
    forall i | 0 <= i < b - a ensures s[a..b][i] == data[at + a..at + b][i] {
      assert s[a + i] == data[at + (a + i)];
    }
  }

  lemma {:induction false} NumberReads(data: seq<Byte>, offset: nat, value: nat, width: nat)
    requires Bytes(data, offset, width) == Some(ToLittleEndian(value, width)) && Wide(value, width)
    ensures Read(data, offset, width) == Some(value) && ReadOr0(data, offset, width) == value
  {
    LittleEndianReadsBack(value, width);
  }

  /** A number among the parts. */
  lemma {:induction false} NumberAt(data: seq<Byte>, at: nat, parts: seq<seq<Byte>>, k: nat, offset: nat, value: nat,
                                    width: nat)
    requires Laid(data, at, parts) && k < |parts| && offset == Before(parts, k)
    requires parts[k] == ToLittleEndian(value, width) && Wide(value, width)
    ensures Read(data, at + offset, width) == Some(value) && ReadOr0(data, at + offset, width) == value
    ensures Before(parts, k + 1) == offset + width
  {
    PartReads(data, at, parts, k, offset);
    NumberReads(data, at + offset, value, width);
  }

  // --- Identifiers and text ------------------------------------------------------------------

  predicate ProperGuid(g: Guid) { Wide(g.data1, 4) && Wide(g.data2, 2) && Wide(g.data3, 2) && |g.data4| == 8 }

  function PrintGuid(g: Guid): (r: seq<Byte>)
    ensures |r| == 8 + |g.data4|
  {
    ToLittleEndian(g.data1, 4) + (ToLittleEndian(g.data2, 2) + (ToLittleEndian(g.data3, 2) + g.data4))
  }

  lemma {:induction false} GuidReads(data: seq<Byte>, offset: nat, g: Guid)
    requires ProperGuid(g) && Bytes(data, offset, 16) == Some(PrintGuid(g))
    ensures ReadGuid(data, offset) == g
  {
    var raw := PrintGuid(g);
    assert raw[..4] == ToLittleEndian(g.data1, 4) && raw[4..6] == ToLittleEndian(g.data2, 2);
    assert raw[6..8] == ToLittleEndian(g.data3, 2) && raw[8..] == g.data4;
    LittleEndianReadsBack(g.data1, 4);
    LittleEndianReadsBack(g.data2, 2);
    LittleEndianReadsBack(g.data3, 2);
  }

  lemma {:induction false} FourOctets(a: Byte, b: Byte, c: Byte, d: Byte)
    ensures LittleEndian([a, b, c, d]) == a + 0x100 * b + 0x1_0000 * c + 0x100_0000 * d
  {
    assert [a, b, c, d][1..] == [b, c, d] && [b, c, d][1..] == [c, d] && [c, d][1..] == [d] && [d][1..] == [];
    assert LittleEndian([d]) == d + 256 * LittleEndian([]);
    assert LittleEndian([c, d]) == c + 256 * LittleEndian([d]);
    assert LittleEndian([b, c, d]) == b + 256 * LittleEndian([c, d]);
  }

  /** The octets that begin the section types and the check types in a record (UEFI Specification,
      Appendix N, sections N.2.2 and N.2.4.2.1). */
  lemma {:induction false} KnownGuids()
    ensures PROCESSOR_GENERIC.data1 == LittleEndian([0xAD, 0xCC, 0x76, 0x98])
    ensures IA32_X64_PROCESSOR.data1 == LittleEndian([0xB0, 0xA0, 0x3E, 0xDC])
    ensures PLATFORM_MEMORY.data1 == LittleEndian([0x14, 0x11, 0xBC, 0xA5])
    ensures CACHE_CHECK.data1 == LittleEndian([0xF5, 0x01, 0x57, 0xA5])
    ensures TLB_CHECK.data1 == LittleEndian([0x35, 0xB5, 0x06, 0xFC])
    ensures BUS_CHECK.data1 == LittleEndian([0xB3, 0xF8, 0xF3, 0x1C])
    ensures MICRO_ARCHITECTURAL_CHECK.data1 == LittleEndian([0x57, 0x7F, 0xAB, 0x48])
  {
    FourOctets(0xAD, 0xCC, 0x76, 0x98);
    FourOctets(0xB0, 0xA0, 0x3E, 0xDC);
    FourOctets(0x14, 0x11, 0xBC, 0xA5);
    FourOctets(0xF5, 0x01, 0x57, 0xA5);
    FourOctets(0x35, 0xB5, 0x06, 0xFC);
    FourOctets(0xB3, 0xF8, 0xF3, 0x1C);
    FourOctets(0x57, 0x7F, 0xAB, 0x48);
  }

  lemma {:induction false} GuidAt(data: seq<Byte>, at: nat, parts: seq<seq<Byte>>, k: nat, offset: nat, g: Guid)
    requires Laid(data, at, parts) && k < |parts| && offset == Before(parts, k)
    requires parts[k] == PrintGuid(g) && ProperGuid(g)
    ensures ReadGuid(data, at + offset) == g && Before(parts, k + 1) == offset + 16
  {
    PartReads(data, at, parts, k, offset);
    GuidReads(data, at + offset, g);
  }

  /** Where the text in some bytes ends: at the first NUL, or with the bytes. */
  ghost predicate EndsAt(bytes: seq<Byte>, n: nat) {
    n <= |bytes| && (n < |bytes| ==> bytes[n] == 0) && forall i | 0 <= i < n :: bytes[i] != 0
  }

  /** A character as it is shown. */
  function Shown(byte: Byte): char { if 32 <= byte <= 126 then byte as char else '.' }

  lemma {:induction false} UpToNulTells(bytes: seq<Byte>, n: nat)
    requires EndsAt(bytes, n)
    ensures |TextUpToNul(bytes)| == n && forall i | 0 <= i < n :: TextUpToNul(bytes)[i] == Shown(bytes[i])
  {
    if n > 0 {
      forall i | 0 <= i < n - 1 ensures bytes[1..][i] != 0 { assert bytes[i + 1] != 0; }
      UpToNulTells(bytes[1..], n - 1);
      forall i | 0 < i < n ensures TextUpToNul(bytes)[i] == Shown(bytes[i]) {
        assert TextUpToNul(bytes)[i] == TextUpToNul(bytes[1..])[i - 1];
      }
    }
  }

  lemma {:induction false} TrimEndTells(s: string)
    ensures TrimEnd(s) <= s && (forall i | |TrimEnd(s)| <= i < |s| :: s[i] == ' ')
    ensures TrimEnd(s) != "" ==> TrimEnd(s)[|TrimEnd(s)| - 1] != ' '
  {
    if s != "" && s[|s| - 1] == ' ' { TrimEndTells(s[..|s| - 1]); }
  }

  /** A text field shows its characters up to the first NUL, a dot for every one that cannot be
      shown, without the blanks at the end. */
  lemma {:induction false} TextTells(data: seq<Byte>, offset: nat, bytes: seq<Byte>, n: nat)
    requires Bytes(data, offset, |bytes|) == Some(bytes) && EndsAt(bytes, n)
    ensures var text := ReadText(data, offset, |bytes|);
            && |text| <= n && (forall i | 0 <= i < |text| :: text[i] == Shown(bytes[i]))
            && (forall i | |text| <= i < n :: bytes[i] == 32)
            && (text != "" ==> text[|text| - 1] != ' ')
  {
    UpToNulTells(bytes, n);
    TrimEndTells(TextUpToNul(bytes));
    var text := ReadText(data, offset, |bytes|);
    forall i | |text| <= i < n ensures bytes[i] == 32 { assert TextUpToNul(bytes)[i] == ' ' == Shown(bytes[i]); }
  }

  /** Text that can be shown as it is. */
  predicate PlainText(text: string) {
    (forall c <- text :: ' ' <= c <= '~') && (text != "" ==> text[|text| - 1] != ' ')
  }

  function Code(c: char): Byte
    requires ' ' <= c <= '~'
  {
    c as int
  }

  function Codes(text: string): (r: seq<Byte>)
    requires PlainText(text)
    ensures |r| == |text|
  {
    seq(|text|, i requires 0 <= i < |text| => assert text[i] in text; Code(text[i]))
  }

  function Zeros(count: nat): seq<Byte> { seq(count, _ => 0) }

  /** Such text in a field of `width` bytes. */
  function PrintText(text: string, width: nat): (r: seq<Byte>)
    requires PlainText(text) && |text| <= width
    ensures |r| == width
  {
    Codes(text) + Zeros(width - |text|)
  }

  lemma {:induction false} TextReads(data: seq<Byte>, offset: nat, text: string, width: nat)
    requires PlainText(text) && |text| <= width && Bytes(data, offset, width) == Some(PrintText(text, width))
    ensures ReadText(data, offset, width) == text
  {
    var bytes, n := PrintText(text, width), |text|;
    forall i | 0 <= i < n ensures bytes[i] != 0 && Shown(bytes[i]) == text[i] { assert text[i] in text; }
    TextTells(data, offset, bytes, n);
    assert n > 0 ==> bytes[n - 1] != 32;
  }

  // --- Check structures (UEFI Tables N-18 to N-21) -----------------------------------------------

  /** The fields behind the validation bits, in the order of their bits. */
  function Names(check: Check): seq<Named> {
    match check
    case CacheOrTlb(_) =>
      [TransactionType, Operation, Level, ContextCorrupt, Uncorrected, PreciseIp, RestartableIp, Overflow]
    case Bus =>
      [TransactionType, Operation, Level, ContextCorrupt, Uncorrected, PreciseIp, RestartableIp, Overflow,
       Participation, TimedOut, AddressSpace]
    case MicroArchitectural => [ErrorType, ContextCorrupt, Uncorrected, PreciseIp, RestartableIp, Overflow]
  }

  /** The places are those of the names, with one validation bit each. */
  ghost predicate InBitOrder(places: seq<Place>, names: seq<Named>) {
    |places| == |names| && forall i | 0 <= i < |names| :: places[i].name == names[i] && places[i].validBit == i
  }

  lemma {:induction false} PlacesNamed(check: Check)
    ensures InBitOrder(Places(check), Names(check))
  {
  }

  /** Field `i` of those from `first` on is shown with its value exactly if its bit is set. */
  ghost predicate ShowsField(names: seq<Named>, parts: seq<Part>, first: nat, validation: nat, row: FieldRow, i: nat)
    requires first + |names| <= |parts|
  {
    i < |names| && row == FieldRow(names[i], parts[first + i].value) && Bit(validation, i)
  }

  lemma {:induction false} ExpectedTell(places: seq<Place>, parts: seq<Part>, validation: nat, row: FieldRow)
    requires |places| <= |parts|
    ensures row in ExpectedRows(places, parts, validation)
       <==> exists i | 0 <= i < |places| ::
              row == FieldRow(places[i].name, parts[i].value) && Bit(validation, places[i].validBit)
  {
    if places != [] {
      ExpectedTell(places[1..], parts[1..], validation, row);
      assert forall i | 0 < i < |places| :: places[i] == places[1..][i - 1] && parts[i] == parts[1..][i - 1];
    }
  }

  /** A check word put together from its fields shows, of every field, its name and its value
      exactly if the field's validation bit is set. */
  lemma {:induction false} CheckFieldsTell(check: Check, parts: seq<Part>, row: FieldRow)
    requires Structured(check, parts)
    ensures FirstField(check) + |Names(check)| <= |parts|
    ensures row in DecodeCheck(check, Pack(parts)).rows
       <==> exists i: nat :: ShowsField(Names(check), parts, FirstField(check), parts[0].value, row, i)
  {
    PlacesNamed(check);
    NamesWidths(check);
    CheckReadsBack(check, parts);
    RowsTell(Places(check), Names(check), parts, FirstField(check), parts[0].value, row);
  }

  lemma {:induction false} NamesWidths(check: Check)
    ensures |Widths(check)| == FirstField(check) + |Names(check)|
  {
  }

  lemma {:induction false} RowsTell(places: seq<Place>, names: seq<Named>, parts: seq<Part>, first: nat,
                                    validation: nat,
                                    row: FieldRow)
    requires InBitOrder(places, names) && first + |names| <= |parts|
    ensures row in ExpectedRows(places, parts[first..first + |names|], validation)
       <==> exists i: nat :: ShowsField(names, parts, first, validation, row, i)
  {
    var fields := parts[first..first + |names|];
    ExpectedTell(places, fields, validation, row);
    if i :| 0 <= i < |places| && row == FieldRow(places[i].name, fields[i].value)
            && Bit(validation, places[i].validBit) {
      assert ShowsField(names, parts, first, validation, row, i);
    }
    if i: nat :| ShowsField(names, parts, first, validation, row, i) {
      assert row == FieldRow(places[i].name, fields[i].value);
    }
  }

  // --- Error-info structures (UEFI Table N-17) ------------------------------------------------

  datatype ErrorInfoFields = ErrorInfoFields(
    checkType: Guid, valid: nat, check: nat, target: nat, requestor: nat, responder: nat, ip: nat)

  predicate ProperErrorInfo(f: ErrorInfoFields) {
    ProperGuid(f.checkType) && Wide(f.valid, 8) && Wide(f.check, 8) && Wide(f.target, 8) && Wide(f.requestor, 8)
    && Wide(f.responder, 8) && Wide(f.ip, 8)
  }

  function ErrorInfoParts(f: ErrorInfoFields): seq<seq<Byte>> {
    [PrintGuid(f.checkType), ToLittleEndian(f.valid, 8), ToLittleEndian(f.check, 8), ToLittleEndian(f.target, 8),
     ToLittleEndian(f.requestor, 8), ToLittleEndian(f.responder, 8), ToLittleEndian(f.ip, 8)]
  }

  function If<T>(condition: bool, value: T): Option<T> { if condition then Some(value) else None }

  /** What a check type makes of the check word. */
  function CheckShown(guid: Guid, word: nat): Option<CheckInfo> {
    if guid == CACHE_CHECK then Some(DecodeCheck(CacheOrTlb(false), word))
    else if guid == TLB_CHECK then Some(DecodeCheck(CacheOrTlb(true), word))
    else if guid == BUS_CHECK then Some(DecodeCheck(Bus, word))
    else if guid == MICRO_ARCHITECTURAL_CHECK then Some(DecodeCheck(MicroArchitectural, word))
    else None
  }

  /** What is shown of a structure: its three words, and the rest as far as bits 0 to 4 say that
      it is valid. */
  function ErrorInfoShown(f: ErrorInfoFields): ErrorInfo {
    ErrorInfo(f.checkType, f.valid, f.check, if Bit(f.valid, 0) then CheckShown(f.checkType, f.check) else None,
              If(Bit(f.valid, 1), f.target), If(Bit(f.valid, 2), f.requestor),
              If(Bit(f.valid, 3), f.responder), If(Bit(f.valid, 4), f.ip))
  }

  lemma {:induction false} CheckShownIs(guid: Guid, word: nat)
    ensures CheckOf(guid).Some? ==> CheckShown(guid, word) == Some(DecodeCheck(CheckOf(guid).value, word))
    ensures CheckOf(guid).None? ==> CheckShown(guid, word).None?
  {
  }

  lemma {:induction false} ErrorInfoNumbers(f: ErrorInfoFields, body: seq<Byte>, at: nat)
    requires ProperErrorInfo(f) && Laid(body, at, ErrorInfoParts(f))
    ensures ReadGuid(body, at) == f.checkType
    ensures ReadOr0(body, at + 16, 8) == f.valid && ReadOr0(body, at + 24, 8) == f.check
    ensures Read(body, at + 32, 8) == Some(f.target) && Read(body, at + 40, 8) == Some(f.requestor)
    ensures Read(body, at + 48, 8) == Some(f.responder) && Read(body, at + 56, 8) == Some(f.ip)
  {
    var parts := ErrorInfoParts(f);
    GuidAt(body, at, parts, 0, 0, f.checkType);
    NumberAt(body, at, parts, 1, 16, f.valid, 8);
    NumberAt(body, at, parts, 2, 24, f.check, 8);
    NumberAt(body, at, parts, 3, 32, f.target, 8);
    NumberAt(body, at, parts, 4, 40, f.requestor, 8);
    NumberAt(body, at, parts, 5, 48, f.responder, 8);
    NumberAt(body, at, parts, 6, 56, f.ip, 8);
  }

  /** Wherever the structure lies in a body, its fields are read back, those with a validation
      bit only if it is set. */
  lemma {:induction false} ErrorInfoReadsBack(f: ErrorInfoFields, body: seq<Byte>, at: nat)
    requires ProperErrorInfo(f) && Laid(body, at, ErrorInfoParts(f))
    ensures DecodeErrorInfo(body, at) == ErrorInfoShown(f)
  {
    ErrorInfoNumbers(f, body, at);
    CheckShownIs(f.checkType, f.check);
  }

  // --- Severities ------------------------------------------------------------------------------

  /** The code a severity is stored as. */
  predicate StoredAs(severity: Severity, code: nat) {
    match severity
    case Recoverable => code == 0
    case Fatal => code == 1
    case Corrected => code == 2
    case Informational => code == 3
    case Unknown => code > 3
  }

  lemma {:induction false} SeverityReads(severity: Severity, code: nat)
    ensures ToSeverity(code) == severity <==> StoredAs(severity, code)
  {
  }

  // --- The header (UEFI Table N-1) --------------------------------------------------------------

  predicate ProperHeader(h: Header) {
    && PlainText(h.signature) && |h.signature| <= 4 && Wide(h.revision, 2) && Wide(h.signatureEnd, 4)
    && Wide(h.sectionCount, 2) && Wide(h.severityRaw, 4) && StoredAs(h.severity, h.severityRaw)
    && Wide(h.validationBits, 4) && Wide(h.recordLength, 4) && Wide(h.timestamp.raw, 8)
    && ProperGuid(h.platformId) && ProperGuid(h.partitionId) && ProperGuid(h.creatorId)
    && ProperGuid(h.notificationType) && Wide(h.recordId, 8) && Wide(h.flags, 4) && Wide(h.persistenceInfo, 8)
  }

  /** The fields in the order in which they are stored; twelve bytes are reserved. */
  function HeaderParts(h: Header, reserved: seq<Byte>): seq<seq<Byte>>
    requires ProperHeader(h)
  {
    [PrintText(h.signature, 4), ToLittleEndian(h.revision, 2), ToLittleEndian(h.signatureEnd, 4),
     ToLittleEndian(h.sectionCount, 2), ToLittleEndian(h.severityRaw, 4), ToLittleEndian(h.validationBits, 4),
     ToLittleEndian(h.recordLength, 4), ToLittleEndian(h.timestamp.raw, 8), PrintGuid(h.platformId),
     PrintGuid(h.partitionId), PrintGuid(h.creatorId), PrintGuid(h.notificationType), ToLittleEndian(h.recordId, 8),
     ToLittleEndian(h.flags, 4), ToLittleEndian(h.persistenceInfo, 8), reserved]
  }

  lemma {:induction false} HeaderFirst(h: Header, reserved: seq<Byte>, data: seq<Byte>)
    requires ProperHeader(h) && Laid(data, 0, HeaderParts(h, reserved))
    ensures ReadText(data, 0, 4) == h.signature && ReadOr0(data, 4, 2) == h.revision
    ensures ReadOr0(data, 6, 4) == h.signatureEnd && ReadOr0(data, 10, 2) == h.sectionCount
    ensures ReadOr0(data, 12, 4) == h.severityRaw && ReadOr0(data, 16, 4) == h.validationBits
    ensures Before(HeaderParts(h, reserved), 6) == 20
  {
    var parts := HeaderParts(h, reserved);
    PartReads(data, 0, parts, 0, 0);
    TextReads(data, 0, h.signature, 4);
    NumberAt(data, 0, parts, 1, 4, h.revision, 2);
    NumberAt(data, 0, parts, 2, 6, h.signatureEnd, 4);
    NumberAt(data, 0, parts, 3, 10, h.sectionCount, 2);
    NumberAt(data, 0, parts, 4, 12, h.severityRaw, 4);
    NumberAt(data, 0, parts, 5, 16, h.validationBits, 4);
  }

  lemma {:induction false} HeaderMiddle(h: Header, reserved: seq<Byte>, data: seq<Byte>)
    requires ProperHeader(h) && Laid(data, 0, HeaderParts(h, reserved)) && Before(HeaderParts(h, reserved), 6) == 20
    ensures ReadOr0(data, 20, 4) == h.recordLength && ReadOr0(data, 24, 8) == h.timestamp.raw
    ensures Before(HeaderParts(h, reserved), 8) == 32
  {
    var parts := HeaderParts(h, reserved);
    NumberAt(data, 0, parts, 6, 20, h.recordLength, 4);
    NumberAt(data, 0, parts, 7, 24, h.timestamp.raw, 8);
  }

  lemma {:induction false} HeaderGuids(h: Header, reserved: seq<Byte>, data: seq<Byte>)
    requires ProperHeader(h) && Laid(data, 0, HeaderParts(h, reserved)) && Before(HeaderParts(h, reserved), 8) == 32
    ensures ReadGuid(data, 32) == h.platformId && ReadGuid(data, 48) == h.partitionId
    ensures Before(HeaderParts(h, reserved), 10) == 64
  {
    var parts := HeaderParts(h, reserved);
    GuidAt(data, 0, parts, 8, 32, h.platformId);
    GuidAt(data, 0, parts, 9, 48, h.partitionId);
  }

  lemma {:induction false} HeaderGuidsMore(h: Header, reserved: seq<Byte>, data: seq<Byte>)
    requires ProperHeader(h) && Laid(data, 0, HeaderParts(h, reserved)) && Before(HeaderParts(h, reserved), 10) == 64
    ensures ReadGuid(data, 64) == h.creatorId && ReadGuid(data, 80) == h.notificationType
    ensures Before(HeaderParts(h, reserved), 12) == 96
  {
    var parts := HeaderParts(h, reserved);
    GuidAt(data, 0, parts, 10, 64, h.creatorId);
    GuidAt(data, 0, parts, 11, 80, h.notificationType);
  }

  lemma {:induction false} HeaderLast(h: Header, reserved: seq<Byte>, data: seq<Byte>)
    requires ProperHeader(h) && Laid(data, 0, HeaderParts(h, reserved)) && Before(HeaderParts(h, reserved), 12) == 96
    ensures ReadOr0(data, 96, 8) == h.recordId && ReadOr0(data, 104, 4) == h.flags
    ensures ReadOr0(data, 108, 8) == h.persistenceInfo
  {
    var parts := HeaderParts(h, reserved);
    NumberAt(data, 0, parts, 12, 96, h.recordId, 8);
    NumberAt(data, 0, parts, 13, 104, h.flags, 4);
    NumberAt(data, 0, parts, 14, 108, h.persistenceInfo, 8);
  }

  /** A header is read back, whatever follows it; its timestamp is decoded from the eight bytes
      it is stored in. */
  lemma {:induction false} HeaderReadsBack(h: Header, reserved: seq<Byte>, data: seq<Byte>)
    requires ProperHeader(h) && Laid(data, 0, HeaderParts(h, reserved))
    ensures DecodeHeader(data) == h.(timestamp := DecodeTimestamp(data, 24, Bit(h.validationBits, 1)))
    ensures DecodeTimestamp(data, 24, Bit(h.validationBits, 1)).raw == h.timestamp.raw
  {
    HeaderFirst(h, reserved, data);
    HeaderMiddle(h, reserved, data);
    HeaderGuids(h, reserved, data);
    HeaderGuidsMore(h, reserved, data);
    HeaderLast(h, reserved, data);
    SeverityReads(h.severity, h.severityRaw);
  }

  /** A timestamp is plausible exactly when its seven bytes are decimal digits of a time of the
      years 1998 to 2200; the fourth byte says whether it is precise. */
  lemma {:induction false} TimestampExact(data: seq<Byte>, at: nat, present: bool, b: seq<Byte>)
    requires |b| == 8 && Bytes(data, at, 8) == Some(b)
    ensures var t := DecodeTimestamp(data, at, present);
            && t.present == present && (t.precise <==> b[3] % 2 == 1)
            && (t.plausible <==>
                (exists second, minute, hour, day, month, year: nat ::
                  && second <= 60 && minute <= 59 && hour <= 23 && 1 <= day <= 31 && 1 <= month <= 12
                  && 1998 <= year <= 2200
                  && Stamped(b, second, minute, hour, day, month, year)))
  {
    var t := DecodeTimestamp(data, at, present);
    if AllBcd(b) { FieldsStamped(t, b); }
    forall second: nat, minute: nat, hour: nat, day: nat, month: nat, year: nat
      | Stamped(b, second, minute, hour, day, month, year)
      ensures AllBcd(b) && BcdFields(t, b) == t.(second := second, minute := minute, hour := hour, day := day,
                                                 month := month, year := year,
                                                 plausible := BcdFields(t, b).plausible)
    {
      StampedReads(t, b, second, minute, hour, day, month, year);
    }
  }

  /** The digits of a time, two to a byte. */
  predicate Stamped(b: seq<Byte>, second: nat, minute: nat, hour: nat, day: nat, month: nat, year: nat)
    requires |b| == 8
  {
    && second < 100 && minute < 100 && hour < 100 && day < 100 && month < 100 && year < 10000
    && b[0] == ToBcd(second) && b[1] == ToBcd(minute) && b[2] == ToBcd(hour) && b[4] == ToBcd(day)
    && b[5] == ToBcd(month) && b[6] == ToBcd(year % 100) && b[7] == ToBcd(year / 100)
  }

  lemma {:induction false} StampedReads(t: Timestamp, b: seq<Byte>, second: nat, minute: nat, hour: nat, day: nat,
                                        month: nat, year: nat)
    requires |b| == 8 && Stamped(b, second, minute, hour, day, month, year)
    ensures AllBcd(b)
    ensures var f := BcdFields(t, b);
            && f.second == second && f.minute == minute && f.hour == hour && f.day == day && f.month == month
            && f.year == year
  {
    BcdExact(b[0], second);
    BcdExact(b[1], minute);
    BcdExact(b[2], hour);
    BcdExact(b[4], day);
    BcdExact(b[5], month);
    BcdExact(b[6], year % 100);
    BcdExact(b[7], year / 100);
  }

  lemma {:induction false} FieldsStamped(t: Timestamp, b: seq<Byte>)
    requires |b| == 8 && AllBcd(b)
    ensures var f := BcdFields(t, b); Stamped(b, f.second, f.minute, f.hour, f.day, f.month, f.year)
  {
    Quotient(Bcd(b[7]).value * 100 + Bcd(b[6]).value, 100, Bcd(b[7]).value, Bcd(b[6]).value);
    BcdExact(b[0], Bcd(b[0]).value);
    BcdExact(b[1], Bcd(b[1]).value);
    BcdExact(b[2], Bcd(b[2]).value);
    BcdExact(b[4], Bcd(b[4]).value);
    BcdExact(b[5], Bcd(b[5]).value);
    BcdExact(b[6], Bcd(b[6]).value);
    BcdExact(b[7], Bcd(b[7]).value);
  }

  // --- Section descriptors (UEFI Table N-2) ---------------------------------------------------

  predicate ProperDescriptor(d: Descriptor) {
    && Wide(d.offset, 4) && Wide(d.length, 4) && Wide(d.revision, 2) && Wide(d.validationBits, 1) && Wide(d.flags, 4)
    && ProperGuid(d.sectionType) && ProperGuid(d.fruId) && Wide(d.severityRaw, 4)
    && StoredAs(d.severity, d.severityRaw) && PlainText(d.fruText) && |d.fruText| <= 20
  }

  function DescriptorParts(d: Descriptor, reserved: Byte): seq<seq<Byte>>
    requires ProperDescriptor(d)
  {
    [ToLittleEndian(d.offset, 4), ToLittleEndian(d.length, 4), ToLittleEndian(d.revision, 2),
     ToLittleEndian(d.validationBits, 1), [reserved], ToLittleEndian(d.flags, 4), PrintGuid(d.sectionType),
     PrintGuid(d.fruId), ToLittleEndian(d.severityRaw, 4), PrintText(d.fruText, 20)]
  }

  lemma {:induction false} DescriptorFirst(d: Descriptor, reserved: Byte, data: seq<Byte>, at: nat)
    requires ProperDescriptor(d) && Laid(data, at, DescriptorParts(d, reserved))
    ensures ReadOr0(data, at, 4) == d.offset && ReadOr0(data, at + 4, 4) == d.length
    ensures ReadOr0(data, at + 8, 2) == d.revision && ReadOr0(data, at + 10, 1) == d.validationBits
    ensures Before(DescriptorParts(d, reserved), 5) == 12
  {
    var parts := DescriptorParts(d, reserved);
    NumberAt(data, at, parts, 0, 0, d.offset, 4);
    NumberAt(data, at, parts, 1, 4, d.length, 4);
    NumberAt(data, at, parts, 2, 8, d.revision, 2);
    NumberAt(data, at, parts, 3, 10, d.validationBits, 1);
    PartReads(data, at, parts, 4, 11);
  }

  lemma {:induction false} DescriptorLast(d: Descriptor, reserved: Byte, data: seq<Byte>, at: nat)
    requires ProperDescriptor(d) && Laid(data, at, DescriptorParts(d, reserved))
             && Before(DescriptorParts(d, reserved), 5) == 12
    ensures ReadOr0(data, at + 12, 4) == d.flags && ReadGuid(data, at + 16) == d.sectionType
    ensures ReadGuid(data, at + 32) == d.fruId && ReadOr0(data, at + 48, 4) == d.severityRaw
    ensures ReadText(data, at + 52, 20) == d.fruText && |Flatten(DescriptorParts(d, reserved))| == DESCRIPTOR_SIZE
  {
    var parts := DescriptorParts(d, reserved);
    NumberAt(data, at, parts, 5, 12, d.flags, 4);
    GuidAt(data, at, parts, 6, 16, d.sectionType);
    GuidAt(data, at, parts, 7, 32, d.fruId);
    NumberAt(data, at, parts, 8, 48, d.severityRaw, 4);
    PartReads(data, at, parts, 9, 52);
    TextReads(data, at + 52, d.fruText, 20);
    FlattenLength(parts);
  }

  /** A descriptor is read back wherever it lies. */
  lemma {:induction false} DescriptorReadsBack(d: Descriptor, reserved: Byte, data: seq<Byte>, at: nat)
    requires ProperDescriptor(d) && Laid(data, at, DescriptorParts(d, reserved))
    ensures DecodeDescriptor(data, at) == Some(d)
  {
    DescriptorFirst(d, reserved, data, at);
    DescriptorLast(d, reserved, data, at);
    SeverityReads(d.severity, d.severityRaw);
  }

  // --- Processor Generic sections (UEFI Table N-14) ---------------------------------------------

  datatype GenericFields = GenericFields(
    valid: nat, kind: nat, isa: nat, errorType: nat, operation: nat, flags: nat, level: nat, version: nat,
    brand: string, processorId: nat, target: nat, requestor: nat, responder: nat, ip: nat)

  predicate ProperGeneric(f: GenericFields) {
    && Wide(f.valid, 8) && Wide(f.kind, 1) && Wide(f.isa, 1) && Wide(f.errorType, 1) && Wide(f.operation, 1)
    && Wide(f.flags, 1) && Wide(f.level, 1) && Wide(f.version, 8) && PlainText(f.brand) && |f.brand| <= 128
    && Wide(f.processorId, 8) && Wide(f.target, 8) && Wide(f.requestor, 8) && Wide(f.responder, 8) && Wide(f.ip, 8)
  }

  function GenericParts(f: GenericFields, reserved: seq<Byte>): seq<seq<Byte>>
    requires ProperGeneric(f)
  {
    [ToLittleEndian(f.valid, 8), ToLittleEndian(f.kind, 1), ToLittleEndian(f.isa, 1), ToLittleEndian(f.errorType, 1),
     ToLittleEndian(f.operation, 1), ToLittleEndian(f.flags, 1), ToLittleEndian(f.level, 1), reserved,
     ToLittleEndian(f.version, 8), PrintText(f.brand, 128), ToLittleEndian(f.processorId, 8),
     ToLittleEndian(f.target, 8), ToLittleEndian(f.requestor, 8), ToLittleEndian(f.responder, 8),
     ToLittleEndian(f.ip, 8)]
  }

  lemma {:induction false} GenericFirst(f: GenericFields, reserved: seq<Byte>, body: seq<Byte>)
    requires ProperGeneric(f) && |reserved| == 2 && Laid(body, 0, GenericParts(f, reserved))
    ensures ReadOr0(body, 0, 8) == f.valid && ReadOr0(body, 8, 1) == f.kind && ReadOr0(body, 9, 1) == f.isa
    ensures ReadOr0(body, 10, 1) == f.errorType && ReadOr0(body, 11, 1) == f.operation
    ensures Before(GenericParts(f, reserved), 5) == 12
  {
    var parts := GenericParts(f, reserved);
    NumberAt(body, 0, parts, 0, 0, f.valid, 8);
    NumberAt(body, 0, parts, 1, 8, f.kind, 1);
    NumberAt(body, 0, parts, 2, 9, f.isa, 1);
    NumberAt(body, 0, parts, 3, 10, f.errorType, 1);
    NumberAt(body, 0, parts, 4, 11, f.operation, 1);
  }

  lemma {:induction false} GenericMiddle(f: GenericFields, reserved: seq<Byte>, body: seq<Byte>)
    requires ProperGeneric(f) && |reserved| == 2 && Laid(body, 0, GenericParts(f, reserved))
    requires Before(GenericParts(f, reserved), 5) == 12
    ensures ReadOr0(body, 12, 1) == f.flags && ReadOr0(body, 13, 1) == f.level && ReadOr0(body, 16, 8) == f.version
    ensures ReadText(body, 24, 128) == f.brand && Before(GenericParts(f, reserved), 10) == 152
  {
    var parts := GenericParts(f, reserved);
    NumberAt(body, 0, parts, 5, 12, f.flags, 1);
    NumberAt(body, 0, parts, 6, 13, f.level, 1);
    PartReads(body, 0, parts, 7, 14);
    NumberAt(body, 0, parts, 8, 16, f.version, 8);
    PartReads(body, 0, parts, 9, 24);
    TextReads(body, 24, f.brand, 128);
  }

  lemma {:induction false} GenericLast(f: GenericFields, reserved: seq<Byte>, body: seq<Byte>)
    requires ProperGeneric(f) && |reserved| == 2 && Laid(body, 0, GenericParts(f, reserved))
    requires Before(GenericParts(f, reserved), 10) == 152
    ensures ReadOr0(body, 152, 8) == f.processorId && ReadOr0(body, 160, 8) == f.target
    ensures ReadOr0(body, 168, 8) == f.requestor && ReadOr0(body, 176, 8) == f.responder
    ensures ReadOr0(body, 184, 8) == f.ip
  {
    var parts := GenericParts(f, reserved);
    NumberAt(body, 0, parts, 10, 152, f.processorId, 8);
    NumberAt(body, 0, parts, 11, 160, f.target, 8);
    NumberAt(body, 0, parts, 12, 168, f.requestor, 8);
    NumberAt(body, 0, parts, 13, 176, f.responder, 8);
    NumberAt(body, 0, parts, 14, 184, f.ip, 8);
  }

  lemma {:induction false} GenericDecode(body: seq<Byte>)
    ensures DecodeBody(PROCESSOR_GENERIC, body)
         == Generic(ReadOr0(body, 0, 8),
                    [ReadOr0(body, 8, 1), ReadOr0(body, 9, 1), ReadOr0(body, 10, 1), ReadOr0(body, 11, 1),
                     ReadOr0(body, 12, 1), ReadOr0(body, 13, 1), ReadOr0(body, 16, 8), ReadOr0(body, 152, 8),
                     ReadOr0(body, 160, 8), ReadOr0(body, 168, 8), ReadOr0(body, 176, 8), ReadOr0(body, 184, 8)],
                    if Bit(ReadOr0(body, 0, 8), 7) then ReadText(body, 24, 128) else "")
  {
  }

  /** A Processor Generic body is read back, its brand only if bit 7 says so. */
  lemma {:induction false} GenericReadsBack(f: GenericFields, reserved: seq<Byte>, body: seq<Byte>)
    requires ProperGeneric(f) && |reserved| == 2 && Laid(body, 0, GenericParts(f, reserved))
    ensures DecodeBody(PROCESSOR_GENERIC, body)
         == Generic(f.valid,
                    [f.kind, f.isa, f.errorType, f.operation, f.flags, f.level, f.version, f.processorId, f.target,
                     f.requestor, f.responder, f.ip],
                    if Bit(f.valid, 7) then f.brand else "")
  {
    GenericFirst(f, reserved, body);
    GenericMiddle(f, reserved, body);
    GenericLast(f, reserved, body);
    GenericDecode(body);
  }

  // --- Platform Memory sections (UEFI Table N-31) ----------------------------------------------

  /** How wide the fields are: error status, address, mask, node, card, module, bank, device, row,
      column, bit position, requestor, responder, target, error type, rank, card handle and
      module handle. */
  function MemoryWidth(i: nat): nat { if i < 3 || 11 <= i < 14 then 8 else if i == 14 then 1 else 2 }

  predicate ProperMemory(valid: nat, v: seq<nat>) {
    Wide(valid, 8) && |v| == 18 && forall i | 0 <= i < 18 :: Wide(v[i], MemoryWidth(i))
  }

  function MemoryRun(v: seq<nat>, from: nat, count: nat): (r: seq<seq<Byte>>)
    requires |v| == 18 && from + count <= 18
    ensures |r| == count && forall i | 0 <= i < count :: r[i] == ToLittleEndian(v[from + i], MemoryWidth(from + i))
  {
    seq(count, i requires 0 <= i < count => ToLittleEndian(v[from + i], MemoryWidth(from + i)))
  }

  /** The fields one after the other; a byte is reserved before the rank. */
  function MemoryParts(valid: nat, v: seq<nat>, reserved: Byte): (r: seq<seq<Byte>>)
    requires |v| == 18
    ensures |r| == 20
  {
    [ToLittleEndian(valid, 8)] + MemoryRun(v, 0, 15) + [[reserved]] + MemoryRun(v, 15, 3)
  }

  lemma {:induction false} MemoryPart(valid: nat, v: seq<nat>, reserved: Byte, i: nat)
    requires |v| == 18 && i < 18
    ensures MemoryParts(valid, v, reserved)[0] == ToLittleEndian(valid, 8)
    ensures MemoryParts(valid, v, reserved)[16] == [reserved]
    ensures MemoryParts(valid, v, reserved)[if i < 15 then i + 1 else i + 2] == ToLittleEndian(v[i], MemoryWidth(i))
  {
    var first, last := MemoryRun(v, 0, 15), MemoryRun(v, 15, 3);
    if i < 15 { assert first[i] == ToLittleEndian(v[0 + i], MemoryWidth(0 + i)); }
    if i >= 15 { assert last[i - 15] == ToLittleEndian(v[15 + (i - 15)], MemoryWidth(15 + (i - 15))); }
  }

  function MemoryStart(i: nat): nat {
    if i < 3 then 8 + 8 * i else if i < 11 then 26 + 2 * i else if i < 14 then 8 * i - 40 else if i == 14 then 72
    else 44 + 2 * i
  }

  lemma {:induction false} MemoryBefore(valid: nat, v: seq<nat>, reserved: Byte, i: nat)
    requires |v| == 18 && i < 18
    ensures Before(MemoryParts(valid, v, reserved), if i < 15 then i + 1 else i + 2) == MemoryStart(i)
  {
    var parts := MemoryParts(valid, v, reserved);
    if i == 0 {
      MemoryPart(valid, v, reserved, 0);
      assert Before(parts, 0) == 0;
    } else {
      MemoryBefore(valid, v, reserved, i - 1);
      MemoryPart(valid, v, reserved, i - 1);
      if i == 15 { assert Before(parts, 17) == Before(parts, 16) + |parts[16]|; }
    }
  }

  lemma {:induction false} MemoryTable()
    ensures |MEMORY_FIELDS| == 18
    ensures forall i | 0 <= i < 18 :: MEMORY_FIELDS[i] == (i, MemoryStart(i), MemoryWidth(i))
  {
  }

  lemma {:induction false} MemoryDecode(body: seq<Byte>, i: nat)
    requires i < 18
    ensures var decoded := DecodeBody(PLATFORM_MEMORY, body);
            && decoded.Memory? && decoded.validationBits == ReadOr0(body, 0, 8) && |decoded.validValues| == 18
            && decoded.validValues[i]
               == ReadIf(Bit(ReadOr0(body, 0, 8), i), body, MemoryStart(i), MemoryWidth(i))
  {
    MemoryTable();
    assert MEMORY_FIELDS[i] == (i, MemoryStart(i), MemoryWidth(i));
  }

  lemma {:induction false} MemoryRead(valid: nat, v: seq<nat>, reserved: Byte, body: seq<Byte>, i: nat)
    requires ProperMemory(valid, v) && Laid(body, 0, MemoryParts(valid, v, reserved)) && i < 18
    ensures Read(body, MemoryStart(i), MemoryWidth(i)) == Some(v[i])
  {
    MemoryBefore(valid, v, reserved, i);
    MemoryPart(valid, v, reserved, i);
    NumberAt(body, 0, MemoryParts(valid, v, reserved), if i < 15 then i + 1 else i + 2, MemoryStart(i), v[i],
             MemoryWidth(i));
  }

  /** A Platform Memory body is read back, each field only if its own validation bit is set. */
  lemma {:induction false} MemoryReadsBack(valid: nat, v: seq<nat>, reserved: Byte, body: seq<Byte>)
    requires ProperMemory(valid, v) && Laid(body, 0, MemoryParts(valid, v, reserved))
    ensures var decoded := DecodeBody(PLATFORM_MEMORY, body);
            && decoded.Memory? && decoded.validationBits == valid && |decoded.validValues| == 18
            && forall i | 0 <= i < 18 :: decoded.validValues[i] == If(Bit(valid, i), v[i])
  {
    var parts := MemoryParts(valid, v, reserved);
    MemoryPart(valid, v, reserved, 0);
    NumberAt(body, 0, parts, 0, 0, valid, 8);
    MemoryDecode(body, 0);
    forall i | 0 <= i < 18 ensures DecodeBody(PLATFORM_MEMORY, body).validValues[i] == If(Bit(valid, i), v[i]) {
      MemoryDecode(body, i);
      MemoryRead(valid, v, reserved, body, i);
    }
  }

  // --- IA32/X64 sections (UEFI Table N-16) ------------------------------------------------------

  function Ia32X64Parts(valid: nat, apic: nat, cpuid: seq<Byte>): seq<seq<Byte>> {
    [ToLittleEndian(valid, 8), ToLittleEndian(apic, 8), cpuid]
  }

  /** The error-info structures lie one after the other from byte 64 on. */
  ghost predicate InfosLaid(infos: seq<ErrorInfoFields>, body: seq<Byte>) {
    forall i | 0 <= i < |infos| :: ProperErrorInfo(infos[i]) && Laid(body, 64 + 64 * i, ErrorInfoParts(infos[i]))
  }

  lemma {:induction false} Ia32X64Head(valid: nat, apic: nat, cpuid: seq<Byte>, body: seq<Byte>)
    requires Wide(valid, 8) && Wide(apic, 8) && |cpuid| == 48 && Laid(body, 0, Ia32X64Parts(valid, apic, cpuid))
    ensures ReadOr0(body, 0, 8) == valid && ReadOr0(body, 8, 8) == apic && Bytes(body, 16, 48) == Some(cpuid)
    ensures |body| >= 64
  {
    var parts := Ia32X64Parts(valid, apic, cpuid);
    NumberAt(body, 0, parts, 0, 0, valid, 8);
    NumberAt(body, 0, parts, 1, 8, apic, 8);
    PartReads(body, 0, parts, 2, 16);
  }

  lemma {:induction false} ErrorInfoLength(f: ErrorInfoFields)
    requires ProperErrorInfo(f)
    ensures |Flatten(ErrorInfoParts(f))| == 64
  {
    var parts := ErrorInfoParts(f);
    FlattenLength(parts);
    assert Before(parts, 1) == 16 && Before(parts, 2) == 24 && Before(parts, 3) == 32 && Before(parts, 4) == 40;
    assert Before(parts, 5) == 48 && Before(parts, 6) == 56;
  }

  /** An IA32/X64 body whose structures are all there is read back: bits 2 to 7 count the
      structures, bits 8 to 13 the contexts, and the first CPUID word is shown if bit 1 says so. */
  lemma {:induction false} Ia32X64ReadsBack(valid: nat, apic: nat, cpuid: seq<Byte>, infos: seq<ErrorInfoFields>,
                                            body: seq<Byte>)
    requires Wide(valid, 8) && Wide(apic, 8) && |cpuid| == 48 && Laid(body, 0, Ia32X64Parts(valid, apic, cpuid))
    requires |infos| == Field(valid, 2, 6) && InfosLaid(infos, body)
    ensures var decoded := DecodeBody(IA32_X64_PROCESSOR, body);
            && decoded.Ia32X64? && decoded.validationBits == valid && decoded.localApicId == apic
            && decoded.cpuidInfo == Some(cpuid)
            && decoded.leaf1 == If(Bit(valid, 1) && cpuid[..4] != [0, 0, 0, 0], LittleEndian(cpuid[..4]))
            && decoded.declaredErrorInfo == |infos| && decoded.declaredContextInfo == Field(valid, 8, 6)
            && |decoded.errorInfo| == |infos|
            && forall i | 0 <= i < |infos| :: decoded.errorInfo[i] == ErrorInfoShown(infos[i])
  {
    Ia32X64Head(valid, apic, cpuid, body);
    ZeroBytes(cpuid[..4]);
    Ia32X64Infos(infos, body);
    assert IA32_X64_PROCESSOR != PROCESSOR_GENERIC;
  }

  lemma {:induction false} ZeroBytes(b: seq<Byte>)
    requires |b| == 4
    ensures LittleEndian(b) == 0 <==> b == [0, 0, 0, 0]
  {
    AllZero(b);
    assert b == [b[0], b[1], b[2], b[3]];
  }

  lemma {:induction false} AllZero(b: seq<Byte>)
    ensures LittleEndian(b) == 0 <==> forall i | 0 <= i < |b| :: b[i] == 0
  {
    if b != [] {
      AllZero(b[1..]);
      assert forall i | 0 < i < |b| :: b[i] == b[1..][i - 1];
    }
  }

  lemma {:induction false} InfoStart(i: nat)
    ensures ERROR_INFO_START + i * ERROR_INFO_SIZE == 64 + 64 * i
  {
  }

  lemma {:induction false} Ia32X64Infos(infos: seq<ErrorInfoFields>, body: seq<Byte>)
    requires InfosLaid(infos, body)
    ensures |infos| <= Fitting(|body|, ERROR_INFO_START, ERROR_INFO_SIZE)
    ensures forall i | 0 <= i < |infos| ::
              DecodeErrorInfo(body, ERROR_INFO_START + i * ERROR_INFO_SIZE) == ErrorInfoShown(infos[i])
  {
    forall i | 0 <= i < |infos|
      ensures DecodeErrorInfo(body, ERROR_INFO_START + i * ERROR_INFO_SIZE) == ErrorInfoShown(infos[i])
    {
      InfoStart(i);
      ErrorInfoReadsBack(infos[i], body, 64 + 64 * i);
    }
    if infos != [] {
      ErrorInfoLength(infos[|infos| - 1]);
      FitsBefore(body, ERROR_INFO_START, ERROR_INFO_SIZE, |infos| - 1);
    }
  }

  // --- The record -----------------------------------------------------------------------------

  /** What a section shows of the bytes its descriptor points at. */
  function SectionShown(d: Descriptor, data: seq<Byte>): Section {
    if d.offset + d.length > |data| then Section(d, Unavailable, []) else
    var raw := data[d.offset..d.offset + d.length];
    Section(d, DecodeBody(d.sectionType, raw), raw)
  }

  ghost predicate DescriptorsLaid(ds: seq<Descriptor>, reserved: seq<Byte>, data: seq<Byte>) {
    && |reserved| == |ds|
    && forall i | 0 <= i < |ds| ::
         ProperDescriptor(ds[i]) && Laid(data, 128 + 72 * i, DescriptorParts(ds[i], reserved[i]))
  }

  /** A record with its header, and its descriptors one after the other, decodes to that header
      and to one section a descriptor, whatever the descriptors point at. */
  lemma {:induction false} RecordReadsBack(h: Header, reserved: seq<Byte>, ds: seq<Descriptor>, more: seq<Byte>,
                                           data: seq<Byte>)
    requires ProperHeader(h) && |reserved| == 12 && Laid(data, 0, HeaderParts(h, reserved))
    requires h.signature == "CPER" && h.sectionCount == |ds| && |data| >= 128 && DescriptorsLaid(ds, more, data)
    ensures var r := Decode(data);
            && r.Decoded? && r.header == h.(timestamp := DecodeTimestamp(data, 24, Bit(h.validationBits, 1)))
            && |r.sections| == |ds| && forall i | 0 <= i < |ds| :: r.sections[i] == SectionShown(ds[i], data)
  {
    HeaderReadsBack(h, reserved, data);
    AllSections(ds, more, data);
    DecodesSections(data, ds);
  }

  lemma {:induction false} AllSections(ds: seq<Descriptor>, more: seq<Byte>, data: seq<Byte>)
    requires DescriptorsLaid(ds, more, data) && |data| >= 128
    ensures |ds| <= Fitting(|data|, HEADER_SIZE, DESCRIPTOR_SIZE)
    ensures forall i | 0 <= i < |ds| ::
              Has(data, DescriptorOffset(i), DESCRIPTOR_SIZE) && SectionAt(data, i) == SectionShown(ds[i], data)
  {
    forall i | 0 <= i < |ds|
      ensures Has(data, DescriptorOffset(i), DESCRIPTOR_SIZE) && SectionAt(data, i) == SectionShown(ds[i], data)
    {
      DescriptorReadsBack(ds[i], more[i], data, 128 + 72 * i);
      SectionIs(ds[i], data, i);
    }
    if ds != [] {
      var n := |ds| - 1;
      assert SectionAt(data, n) == SectionShown(ds[n], data);
      FitsBefore(data, HEADER_SIZE, DESCRIPTOR_SIZE, n);
    }
  }

  lemma {:induction false} SectionIs(d: Descriptor, data: seq<Byte>, i: nat)
    requires DecodeDescriptor(data, 128 + 72 * i) == Some(d)
    ensures Has(data, DescriptorOffset(i), DESCRIPTOR_SIZE) && SectionAt(data, i) == SectionShown(d, data)
    ensures i < Fitting(|data|, HEADER_SIZE, DESCRIPTOR_SIZE)
  {
    assert DescriptorOffset(i) == 128 + 72 * i;
    FitsBefore(data, HEADER_SIZE, DESCRIPTOR_SIZE, i);
  }

  lemma {:induction false} DecodesSections(data: seq<Byte>, ds: seq<Descriptor>)
    requires |data| >= 128 && DecodeHeader(data).signature == "CPER" && DecodeHeader(data).sectionCount == |ds|
    requires |ds| <= Fitting(|data|, HEADER_SIZE, DESCRIPTOR_SIZE)
    requires forall i | 0 <= i < |ds| ::
               Has(data, DescriptorOffset(i), DESCRIPTOR_SIZE) && SectionAt(data, i) == SectionShown(ds[i], data)
    ensures var r := Decode(data);
            && r.Decoded? && r.header == DecodeHeader(data) && |r.sections| == |ds|
            && forall i | 0 <= i < |ds| :: r.sections[i] == SectionShown(ds[i], data)
  {
    assert SectionCount(data) == |ds|;
    forall i | 0 <= i < |ds| ensures Sections(data, |ds|)[i] == SectionAt(data, i) {
      FitsBefore(data, HEADER_SIZE, DESCRIPTOR_SIZE, i);
    }
  }

  /** A record is refused exactly when it is shorter than a header or does not start with CPER. */
  lemma {:induction false} RejectedExactly(data: seq<Byte>)
    ensures Decode(data).Rejected? <==> |data| < 128 || data[..4] != [0x43, 0x50, 0x45, 0x52]
    ensures |data| < 128 ==> Decode(data) == Rejected(TooShort(|data|))
  {
    if |data| >= 128 {
      var b := data[..4];
      assert Bytes(data, 0, 4) == Some(b) && b == [b[0], b[1], b[2], b[3]];
      FirstFour(data, b);
    }
  }

  lemma {:induction false} FirstFour(data: seq<Byte>, b: seq<Byte>)
    requires Bytes(data, 0, 4) == Some(b) && |b| == 4
    ensures ReadText(data, 0, 4) == "CPER" <==> b == [0x43, 0x50, 0x45, 0x52]
  {
    var n := if b[0] == 0 then 0 else if b[1] == 0 then 1 else if b[2] == 0 then 2 else if b[3] == 0 then 3 else 4;
    TextTells(data, 0, b, n);
    var text := ReadText(data, 0, 4);
    assert text == "CPER" ==> Shown(b[0]) == 'C' && Shown(b[1]) == 'P' && Shown(b[2]) == 'E' && Shown(b[3]) == 'R';
    if b == [0x43, 0x50, 0x45, 0x52] {
      assert |text| == 4;
      assert text == "CPER";
    }
  }

  /** The warnings about the header. */
  lemma {:induction false} HeaderWarningsTell(h: Header, size: nat, w: Warning)
    ensures w in HeaderWarnings(h, size)
       <==> || (w == WrongSignatureEnd(h.signatureEnd) && h.signatureEnd != 0xFFFF_FFFF)
            || (w == WrongLength(h.recordLength, size) && h.recordLength != size)
            || (w == BadTimestamp(h.timestamp.raw) && Bit(h.validationBits, 1) && !h.timestamp.plausible)
  {
  }

  lemma {:induction false} BodyWarningsTell(sections: seq<Section>, w: Warning)
    ensures w in BodyWarnings(sections)
       <==> w.BodyOutOfRange? && w.index < |sections| && sections[w.index].body.Unavailable?
  {
    if sections != [] { BodyWarningsTell(sections[..|sections| - 1], w); }
  }

  /** The warnings of a record are exactly these. */
  lemma {:induction false} WarningsTell(data: seq<Byte>, w: Warning)
    requires Decode(data).Decoded?
    ensures w in Decode(data).warnings <==> Warned(Decode(data).header, Decode(data).sections, |data|, w)
  {
    var h, sections := Decode(data).header, Decode(data).sections;
    HeaderWarningsTell(h, |data|, w);
    BodyWarningsTell(sections, w);
  }

  /** What each warning is about. */
  predicate Warned(h: Header, sections: seq<Section>, size: nat, w: Warning) {
    match w
    case WrongSignatureEnd(value) => value == h.signatureEnd && value != 0xFFFF_FFFF
    case WrongLength(declared, actual) => declared == h.recordLength && actual == size && declared != actual
    case BadTimestamp(raw) => raw == h.timestamp.raw && Bit(h.validationBits, 1) && !h.timestamp.plausible
    case BodyOutOfRange(index) => index < |sections| && sections[index].body.Unavailable?
    case MissingDescriptors(declared, decoded) =>
      declared == h.sectionCount && decoded == |sections| && decoded < declared
    case NoSections => h.sectionCount == 0
  }
}
