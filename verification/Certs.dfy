/** The certificate table decoder (src/certs.rs): a cursor loop over an untrusted
    blob, proved against a slot-by-slot specification. */
module Certs {
  import opened Bytes
  import opened Errors
  import Report

  const ENTRY_SIZE := 24
  const BLOB_MAX := 0x4000
  const MAX_ENTRIES := 16
  const ENTRY_OFFSET_FIELD := 16
  const ENTRY_LENGTH_FIELD := 20

  // ----- Kinds -----

  datatype CertKind = Vcek | Vlek | Ask | Ark | ExtraPlatformInfo | Unknown

  // The guids the GHCB specification (section 4.1.8.1) defines, each written as the
  // 128-bit number its dashed form spells; the table holds its bytes in that order.
  const VCEK_GUID: nat := 0x63da758d_e664_4564_adc5_f4b93be8accd
  const VLEK_GUID: nat := 0xa8074bc2_a25a_483e_aae6_39c045a0b8a1
  const ASK_GUID: nat := 0x4ab7b379_bbac_4fe4_a02f_05aef327c782
  const ARK_GUID: nat := 0xc0b406a4_a803_4952_9743_3fb6014cd0ae
  const EXTRA_PLATFORM_INFO_GUID: nat := 0xecae0c0f_9502_43b1_afa2_0ae2e0d565b6

  function FromGuid(guid: seq<byte>): CertKind {
    var number := BeValue(guid);
    if number == VCEK_GUID then Vcek
    else if number == VLEK_GUID then Vlek
    else if number == ASK_GUID then Ask
    else if number == ARK_GUID then Ark
    else if number == EXTRA_PLATFORM_INFO_GUID then ExtraPlatformInfo
    else Unknown
  }

  function GuidNumber(kind: CertKind): (n: nat)
    requires kind != Unknown
    ensures n < 0x1_00000000_0000_0000_0000_000000000000
  {
    match kind
    case Vcek => VCEK_GUID
    case Vlek => VLEK_GUID
    case Ask => ASK_GUID
    case Ark => ARK_GUID
    case ExtraPlatformInfo => EXTRA_PLATFORM_INFO_GUID
  }

  /** The sixteen bytes of a named kind's guid, most significant first. */
  function GuidOf(kind: CertKind): (guid: seq<byte>)
    requires kind != Unknown
    ensures |guid| == 16
  {
    Reversed(LeBytes(GuidNumber(kind), 16))
  }

  lemma GuidReads(kind: CertKind)
    requires kind != Unknown
    ensures BeValue(GuidOf(kind)) == GuidNumber(kind)
  {
    var n: nat := GuidNumber(kind);
    Pow256Sum(8, 8);
    Widths();
    LeValueOfBytes(n, 16);
    BeValueOfReversed(LeBytes(n, 16));
  }

  lemma NamedByNumber(guid: seq<byte>, kind: CertKind)
    requires kind != Unknown
    ensures FromGuid(guid) == kind <==> BeValue(guid) == GuidNumber(kind)
  {
  }

  /** Naming is exact: a guid gets a name exactly when it is, byte for byte, that name's guid. */
  lemma KindNamesItsGuid(guid: seq<byte>, kind: CertKind)
    requires |guid| == 16 && kind != Unknown
    ensures FromGuid(guid) == kind <==> guid == GuidOf(kind)
  {
    GuidReads(kind);
    NamedByNumber(guid, kind);
    if FromGuid(guid) == kind {
      BeValueInjective(guid, GuidOf(kind));
    }
  }

  lemma BeValueOfPair(a: seq<byte>, b: seq<byte>)
    requires |b| == 4
    ensures BeValue(a + b) == 0x1_0000_0000 * BeValue(a) + BeValue(b)
  {
    assert a + b == a + [b[0]] + [b[1]] + [b[2]] + [b[3]];
    BeValueOfOneMore(a, b[0]);
    BeValueOfOneMore(a + [b[0]], b[1]);
    BeValueOfOneMore(a + [b[0]] + [b[1]], b[2]);
    BeValueOfOneMore(a + [b[0]] + [b[1]] + [b[2]], b[3]);
    BeValueOfFour(b);
  }

  lemma BeValueOfOneMore(a: seq<byte>, x: byte)
    ensures BeValue(a + [x]) == 0x100 * BeValue(a) + x
  {
    assert (a + [x])[..|a|] == a;
  }

  lemma BeValueOfWords(a: seq<byte>, b: seq<byte>, c: seq<byte>, d: seq<byte>)
    requires |a| == |b| == |c| == |d| == 4
    ensures BeValue(a + b + c + d) == 0x1_0000_0000_0000_0000_0000_0000 * BeValue(a)
                                      + 0x1_0000_0000_0000_0000 * BeValue(b) + 0x1_0000_0000 * BeValue(c) + BeValue(d)
  {
    BeValueOfPair(a + b + c, d);
    BeValueOfPair(a + b, c);
    BeValueOfPair(a, b);
  }

  lemma BeValueOfFour(s: seq<byte>)
    requires |s| == 4
    ensures BeValue(s) == 0x100_0000 * (s[0] as nat) + 0x1_0000 * (s[1] as nat) + 0x100 * (s[2] as nat) + s[3]
  {
    var a, b := s[..3], s[..2];
    assert a[..2] == b && b[..1] == s[..1] && s[..1][..0] == [];
    assert BeValue(s[..1]) == s[0];
    assert BeValue(b) == 0x100 * BeValue(s[..1]) + s[1];
    assert BeValue(a) == 0x100 * BeValue(b) + s[2];
  }

  lemma GuidIs(kind: CertKind, a: seq<byte>, b: seq<byte>, c: seq<byte>, d: seq<byte>)
    requires kind != Unknown && |a| == |b| == |c| == |d| == 4
    requires GuidNumber(kind) == 0x1_0000_0000_0000_0000_0000_0000 * BeValue(a)
                                 + 0x1_0000_0000_0000_0000 * BeValue(b) + 0x1_0000_0000 * BeValue(c) + BeValue(d)
    ensures GuidOf(kind) == a + b + c + d
  {
    BeValueOfWords(a, b, c, d);
    GuidReads(kind);
    BeValueInjective(GuidOf(kind), a + b + c + d);
  }

  lemma VcekGuid()
    ensures GuidOf(Vcek) == [0x63, 0xda, 0x75, 0x8d] + [0xe6, 0x64, 0x45, 0x64]
                             + [0xad, 0xc5, 0xf4, 0xb9] + [0x3b, 0xe8, 0xac, 0xcd]
  {
    var a, b: seq<byte> := [0x63, 0xda, 0x75, 0x8d], [0xe6, 0x64, 0x45, 0x64];
    var c, d: seq<byte> := [0xad, 0xc5, 0xf4, 0xb9], [0x3b, 0xe8, 0xac, 0xcd];
    BeValueOfFour(a);
    BeValueOfFour(b);
    BeValueOfFour(c);
    BeValueOfFour(d);
    GuidIs(Vcek, a, b, c, d);
  }

  lemma VlekGuid()
    ensures GuidOf(Vlek) == [0xa8, 0x07, 0x4b, 0xc2] + [0xa2, 0x5a, 0x48, 0x3e]
                             + [0xaa, 0xe6, 0x39, 0xc0] + [0x45, 0xa0, 0xb8, 0xa1]
  {
    var a, b: seq<byte> := [0xa8, 0x07, 0x4b, 0xc2], [0xa2, 0x5a, 0x48, 0x3e];
    var c, d: seq<byte> := [0xaa, 0xe6, 0x39, 0xc0], [0x45, 0xa0, 0xb8, 0xa1];
    BeValueOfFour(a);
    BeValueOfFour(b);
    BeValueOfFour(c);
    BeValueOfFour(d);
    GuidIs(Vlek, a, b, c, d);
  }

  lemma AskGuid()
    ensures GuidOf(Ask) == [0x4a, 0xb7, 0xb3, 0x79] + [0xbb, 0xac, 0x4f, 0xe4]
                            + [0xa0, 0x2f, 0x05, 0xae] + [0xf3, 0x27, 0xc7, 0x82]
  {
    var a, b: seq<byte> := [0x4a, 0xb7, 0xb3, 0x79], [0xbb, 0xac, 0x4f, 0xe4];
    var c, d: seq<byte> := [0xa0, 0x2f, 0x05, 0xae], [0xf3, 0x27, 0xc7, 0x82];
    BeValueOfFour(a);
    BeValueOfFour(b);
    BeValueOfFour(c);
    BeValueOfFour(d);
    GuidIs(Ask, a, b, c, d);
  }

  lemma ArkGuid()
    ensures GuidOf(Ark) == [0xc0, 0xb4, 0x06, 0xa4] + [0xa8, 0x03, 0x49, 0x52]
                            + [0x97, 0x43, 0x3f, 0xb6] + [0x01, 0x4c, 0xd0, 0xae]
  {
    var a, b: seq<byte> := [0xc0, 0xb4, 0x06, 0xa4], [0xa8, 0x03, 0x49, 0x52];
    var c, d: seq<byte> := [0x97, 0x43, 0x3f, 0xb6], [0x01, 0x4c, 0xd0, 0xae];
    BeValueOfFour(a);
    BeValueOfFour(b);
    BeValueOfFour(c);
    BeValueOfFour(d);
    GuidIs(Ark, a, b, c, d);
  }

  lemma ExtraPlatformInfoGuid()
    ensures GuidOf(ExtraPlatformInfo) == [0xec, 0xae, 0x0c, 0x0f] + [0x95, 0x02, 0x43, 0xb1]
                                          + [0xaf, 0xa2, 0x0a, 0xe2] + [0xe0, 0xd5, 0x65, 0xb6]
  {
    var a, b: seq<byte> := [0xec, 0xae, 0x0c, 0x0f], [0x95, 0x02, 0x43, 0xb1];
    var c, d: seq<byte> := [0xaf, 0xa2, 0x0a, 0xe2], [0xe0, 0xd5, 0x65, 0xb6];
    BeValueOfFour(a);
    BeValueOfFour(b);
    BeValueOfFour(c);
    BeValueOfFour(d);
    GuidIs(ExtraPlatformInfo, a, b, c, d);
  }

  /** The sixteen bytes a table holds for each kind, in the binary order of RFC 4122. */
  lemma GuidsAreInOrder()
    ensures GuidOf(Vcek) == [0x63, 0xda, 0x75, 0x8d] + [0xe6, 0x64, 0x45, 0x64]
                             + [0xad, 0xc5, 0xf4, 0xb9] + [0x3b, 0xe8, 0xac, 0xcd]
    ensures GuidOf(Vlek) == [0xa8, 0x07, 0x4b, 0xc2] + [0xa2, 0x5a, 0x48, 0x3e]
                             + [0xaa, 0xe6, 0x39, 0xc0] + [0x45, 0xa0, 0xb8, 0xa1]
    ensures GuidOf(Ask) == [0x4a, 0xb7, 0xb3, 0x79] + [0xbb, 0xac, 0x4f, 0xe4]
                            + [0xa0, 0x2f, 0x05, 0xae] + [0xf3, 0x27, 0xc7, 0x82]
    ensures GuidOf(Ark) == [0xc0, 0xb4, 0x06, 0xa4] + [0xa8, 0x03, 0x49, 0x52]
                            + [0x97, 0x43, 0x3f, 0xb6] + [0x01, 0x4c, 0xd0, 0xae]
    ensures GuidOf(ExtraPlatformInfo) == [0xec, 0xae, 0x0c, 0x0f] + [0x95, 0x02, 0x43, 0xb1]
                                          + [0xaf, 0xa2, 0x0a, 0xe2] + [0xe0, 0xd5, 0x65, 0xb6]
  {
    VcekGuid();
    VlekGuid();
    AskGuid();
    ArkGuid();
    ExtraPlatformInfoGuid();
  }

  // ----- The table and its slots -----

  datatype Certificate = Certificate(kind: CertKind, guid: seq<byte>, data: seq<byte>)

  datatype CertTable = CertTable(entries: seq<Certificate>)

  /** A report together with the chain that verifies it. */
  datatype ExtendedReport = Extended(report: Report.AttestationReport, certificates: CertTable)

  /** The 24 bytes at table position k, as the table format defines them. */
  datatype Slot =
    | Missing
    | Terminator
    | Entry(guid: seq<byte>, start: u32, length: u32)

  function SlotAt(blob: seq<byte>, k: nat): Slot
  {
    if |blob| < 24 * k + 24 then Missing
    else
      var guid := blob[24 * k..24 * k + 16];
      var start := LeU32(blob[24 * k + 16..24 * k + 20]);
      var length := LeU32(blob[24 * k + 20..24 * k + 24]);
      if guid == Zeros(16) && start == 0 && length == 0 then Terminator
      else Entry(guid, start, length)
  }

  /** Slot k describes a body that lies inside the blob. */
  predicate Readable(blob: seq<byte>, k: nat) {
    var slot := SlotAt(blob, k);
    slot.Entry? && slot.start + slot.length <= |blob|
  }

  function CertAt(blob: seq<byte>, k: nat): Certificate
    requires Readable(blob, k)
  {
    var slot := SlotAt(blob, k);
    Certificate(FromGuid(slot.guid), slot.guid, blob[slot.start..slot.start + slot.length])
  }

  const TOO_MANY_ENTRIES := Parse(CertTableTooLarge("entry count", MAX_ENTRIES))
  const BLOB_TOO_LARGE := Parse(CertTableTooLarge("blob", BLOB_MAX))
  const OUT_OF_BOUNDS := Parse(CertTableOutOfBounds)

  function Short(blob: seq<byte>, k: nat): Error {
    Parse(TooShort("certificate table entry", 24 * k + 24, |blob|))
  }

  /** What position k contributes: an error, the end of the table, or a certificate. */
  function Yield(blob: seq<byte>, k: nat): Result<Option<Certificate>> {
    match SlotAt(blob, k)
    case Missing => Err(Short(blob, k))
    case Terminator => Ok(None)
    case Entry(guid, start, length) =>
      if start + length > |blob| then Err(OUT_OF_BOUNDS) else Ok(Some(CertAt(blob, k)))
  }

  /** The entries from position k on, or the first error met from there. */
  function DecodeFrom(blob: seq<byte>, k: nat): Result<seq<Certificate>>
    requires k <= MAX_ENTRIES
    decreases blob, MAX_ENTRIES - k
  {
    if k >= MAX_ENTRIES then Err(TOO_MANY_ENTRIES)
    else
      match Yield(blob, k)
      case Err(e) => Err(e)
      case Ok(None) => Ok([])
      case Ok(Some(cert)) =>
        match DecodeFrom(blob, k + 1)
        case Err(e) => Err(e)
        case Ok(rest) => Ok([cert] + rest)
  }

  function Decode(blob: seq<byte>): Result<CertTable> {
    if blob == [] then Ok(CertTable([]))
    else if |blob| > BLOB_MAX then Err(BLOB_TOO_LARGE)
    else
      match DecodeFrom(blob, 0)
      case Err(e) => Err(e)
      case Ok(entries) => Ok(CertTable(entries))
  }

  function Behind(done: seq<Certificate>, rest: Result<seq<Certificate>>): Result<seq<Certificate>> {
    match rest
    case Err(e) => Err(e)
    case Ok(entries) => Ok(done + entries)
  }

  lemma DecodeStep(blob: seq<byte>, done: seq<Certificate>, k: nat)
    requires k <= MAX_ENTRIES
    ensures Behind(done, DecodeFrom(blob, k)) ==
            if k == MAX_ENTRIES then Err(TOO_MANY_ENTRIES)
            else match Yield(blob, k)
              case Err(e) => Err(e)
              case Ok(None) => Ok(done)
              case Ok(Some(cert)) => Behind(done + [cert], DecodeFrom(blob, k + 1))
  {
    assert done + [] == done;
    if k < MAX_ENTRIES && Yield(blob, k).Ok? && Yield(blob, k).value.Some? {
      match DecodeFrom(blob, k + 1)
      case Err(_) =>
      case Ok(rest) =>
        var cert := Yield(blob, k).value.value;
        assert done + ([cert] + rest) == done + [cert] + rest;
    }
  }

  lemma BehindNothing(rest: Result<seq<Certificate>>)
    ensures Behind([], rest) == rest
  {
    assert rest.Ok? ==> [] + rest.value == rest.value;
  }

  /** One loop iteration's reads and checks, in the order the source makes them. */
  method ReadEntry(blob: seq<byte>, cursor: nat, ghost k: nat) returns (r: Result<Option<Certificate>>)
    requires cursor == ENTRY_SIZE * k
    ensures r == Yield(blob, k)
  {
    var short := Parse(TooShort("certificate table entry", cursor + ENTRY_SIZE, |blob|));
    var guid := BytesAt(blob, cursor, 16);
    if guid.None? {
      return Err(short);
    }
    var offset := U32At(blob, cursor + ENTRY_OFFSET_FIELD);
    if offset.None? {
      return Err(short);
    }
    var length := U32At(blob, cursor + ENTRY_LENGTH_FIELD);
    if length.None? {
      return Err(short);
    }
    if guid.value == Zeros(16) && offset.value == 0 && length.value == 0 {
      return Ok(None);
    }
    var start: nat := offset.value;
    var end: nat := start + length.value;
    if end > |blob| {
      return Err(OUT_OF_BOUNDS);
    }
    return Ok(Some(Certificate(FromGuid(guid.value), guid.value, blob[start..end])));
  }

  method ParseEntries(blob: seq<byte>) returns (r: Result<seq<Certificate>>)
    ensures r == DecodeFrom(blob, 0)
  {
    var certs: seq<Certificate> := [];
    var cursor: nat := 0;
    ghost var whole := DecodeFrom(blob, 0);
    BehindNothing(whole);
    while true
      invariant cursor == ENTRY_SIZE * |certs| && |certs| <= MAX_ENTRIES
      invariant whole == Behind(certs, DecodeFrom(blob, |certs|))
      decreases MAX_ENTRIES - |certs|
    {
      DecodeStep(blob, certs, |certs|);
      if |certs| >= MAX_ENTRIES {
        return Err(TOO_MANY_ENTRIES);
      }
      var next := ReadEntry(blob, cursor, |certs|);
      if next.Err? {
        return Err(next.error);
      }
      if next.value.None? {
        return Ok(certs);
      }
      certs := certs + [next.value.value];
      cursor := cursor + ENTRY_SIZE;
    }
  }

  /** `CertTable::parse` */
  method ParseTable(blob: seq<byte>) returns (r: Result<CertTable>)
    ensures r == Decode(blob)
  {
    if blob == [] {
      return Ok(CertTable([]));
    }
    if |blob| > BLOB_MAX {
      return Err(BLOB_TOO_LARGE);
    }
    var entries := ParseEntries(blob);
    match entries {
      case Err(e) => return Err(e);
      case Ok(certs) => return Ok(CertTable(certs));
    }
  }

  // ----- What the decoder accepts, and which error comes first -----

  /** Position k is the first one that does not yield a certificate. */
  predicate StopsAt(blob: seq<byte>, k: nat) {
    && k <= MAX_ENTRIES
    && (forall j :: 0 <= j < k ==> Readable(blob, j))
    && (k < MAX_ENTRIES ==> !Readable(blob, k))
  }

  lemma {:induction false} SomewhereItStops(blob: seq<byte>, k: nat) returns (stop: nat)
    requires k <= MAX_ENTRIES && forall j :: 0 <= j < k ==> Readable(blob, j)
    ensures StopsAt(blob, stop)
    decreases MAX_ENTRIES - k
  {
    if k < MAX_ENTRIES && Readable(blob, k) {
      stop := SomewhereItStops(blob, k + 1);
    } else {
      stop := k;
    }
  }

  predicate AllReadable(blob: seq<byte>, k: nat, stop: nat) {
    forall j :: k <= j < stop ==> Readable(blob, j)
  }

  /** The certificates of positions k to stop, in order. */
  function Chain(blob: seq<byte>, k: nat, stop: nat): (certs: seq<Certificate>)
    requires k <= stop && AllReadable(blob, k, stop)
    ensures |certs| == stop - k
  {
    seq(stop - k, i requires 0 <= i < stop - k => CertAt(blob, k + i))
  }

  lemma ChainStep(blob: seq<byte>, k: nat, stop: nat)
    requires k < stop && AllReadable(blob, k, stop)
    ensures Chain(blob, k, stop) == [CertAt(blob, k)] + Chain(blob, k + 1, stop)
  {
    var rest := Chain(blob, k + 1, stop);
    forall i | 0 < i < stop - k
      ensures rest[i - 1] == Chain(blob, k, stop)[i]
    {
      assert (k + 1) + (i - 1) == k + i;
    }
  }

  /** What a stop at position `stop` makes of the positions from k on. */
  function StopOutcome(blob: seq<byte>, k: nat, stop: nat): Result<seq<Certificate>>
    requires k <= stop && StopsAt(blob, stop)
  {
    if stop == MAX_ENTRIES then Err(TOO_MANY_ENTRIES)
    else
      match SlotAt(blob, stop)
      case Missing => Err(Short(blob, stop))
      case Entry(_, _, _) => Err(OUT_OF_BOUNDS)
      case Terminator => Ok(Chain(blob, k, stop))
  }

  lemma {:induction false} DecodeFromStop(blob: seq<byte>, k: nat, stop: nat)
    requires k <= stop && StopsAt(blob, stop)
    ensures DecodeFrom(blob, k) == StopOutcome(blob, k, stop)
    decreases stop - k
  {
    if k < stop {
      assert Readable(blob, k);
      DecodeFromStop(blob, k + 1, stop);
      ChainStep(blob, k, stop);
    }
  }

  /** The outcome of decoding is settled by the first position that yields no certificate:
      a sixteenth entry is refused before its successor is looked at, a slot cut off by the
      end of the blob is a length error naming the bytes needed, a body outside the blob is
      an offset error, and a terminator delivers the certificates before it, in order. */
  lemma DecodeIsSettledByTheStop(blob: seq<byte>, stop: nat)
    requires 0 < |blob| <= BLOB_MAX && StopsAt(blob, stop)
    ensures stop == 16 ==> Decode(blob) == Err(Parse(CertTableTooLarge("entry count", 16)))
    ensures stop < 16 && SlotAt(blob, stop).Missing? ==>
              Decode(blob) == Err(Parse(TooShort("certificate table entry", 24 * stop + 24, |blob|)))
    ensures stop < 16 && SlotAt(blob, stop).Entry? ==> Decode(blob) == Err(Parse(CertTableOutOfBounds))
    ensures stop < 16 && SlotAt(blob, stop).Terminator? ==>
              Decode(blob) == Ok(CertTable(Chain(blob, 0, stop)))
  {
    DecodeFromStop(blob, 0, stop);
  }

  /** Exactly which blobs are accepted. */
  lemma AcceptedExactly(blob: seq<byte>)
    ensures Decode(blob).Ok? <==>
            blob == [] ||
            (|blob| <= 0x4000 && exists n :: 0 <= n <= 15 && SlotAt(blob, n) == Terminator
                                             && forall j :: 0 <= j < n ==> Readable(blob, j))
    ensures |blob| > 0x4000 <==> Decode(blob) == Err(Parse(CertTableTooLarge("blob", 0x4000)))
  {
    if 0 < |blob| <= BLOB_MAX {
      var stop := SomewhereItStops(blob, 0);
      DecodeIsSettledByTheStop(blob, stop);
      forall n | 0 <= n <= 15 && SlotAt(blob, n) == Terminator && forall j :: 0 <= j < n ==> Readable(blob, j)
        ensures n == stop
      {
        assert !Readable(blob, n);
      }
    }
  }

  /** Certificates carry exactly the bytes the table names. */
  lemma EntriesAreExactSlices(blob: seq<byte>, i: nat)
    requires Decode(blob).Ok? && i < |Decode(blob).value.entries|
    ensures 24 * i + 24 <= |blob|
    ensures var c := Decode(blob).value.entries[i];
            var start := LeValue(blob[24 * i + 16..24 * i + 20]);
            var length := LeValue(blob[24 * i + 20..24 * i + 24]);
            && c.guid == blob[24 * i..24 * i + 16]
            && c.kind == FromGuid(c.guid)
            && start + length <= |blob|
            && c.data == blob[start..start + length]
  {
    var stop := AcceptedAsChain(blob);
    assert Decode(blob).value.entries[i] == CertAt(blob, 0 + i) && Readable(blob, i);
  }

  lemma AcceptedAsChain(blob: seq<byte>) returns (stop: nat)
    requires blob != [] && Decode(blob).Ok?
    ensures stop <= 15 && StopsAt(blob, stop) && SlotAt(blob, stop) == Terminator
    ensures |Decode(blob).value.entries| == stop
    ensures forall i :: 0 <= i < stop ==> Decode(blob).value.entries[i] == CertAt(blob, 0 + i)
  {
    stop := SomewhereItStops(blob, 0);
    DecodeIsSettledByTheStop(blob, stop);
  }

  lemma DecodeErrorsAreParse(blob: seq<byte>)
    ensures Decode(blob).Err? ==> Decode(blob).error.Parse?
  {
    if 0 < |blob| <= BLOB_MAX {
      var stop := SomewhereItStops(blob, 0);
      DecodeIsSettledByTheStop(blob, stop);
    }
  }

  // ----- Bounds -----

  function TotalBytes(entries: seq<Certificate>): nat {
    if entries == [] then 0 else |entries[0].data| + TotalBytes(entries[1..])
  }

  lemma {:induction false} TotalBytesBound(entries: seq<Certificate>, limit: nat)
    requires forall i :: 0 <= i < |entries| ==> |entries[i].data| <= limit
    ensures TotalBytes(entries) <= |entries| * limit
  {
    if entries != [] {
      TotalBytesBound(entries[1..], limit);
      assert |entries| * limit == limit + (|entries| - 1) * limit;
    }
  }

  /** However the offsets overlap, the decoded form stays within fifteen times the blob,
      itself at most 0x4000 bytes. */
  lemma DecodedFormIsBounded(blob: seq<byte>)
    requires Decode(blob).Ok?
    ensures |Decode(blob).value.entries| <= 15
    ensures TotalBytes(Decode(blob).value.entries) <= 15 * |blob| <= 15 * 0x4000
  {
    var entries := Decode(blob).value.entries;
    if blob != [] {
      var stop := AcceptedAsChain(blob);
    }
    forall i | 0 <= i < |entries|
      ensures |entries[i].data| <= |blob|
    {
      EntriesAreExactSlices(blob, i);
    }
    TotalBytesBound(entries, |blob|);
    MulBound(|entries|, 15, |blob|);
  }

  lemma MulBound(a: nat, b: nat, c: nat)
    requires a <= b
    ensures a * c <= b * c
  {
  }

  /** A buffer of at least sixteen slots within the size limit can be refused only for what
      its entries say, never for its own length. */
  lemma WholeBuffersAreNeverShort(blob: seq<byte>)
    requires 16 * ENTRY_SIZE <= |blob| <= BLOB_MAX
    ensures Decode(blob).Ok? || Decode(blob) == Err(TOO_MANY_ENTRIES) || Decode(blob) == Err(OUT_OF_BOUNDS)
  {
    var stop := SomewhereItStops(blob, 0);
    DecodeIsSettledByTheStop(blob, stop);
  }

  // ----- Padding -----

  lemma SlotOfPadded(blob: seq<byte>, suffix: seq<byte>, k: nat)
    requires SlotAt(blob, k) != Missing
    ensures SlotAt(blob + suffix, k) == SlotAt(blob, k)
  {
    var b := blob + suffix;
    assert b[24 * k..24 * k + 16] == blob[24 * k..24 * k + 16];
    assert b[24 * k + 16..24 * k + 20] == blob[24 * k + 16..24 * k + 20];
    assert b[24 * k + 20..24 * k + 24] == blob[24 * k + 20..24 * k + 24];
  }

  lemma CertOfPadded(blob: seq<byte>, suffix: seq<byte>, k: nat)
    requires Readable(blob, k)
    ensures Readable(blob + suffix, k) && CertAt(blob + suffix, k) == CertAt(blob, k)
  {
    SlotOfPadded(blob, suffix, k);
    SlicePrefix(blob, suffix, SlotAt(blob, k).start, SlotAt(blob, k).start + SlotAt(blob, k).length);
  }

  lemma {:induction false} DecodeFromPadded(blob: seq<byte>, suffix: seq<byte>, k: nat)
    requires k <= MAX_ENTRIES && DecodeFrom(blob, k).Ok?
    ensures DecodeFrom(blob + suffix, k) == DecodeFrom(blob, k)
    decreases MAX_ENTRIES - k
  {
    if SlotAt(blob, k).Entry? {
      CertOfPadded(blob, suffix, k);
      SlotOfPadded(blob, suffix, k);
      DecodeFromPadded(blob, suffix, k + 1);
    } else {
      SlotOfPadded(blob, suffix, k);
    }
  }

  /** Bytes after an accepted blob cannot change the decoded chain. */
  lemma PaddingIsInert(blob: seq<byte>, suffix: seq<byte>)
    requires blob != [] && Decode(blob).Ok? && |blob| + |suffix| <= BLOB_MAX
    ensures Decode(blob + suffix) == Decode(blob)
  {
    DecodeFromPadded(blob, suffix, 0);
  }

  // ----- Round trip with the canonical encoder -----

  datatype Item = Item(guid: seq<byte>, body: seq<byte>)

  predicate Guids(items: seq<Item>) {
    forall i :: 0 <= i < |items| ==> |items[i].guid| == 16
  }

  function Bodies(items: seq<Item>): seq<byte> {
    if items == [] then [] else items[0].body + Bodies(items[1..])
  }

  function EntryBytes(item: Item, start: nat): seq<byte> {
    item.guid + LeBytes(start, 4) + LeBytes(|item.body|, 4)
  }

  /** Table entries whose bodies lie back to back from `start` on. */
  function Entries(items: seq<Item>, start: nat): (s: seq<byte>)
    requires Guids(items)
    ensures |s| == 24 * |items|
  {
    if items == [] then []
    else EntryBytes(items[0], start) + Entries(items[1..], start + |items[0].body|)
  }

  /** Entries, an all-zero terminator, then the bodies (built by hand in tests/parse.rs). */
  function Canonical(items: seq<Item>): seq<byte>
    requires Guids(items)
  {
    Entries(items, 24 * |items| + 24) + Zeros(24) + Bodies(items)
  }

  function Offset(items: seq<Item>, k: nat): nat
    requires k <= |items|
  {
    |Bodies(items[..k])|
  }

  lemma BehindFirst(head: seq<byte>, rest: seq<byte>, k: nat)
    requires |head| == 24 && k > 0 && 24 * k <= |rest|
    ensures (head + rest)[24 * k..24 * k + 24] == rest[24 * (k - 1)..24 * (k - 1) + 24]
  {
    SliceOfSlice(head + rest, 24, |rest|, 24 * (k - 1), 24 * (k - 1) + 24);
    assert (head + rest)[24..24 + |rest|] == rest;
  }

  lemma {:induction false} EntryAt(items: seq<Item>, start: nat, k: nat)
    requires Guids(items) && k < |items|
    ensures Entries(items, start)[24 * k..24 * k + 24] == EntryBytes(items[k], start + Offset(items, k))
  {
    var s := Entries(items, start);
    if k == 0 {
      assert items[..0] == [];
      assert s[..24] == EntryBytes(items[0], start);
    } else {
      var rest := Entries(items[1..], start + |items[0].body|);
      EntryAt(items[1..], start + |items[0].body|, k - 1);
      BehindFirst(EntryBytes(items[0], start), rest, k);
      assert items[..k][1..] == items[1..][..k - 1];
    }
  }

  lemma {:induction false} BodyAt(items: seq<Item>, k: nat)
    requires k < |items|
    ensures Offset(items, k) + |items[k].body| <= |Bodies(items)|
    ensures Bodies(items)[Offset(items, k)..Offset(items, k) + |items[k].body|] == items[k].body
  {
    if k == 0 {
      assert items[..0] == [];
    } else {
      BodyAt(items[1..], k - 1);
      assert items[..k][1..] == items[1..][..k - 1];
      var head, tail := items[0].body, Bodies(items[1..]);
      var at, n := Offset(items[1..], k - 1), |items[k].body|;
      assert (head + tail)[|head| + at..|head| + at + n] == tail[at..at + n];
    }
  }

  /** A slot holding a nonzero start reads back as the entry that was written. */
  lemma SlotOfEntryBytes(blob: seq<byte>, k: nat, item: Item, start: u32)
    requires 24 * k + 24 <= |blob| && |item.guid| == 16 && |item.body| < 0x1_0000_0000 && start > 0
    requires blob[24 * k..24 * k + 24] == EntryBytes(item, start)
    ensures SlotAt(blob, k) == Entry(item.guid, start, |item.body|)
  {
    var e, n := EntryBytes(item, start), |item.body|;
    SliceOfSlice(blob, 24 * k, 24, 0, 16);
    SliceOfSlice(blob, 24 * k, 24, 16, 20);
    SliceOfSlice(blob, 24 * k, 24, 20, 24);
    assert e[0..16] == item.guid;
    assert e[16..20] == LeBytes(start, 4);
    assert e[20..24] == LeBytes(n, 4);
    Widths();
    LeValueOfBytes(start, 4);
    LeValueOfBytes(n, 4);
  }

  lemma CanonicalBody(items: seq<Item>, k: nat)
    requires Guids(items) && k < |items|
    ensures var start := 24 * |items| + 24 + Offset(items, k);
            && start + |items[k].body| <= |Canonical(items)|
            && Canonical(items)[start..start + |items[k].body|] == items[k].body
  {
    BodyAt(items, k);
    var head := Entries(items, 24 * |items| + 24) + Zeros(24);
    var at, n := Offset(items, k), |items[k].body|;
    assert (head + Bodies(items))[|head| + at..|head| + at + n] == Bodies(items)[at..at + n];
  }

  lemma CanonicalSlot(items: seq<Item>, k: nat)
    requires Guids(items) && |Canonical(items)| <= BLOB_MAX && k < |items|
    ensures Readable(Canonical(items), k)
    ensures CertAt(Canonical(items), k) == Certificate(FromGuid(items[k].guid), items[k].guid, items[k].body)
  {
    var base := 24 * |items| + 24;
    EntryAt(items, base, k);
    CanonicalBody(items, k);
    var table := Entries(items, base);
    assert Canonical(items) == table + (Zeros(24) + Bodies(items));
    SlicePrefix(table, Zeros(24) + Bodies(items), 24 * k, 24 * k + 24);
    SlotOfEntryBytes(Canonical(items), k, items[k], base + Offset(items, k));
  }

  lemma SlotOfZeros(blob: seq<byte>, k: nat)
    requires 24 * k + 24 <= |blob| && blob[24 * k..24 * k + 24] == Zeros(24)
    ensures SlotAt(blob, k) == Terminator
  {
    SliceOfSlice(blob, 24 * k, 24, 0, 16);
    SliceOfSlice(blob, 24 * k, 24, 16, 20);
    SliceOfSlice(blob, 24 * k, 24, 20, 24);
    assert Zeros(24)[0..16] == Zeros(16);
    assert Zeros(24)[16..20] == Zeros(24)[20..24] == Zeros(4);
    LeValueZero(Zeros(4));
  }

  lemma CanonicalEnd(items: seq<Item>)
    requires Guids(items)
    ensures SlotAt(Canonical(items), |items|) == Terminator
  {
    var blob, k := Canonical(items), |items|;
    assert blob[24 * k..24 * k + 24] == Zeros(24);
    SlotOfZeros(blob, k);
  }

  function TableOf(items: seq<Item>): CertTable {
    CertTable(seq(|items|, i requires 0 <= i < |items| =>
      Certificate(FromGuid(items[i].guid), items[i].guid, items[i].body)))
  }

  lemma ChainIs(blob: seq<byte>, entries: seq<Certificate>)
    requires AllReadable(blob, 0, |entries|)
    requires forall k :: 0 <= k < |entries| ==> CertAt(blob, k) == entries[k]
    ensures Chain(blob, 0, |entries|) == entries
  {
    forall i | 0 <= i < |entries|
      ensures Chain(blob, 0, |entries|)[i] == entries[i]
    {
      assert CertAt(blob, 0 + i) == entries[i];
    }
  }

  /** Any list of at most fifteen entries that fits comes back exactly, zero guids and empty
      bodies included; a longer list is refused for its entry count, however small it is. */
  lemma CanonicalRoundTrip(items: seq<Item>)
    requires Guids(items) && |Canonical(items)| <= BLOB_MAX
    ensures |items| <= 15 ==> Decode(Canonical(items)) == Ok(TableOf(items))
    ensures |items| > 15 ==> Decode(Canonical(items)) == Err(Parse(CertTableTooLarge("entry count", 16)))
  {
    var blob := Canonical(items);
    forall k | 0 <= k < |items|
      ensures Readable(blob, k) && CertAt(blob, k) == TableOf(items).entries[k]
    {
      CanonicalSlot(items, k);
    }
    CanonicalEnd(items);
    if |items| <= 15 {
      DecodeIsSettledByTheStop(blob, |items|);
      ChainIs(blob, TableOf(items).entries);
    } else {
      DecodeIsSettledByTheStop(blob, 16);
    }
  }

  function ItemsOf(table: CertTable): (items: seq<Item>)
    ensures |items| == |table.entries|
  {
    seq(|table.entries|, i requires 0 <= i < |table.entries| =>
      Item(table.entries[i].guid, table.entries[i].data))
  }

  /** Re-encoding a decoded table canonically and decoding again changes nothing. */
  lemma ReencodingIsStable(blob: seq<byte>)
    requires Decode(blob).Ok?
    ensures Guids(ItemsOf(Decode(blob).value))
    ensures |Canonical(ItemsOf(Decode(blob).value))| <= BLOB_MAX ==>
              Decode(Canonical(ItemsOf(Decode(blob).value))) == Decode(blob)
  {
    var table := Decode(blob).value;
    var items := ItemsOf(table);
    forall i | 0 <= i < |items|
      ensures |items[i].guid| == 16 && table.entries[i].kind == FromGuid(items[i].guid)
    {
      EntriesAreExactSlices(blob, i);
    }
    if |Canonical(items)| <= BLOB_MAX {
      DecodedFormIsBounded(blob);
      CanonicalRoundTrip(items);
      assert TableOf(items).entries == table.entries;
    }
  }

  // ----- Lookup -----

  function Find(entries: seq<Certificate>, kind: CertKind): Option<Certificate> {
    if entries == [] then None
    else if entries[0].kind == kind then Some(entries[0])
    else Find(entries[1..], kind)
  }

  /** `CertTable::get` */
  function Get(table: CertTable, kind: CertKind): Option<Certificate> {
    Find(table.entries, kind)
  }

  lemma {:induction false} FindIsFirst(entries: seq<Certificate>, kind: CertKind, i: nat)
    requires i < |entries| && entries[i].kind == kind
    requires forall j :: 0 <= j < i ==> entries[j].kind != kind
    ensures Find(entries, kind) == Some(entries[i])
  {
    if i > 0 {
      FindIsFirst(entries[1..], kind, i - 1);
    }
  }

  lemma {:induction false} FindMisses(entries: seq<Certificate>, kind: CertKind)
    requires forall j :: 0 <= j < |entries| ==> entries[j].kind != kind
    ensures Find(entries, kind) == None
  {
    if entries != [] {
      FindMisses(entries[1..], kind);
    }
  }

  /** The first entry that carries a guid is at position i. */
  predicate FirstWithGuid(entries: seq<Certificate>, guid: seq<byte>, i: nat) {
    && i < |entries| && entries[i].guid == guid
    && forall j :: 0 <= j < i ==> entries[j].guid != guid
  }

  lemma {:induction false} FirstExists(entries: seq<Certificate>, guid: seq<byte>, i: nat)
    requires i < |entries| && entries[i].guid == guid
    ensures exists k: nat :: FirstWithGuid(entries, guid, k)
    decreases i
  {
    if j: nat :| j < i && entries[j].guid == guid {
      FirstExists(entries, guid, j);
    } else {
      assert FirstWithGuid(entries, guid, i);
    }
  }

  lemma DecodedKinds(blob: seq<byte>)
    requires Decode(blob).Ok?
    ensures forall j :: 0 <= j < |Decode(blob).value.entries| ==>
              var e := Decode(blob).value.entries[j]; |e.guid| == 16 && e.kind == FromGuid(e.guid)
  {
    forall j | 0 <= j < |Decode(blob).value.entries|
      ensures var e := Decode(blob).value.entries[j]; |e.guid| == 16 && e.kind == FromGuid(e.guid)
    {
      EntriesAreExactSlices(blob, j);
    }
  }

  ghost predicate Located(entries: seq<Certificate>, guid: seq<byte>, found: Option<Certificate>) {
    && (found == None <==> forall j :: 0 <= j < |entries| ==> entries[j].guid != guid)
    && (forall i: nat :: FirstWithGuid(entries, guid, i) ==> found == Some(entries[i]))
  }

  lemma FindLocates(entries: seq<Certificate>, kind: CertKind, guid: seq<byte>)
    requires forall j :: 0 <= j < |entries| ==> (entries[j].kind == kind <==> entries[j].guid == guid)
    ensures Located(entries, guid, Find(entries, kind))
  {
    forall i: nat | FirstWithGuid(entries, guid, i)
      ensures Find(entries, kind) == Some(entries[i])
    {
      FindIsFirst(entries, kind, i);
    }
    if i: nat :| i < |entries| && entries[i].guid == guid {
      FirstExists(entries, guid, i);
    } else {
      FindMisses(entries, kind);
    }
  }

  /** Looking a named kind up in any accepted table finds the first entry that carries, byte
      for byte, the guid defined for that kind, and nothing exactly when no entry carries it. */
  lemma LookupIsExact(blob: seq<byte>, kind: CertKind, guid: seq<byte>)
    requires Decode(blob).Ok? && kind != Unknown && guid == GuidOf(kind)
    ensures Located(Decode(blob).value.entries, guid, Get(Decode(blob).value, kind))
  {
    var entries := Decode(blob).value.entries;
    DecodedKinds(blob);
    forall j | 0 <= j < |entries|
      ensures entries[j].kind == kind <==> entries[j].guid == guid
    {
      KindNamesItsGuid(entries[j].guid, kind);
    }
    FindLocates(entries, kind, guid);
  }

  /** In the canonical encoding of a chain that is the first item carrying the kind's guid,
      with its body. */
  lemma LookupInCanonical(items: seq<Item>, kind: CertKind, guid: seq<byte>, i: nat)
    requires Guids(items) && |items| <= 15 && |Canonical(items)| <= BLOB_MAX
    requires kind != Unknown && guid == GuidOf(kind)
    requires i < |items| && items[i].guid == guid && forall j :: 0 <= j < i ==> items[j].guid != guid
    ensures Decode(Canonical(items)).Ok?
    ensures Get(Decode(Canonical(items)).value, kind) == Some(Certificate(kind, guid, items[i].body))
  {
    CanonicalRoundTrip(items);
    LookupIsExact(Canonical(items), kind, guid);
    assert FirstWithGuid(TableOf(items).entries, guid, i);
    KindNamesItsGuid(guid, kind);
  }
}
