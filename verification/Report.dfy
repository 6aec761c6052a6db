/** The attestation report (src/report.rs): its field map, its parser, the decoded view of
    it, and the conversion of its signature numbers. */
module Report {
  import opened Bytes
  import opened Errors
  import opened Tcb

  const SIZE := 0x4A0
  const SIGNED_LEN := 0x2A0
  const MIN_VERSION := 2
  const MAX_VERSION := 16

  // ----- The field map of section 7.3 of the SEV-SNP firmware ABI -----

  datatype FieldName =
    | Version | GuestSvn | Policy | FamilyId | ImageId | Vmpl | SignatureAlgorithm | CurrentTcb
    | PlatformInfo | SignerInfo | ReportData | Measurement | HostData | IdKeyDigest
    | AuthorKeyDigest | ReportId | ReportIdMa | ReportedTcb | CpuidFms | ChipId | CommittedTcb
    | CurrentFirmware | CommittedFirmware | LaunchTcb | LaunchMitVector | CurrentMitVector
    | Signature | SignatureR | SignatureS

  function OffsetOf(f: FieldName): nat {
    match f
    case Version => 0x00
    case GuestSvn => 0x04
    case Policy => 0x08
    case FamilyId => 0x10
    case ImageId => 0x20
    case Vmpl => 0x30
    case SignatureAlgorithm => 0x34
    case CurrentTcb => 0x38
    case PlatformInfo => 0x40
    case SignerInfo => 0x48
    case ReportData => 0x50
    case Measurement => 0x90
    case HostData => 0xC0
    case IdKeyDigest => 0xE0
    case AuthorKeyDigest => 0x110
    case ReportId => 0x140
    case ReportIdMa => 0x160
    case ReportedTcb => 0x180
    case CpuidFms => 0x188
    case ChipId => 0x1A0
    case CommittedTcb => 0x1E0
    case CurrentFirmware => 0x1E8
    case CommittedFirmware => 0x1EC
    case LaunchTcb => 0x1F0
    case LaunchMitVector => 0x1F8
    case CurrentMitVector => 0x200
    case Signature => 0x2A0
    case SignatureR => 0x2A0
    case SignatureS => 0x2E8
  }

  function LengthOf(f: FieldName): nat {
    match f
    case Version | GuestSvn | Vmpl | SignatureAlgorithm | SignerInfo => 4
    case Policy | CurrentTcb | PlatformInfo | ReportedTcb | CommittedTcb | LaunchTcb
       | LaunchMitVector | CurrentMitVector => 8
    case FamilyId | ImageId => 16
    case HostData | ReportId | ReportIdMa => 32
    case Measurement | IdKeyDigest | AuthorKeyDigest => 48
    case ReportData | ChipId => 64
    case CpuidFms | CurrentFirmware | CommittedFirmware => 3
    case Signature => 512
    case SignatureR | SignatureS => 72
  }

  predicate IsSignatureField(f: FieldName) {
    f.Signature? || f.SignatureR? || f.SignatureS?
  }

  /** Every field lies inside the report; exactly the signature fields lie outside the signed
      part; and no two fields overlap, except that r and s are parts of the signature. */
  lemma FieldMapIsSound(f: FieldName, g: FieldName)
    ensures OffsetOf(f) + LengthOf(f) <= SIZE
    ensures if IsSignatureField(f) then OffsetOf(f) >= SIGNED_LEN else OffsetOf(f) + LengthOf(f) <= SIGNED_LEN
    ensures f != g && (IsSignatureField(f) && IsSignatureField(g) ==> !f.Signature? && !g.Signature?) ==>
              OffsetOf(f) + LengthOf(f) <= OffsetOf(g) || OffsetOf(g) + LengthOf(g) <= OffsetOf(f)
  {
    FieldBounds(f);
    FieldBounds(g);
    if !f.Signature? && !g.Signature? && f != g {
      FieldsAreApart(f, g);
    }
  }

  lemma FieldsAreApart(f: FieldName, g: FieldName)
    requires !f.Signature? && !g.Signature? && f != g
    ensures OffsetOf(f) + LengthOf(f) <= OffsetOf(g) || OffsetOf(g) + LengthOf(g) <= OffsetOf(f)
  {
    if OrderOf(f) == OrderOf(g) {
      OrderIsInjective(f, g);
    } else if OrderOf(f) < OrderOf(g) {
      FieldsAreOrdered(f, g);
    } else {
      FieldsAreOrdered(g, f);
    }
  }

  /** Position of a field in the layout, the whole signature counted as its first part. */
  function OrderOf(f: FieldName): nat {
    match f
    case Version => 0
    case GuestSvn => 1
    case Policy => 2
    case FamilyId => 3
    case ImageId => 4
    case Vmpl => 5
    case SignatureAlgorithm => 6
    case CurrentTcb => 7
    case PlatformInfo => 8
    case SignerInfo => 9
    case ReportData => 10
    case Measurement => 11
    case HostData => 12
    case IdKeyDigest => 13
    case AuthorKeyDigest => 14
    case ReportId => 15
    case ReportIdMa => 16
    case ReportedTcb => 17
    case CpuidFms => 18
    case ChipId => 19
    case CommittedTcb => 20
    case CurrentFirmware => 21
    case CommittedFirmware => 22
    case LaunchTcb => 23
    case LaunchMitVector => 24
    case CurrentMitVector => 25
    case Signature | SignatureR => 26
    case SignatureS => 27
  }

  lemma FieldBounds(f: FieldName)
    ensures OffsetOf(f) + LengthOf(f) <= SIZE
    ensures if IsSignatureField(f) then OffsetOf(f) >= SIGNED_LEN else OffsetOf(f) + LengthOf(f) <= SIGNED_LEN
  {
  }

  lemma FieldsAreOrdered(f: FieldName, g: FieldName)
    requires OrderOf(f) < OrderOf(g) && (f.Signature? ==> !g.SignatureS?)
    ensures OffsetOf(f) + LengthOf(f) <= OffsetOf(g)
  {
  }

  // ----- Reports and their fields -----

  /** `split_at_checked(offset)` then `first_chunk::<n>()`, falling back to zeros. */
  function RawField(raw: seq<byte>, offset: nat, n: nat): (s: seq<byte>)
    ensures |s| == n
  {
    if offset + n <= |raw| then raw[offset..offset + n] else Zeros(n)
  }

  datatype AttestationReport = AttestationReport(raw: seq<byte>) {
    function Get(f: FieldName): (s: seq<byte>)
      ensures |s| == LengthOf(f)
    {
      RawField(raw, OffsetOf(f), LengthOf(f))
    }

    function U32(f: FieldName): u32
      requires LengthOf(f) == 4
    {
      LeU32(Get(f))
    }

    function U64(f: FieldName): u64
      requires LengthOf(f) == 8
    {
      LeU64(Get(f))
    }

    function SignedBytes(): seq<byte> {
      if SIGNED_LEN <= |raw| then raw[..SIGNED_LEN] else raw
    }
  }

  predicate WellFormed(r: AttestationReport) {
    && |r.raw| == 0x4A0
    && 2 <= r.U32(Version) <= 16
  }

  /** `AttestationReport::parse` */
  function ParseReport(bytes: seq<byte>): Result<AttestationReport> {
    match BytesAt(bytes, 0, SIZE)
    case None => Err(Parse(TooShort("attestation report", SIZE, |bytes|)))
    case Some(raw) =>
      var report := AttestationReport(raw);
      var version := report.U32(Version);
      if MIN_VERSION <= version <= MAX_VERSION then Ok(report)
      else Err(Parse(UnsupportedReportVersion(version)))
  }

  /** Exactly the buffers that begin with a well-formed report are accepted, whatever follows
      it; the bytes it keeps are the buffer's first ones, untouched. */
  lemma ParseAcceptsExactlyReports(bytes: seq<byte>, report: AttestationReport)
    ensures ParseReport(bytes) == Ok(report) <==> WellFormed(report) && report.raw <= bytes
  {
    if WellFormed(report) && report.raw <= bytes {
      assert bytes[0..SIZE] == report.raw;
    }
  }

  /** On a parsed report no field read falls back to zeros, and signed bytes and signature
      together are the whole report. */
  lemma ReportIsSignedPartThenSignature(report: AttestationReport, f: FieldName)
    requires WellFormed(report)
    ensures OffsetOf(f) + LengthOf(f) <= |report.raw|
    ensures report.Get(f) == report.raw[OffsetOf(f)..OffsetOf(f) + LengthOf(f)]
    ensures report.SignedBytes() + report.Get(Signature) == report.raw
    ensures |report.SignedBytes()| == SIGNED_LEN
    ensures report.Get(SignatureR) + report.Get(SignatureS) == report.Get(Signature)[..144]
  {
    FieldBounds(f);
    var raw := report.raw;
    assert raw[SIGNED_LEN..SIZE] == raw[SIGNED_LEN..];
    assert raw[..SIGNED_LEN] + raw[SIGNED_LEN..] == raw;
    assert raw[0x2A0..0x2E8] + raw[0x2E8..0x330] == raw[SIGNED_LEN..SIZE][..144];
  }

  // ----- Assembling a report in the order of the standard -----

  /** The field that comes next; the two numbers stand for the whole signature. */
  function FieldAfter(f: FieldName): FieldName {
    match f
    case Version => GuestSvn
    case GuestSvn => Policy
    case Policy => FamilyId
    case FamilyId => ImageId
    case ImageId => Vmpl
    case Vmpl => SignatureAlgorithm
    case SignatureAlgorithm => CurrentTcb
    case CurrentTcb => PlatformInfo
    case PlatformInfo => SignerInfo
    case SignerInfo => ReportData
    case ReportData => Measurement
    case Measurement => HostData
    case HostData => IdKeyDigest
    case IdKeyDigest => AuthorKeyDigest
    case AuthorKeyDigest => ReportId
    case ReportId => ReportIdMa
    case ReportIdMa => ReportedTcb
    case ReportedTcb => CpuidFms
    case CpuidFms => ChipId
    case ChipId => CommittedTcb
    case CommittedTcb => CurrentFirmware
    case CurrentFirmware => CommittedFirmware
    case CommittedFirmware => LaunchTcb
    case LaunchTcb => LaunchMitVector
    case LaunchMitVector => CurrentMitVector
    case CurrentMitVector => SignatureR
    case Signature | SignatureR | SignatureS => SignatureS
  }

  /** Reserved bytes between a field and the next, or the end of the report. */
  function GapAfter(f: FieldName): nat {
    match f
    case SignerInfo => 4
    case CpuidFms => 21
    case CurrentFirmware | CommittedFirmware => 1
    case CurrentMitVector => 152
    case SignatureS => 368
    case _ => 0
  }

  /** One field and the reserved bytes after it. */
  datatype Piece = Piece(name: FieldName, value: seq<byte>, gap: seq<byte>)

  predicate Sized(piece: Piece) {
    |piece.value| == LengthOf(piece.name) && |piece.gap| == GapAfter(piece.name)
  }

  predicate Adjacent(f: FieldName, g: FieldName) {
    f != SignatureS && g == FieldAfter(f)
  }

  predicate InOrder(p: seq<Piece>) {
    && p != [] && p[0].name == Version && p[|p| - 1].name == SignatureS
    && (forall k :: 0 <= k < |p| - 1 ==> Adjacent(p[k].name, p[k + 1].name))
  }

  /** All fields in order, with any values and any reserved bytes of the right widths. */
  predicate Pieces(p: seq<Piece>) {
    InOrder(p) && forall k :: 0 <= k < |p| ==> Sized(p[k])
  }

  function Assemble(p: seq<Piece>): seq<byte> {
    if p == [] then []
    else
      var last := p[|p| - 1];
      Assemble(p[..|p| - 1]) + last.value + last.gap
  }

  /** The field map leaves no hole and no overlap beside the reserved bytes. */
  lemma FieldsFollowEachOther(f: FieldName)
    requires !f.Signature?
    ensures OffsetOf(f) + LengthOf(f) + GapAfter(f) == if f.SignatureS? then SIZE else OffsetOf(FieldAfter(f))
    ensures !f.SignatureS? ==> OrderOf(FieldAfter(f)) == OrderOf(f) + 1 && !FieldAfter(f).Signature?
  {
  }

  lemma {:induction false} Position(p: seq<Piece>, k: nat)
    requires InOrder(p) && k < |p|
    ensures OrderOf(p[k].name) == k && !p[k].name.Signature?
  {
    if k > 0 {
      Position(p, k - 1);
      assert Adjacent(p[k - 1].name, p[k].name);
      FieldsFollowEachOther(p[k - 1].name);
    }
  }

  lemma {:induction false} AssembledUpTo(p: seq<Piece>, k: nat)
    requires Pieces(p) && k < |p|
    ensures |Assemble(p[..k])| == OffsetOf(p[k].name)
  {
    if k > 0 {
      AssembledUpTo(p, k - 1);
      Position(p, k - 1);
      assert Sized(p[k - 1]) && Adjacent(p[k - 1].name, p[k].name);
      FieldsFollowEachOther(p[k - 1].name);
      assert p[..k][..k - 1] == p[..k - 1];
    }
  }

  lemma {:induction false} AssembledPrefix(p: seq<Piece>, j: nat, k: nat)
    requires j <= k <= |p|
    ensures Assemble(p[..j]) <= Assemble(p[..k])
  {
    if j < k {
      AssembledPrefix(p, j, k - 1);
      assert p[..k][..k - 1] == p[..k - 1];
    }
  }

  lemma AssembledSize(p: seq<Piece>)
    requires Pieces(p)
    ensures |Assemble(p)| == SIZE
  {
    AssembledUpTo(p, |p| - 1);
    assert Sized(p[|p| - 1]);
  }

  lemma OrderIsInjective(f: FieldName, g: FieldName)
    requires !f.Signature? && !g.Signature? && OrderOf(f) == OrderOf(g)
    ensures f == g
  {
  }

  lemma EveryFieldHasItsPlace(p: seq<Piece>, f: FieldName)
    requires InOrder(p) && !f.Signature?
    ensures OrderOf(f) < |p| && p[OrderOf(f)].name == f
  {
    Position(p, |p| - 1);
    OrderIsAtMost(f);
    Position(p, OrderOf(f));
    OrderIsInjective(f, p[OrderOf(f)].name);
  }

  lemma OrderIsAtMost(f: FieldName)
    ensures OrderOf(f) <= OrderOf(SignatureS)
  {
  }

  /** A report put together from the widths alone, any reserved bytes included, reads back
      field by field: every offset is the sum of what precedes it. */
  lemma AssembledReadsBack(p: seq<Piece>, f: FieldName)
    requires Pieces(p) && !f.Signature?
    ensures |Assemble(p)| == SIZE
    ensures OrderOf(f) < |p| && p[OrderOf(f)].name == f
    ensures AttestationReport(Assemble(p)).Get(f) == p[OrderOf(f)].value
  {
    EveryFieldHasItsPlace(p, f);
    ReadsBackAt(p, OrderOf(f));
  }

  lemma ReadsBackAt(p: seq<Piece>, k: nat)
    requires Pieces(p) && k < |p|
    ensures |Assemble(p)| == SIZE
    ensures AttestationReport(Assemble(p)).Get(p[k].name) == p[k].value
  {
    AssembledSize(p);
    AssembledUpTo(p, k);
    assert Sized(p[k]);
    PieceIsInPlace(p, k, OffsetOf(p[k].name), LengthOf(p[k].name));
  }

  lemma PieceIsInPlace(p: seq<Piece>, k: nat, at: nat, n: nat)
    requires k < |p| && at == |Assemble(p[..k])| && n == |p[k].value|
    ensures at + n <= |Assemble(p)| && Assemble(p)[at..at + n] == p[k].value
  {
    var past := Assemble(p[..k + 1]);
    assert p[..|p|] == p;
    AssembledPrefix(p, k + 1, |p|);
    assert p[..k + 1][..k] == p[..k];
    assert past == Assemble(p[..k]) + p[k].value + p[k].gap;
    assert Assemble(p)[at..at + n] == past[at..at + n] == p[k].value;
  }

  /** Parsing what was assembled yields it exactly when its version is supported, whatever
      bytes follow. */
  lemma AssembledParses(p: seq<Piece>, rest: seq<byte>)
    requires Pieces(p)
    ensures 2 <= LeValue(p[0].value) <= 16 <==>
            ParseReport(Assemble(p) + rest) == Ok(AttestationReport(Assemble(p)))
  {
    AssembledReadsBack(p, Version);
    ParseAcceptsExactlyReports(Assemble(p) + rest, AttestationReport(Assemble(p)));
  }

  // ----- The decoded view -----

  datatype SignatureAlgo = NoAlgo | EcdsaP384Sha384 | UnknownAlgo(raw: u32)

  function AlgoFromRaw(raw: u32): SignatureAlgo {
    if raw == 0 then NoAlgo else if raw == 1 then EcdsaP384Sha384 else UnknownAlgo(raw)
  }

  datatype FirmwareVersion = FirmwareVersion(major: byte, minor: byte, build: byte)

  function FirmwareVersionOf(b: seq<byte>): FirmwareVersion
    requires |b| == 3
  {
    FirmwareVersion(b[2], b[1], b[0])
  }

  /** The derived order: major first, then minor, then build. */
  predicate OlderFirmware(v: FirmwareVersion, w: FirmwareVersion) {
    if v.major != w.major then v.major < w.major
    else if v.minor != w.minor then v.minor < w.minor
    else v.build < w.build
  }

  /** The order of decoded versions is the order of the numbers in the report. */
  lemma FirmwareOrderIsNumeric(a: seq<byte>, b: seq<byte>)
    requires |a| == |b| == 3
    ensures OlderFirmware(FirmwareVersionOf(a), FirmwareVersionOf(b)) <==> LeValue(a) < LeValue(b)
  {
    ReadingOfThree(a);
    ReadingOfThree(b);
  }

  lemma ReadingOfThree(s: seq<byte>)
    requires |s| == 3
    ensures LeValue(s) == Reading(s[0], s[1], s[2], 0)
  {
    assert LeValue(s[1..]) == s[1] + 0x100 * LeValue(s[1..][1..]);
    assert LeValue(s[1..][1..]) == s[2];
  }

  /** What an accessor answers: a number, a block of bytes, or a small structure. */
  datatype FieldValue =
    | Word(v: nat)
    | Block(bytes: seq<byte>)
    | Algo(algo: SignatureAlgo)
    | VersionTriple(firmware: FirmwareVersion)
    | CpuTriple(fms: Fms)

  /** Whether a report of this version has the field at all. */
  predicate Present(version: u32, f: FieldName) {
    && (f.CpuidFms? ==> version >= 3)
    && (f.LaunchMitVector? || f.CurrentMitVector? ==> version >= 5)
  }

  function Interpret(f: FieldName, b: seq<byte>): FieldValue
    requires |b| == LengthOf(f)
  {
    if f.SignatureAlgorithm? then Algo(AlgoFromRaw(LeU32(b)))
    else if f.CpuidFms? then CpuTriple(Fms(b[0], b[1], b[2]))
    else if |b| == 3 then VersionTriple(FirmwareVersionOf(b))
    else if |b| == 4 || |b| == 8 then Word(LeValue(b))
    else Block(b)
  }

  /** The accessor named after the field. */
  function Read(r: AttestationReport, f: FieldName): Option<FieldValue> {
    if Present(r.U32(Version), f) then Some(Interpret(f, r.Get(f))) else None
  }

  /** `product` */
  function ProductOf(r: AttestationReport): Option<Product> {
    match Read(r, CpuidFms)
    case None => None
    case Some(answer) => Some(FromFms(answer.fms))
  }

  /** `reported_tcb_parts` */
  function ReportedTcbParts(r: AttestationReport): Option<TcbParts> {
    match ProductOf(r)
    case None => None
    case Some(p) => Some(DecodeTcb(r.U64(ReportedTcb), p))
  }

  /** The two components as they are in the report, little-endian and padded. */
  datatype EcdsaP384Signature = EcdsaP384Signature(r: seq<byte>, s: seq<byte>) {
    function RBe(): seq<byte>
      requires |r| == 72
    {
      Be48(r)
    }

    function SBe(): seq<byte>
      requires |s| == 72
    {
      Be48(s)
    }
  }

  /** `ecdsa_signature` */
  function EcdsaSignature(r: AttestationReport): Option<EcdsaP384Signature> {
    if Read(r, SignatureAlgorithm) == Some(Algo(EcdsaP384Sha384))
    then Some(EcdsaP384Signature(r.Get(SignatureR), r.Get(SignatureS)))
    else None
  }

  lemma InterpretIsFaithful(f: FieldName, a: seq<byte>, b: seq<byte>)
    requires |a| == |b| == LengthOf(f)
    ensures Interpret(f, a) == Interpret(f, b) <==> a == b
  {
    if Interpret(f, a) == Interpret(f, b) {
      if |a| == 3 {
        assert a == [a[0], a[1], a[2]] && b == [b[0], b[1], b[2]];
      } else if |a| == 4 || |a| == 8 {
        LeValueInjective(a, b);
      }
    }
  }

  /** An accessor answers the same on two reports of one version exactly when the field's
      bytes agree or the version hides them: decoding loses nothing and invents nothing. */
  lemma ReadIsTheFieldsBytes(a: AttestationReport, b: AttestationReport, f: FieldName)
    requires a.U32(Version) == b.U32(Version)
    ensures Read(a, f) == Read(b, f) <==> a.Get(f) == b.Get(f) || !Present(a.U32(Version), f)
  {
    InterpretIsFaithful(f, a.Get(f), b.Get(f));
  }

  lemma SignedBytesFixFields(a: AttestationReport, b: AttestationReport, f: FieldName)
    requires WellFormed(a) && WellFormed(b) && a.SignedBytes() == b.SignedBytes() && !IsSignatureField(f)
    ensures a.Get(f) == b.Get(f)
  {
    FieldBounds(f);
    var at, n := OffsetOf(f), LengthOf(f);
    assert a.raw == a.SignedBytes() + a.raw[SIGNED_LEN..];
    assert b.raw == b.SignedBytes() + b.raw[SIGNED_LEN..];
    SlicePrefix(a.SignedBytes(), a.raw[SIGNED_LEN..], at, at + n);
    SlicePrefix(b.SignedBytes(), b.raw[SIGNED_LEN..], at, at + n);
  }

  /** What the signature covers determines every accessor outside it, the version-gated ones
      and the product-dependent TCB split included, and whether the signature is read as ECDSA. */
  lemma SignedBytesDetermineTheView(a: AttestationReport, b: AttestationReport)
    requires WellFormed(a) && WellFormed(b) && a.SignedBytes() == b.SignedBytes()
    ensures forall f :: !IsSignatureField(f) ==> Read(a, f) == Read(b, f)
    ensures ProductOf(a) == ProductOf(b)
    ensures ReportedTcbParts(a) == ReportedTcbParts(b)
    ensures EcdsaSignature(a).Some? == EcdsaSignature(b).Some?
  {
    SignedBytesFixFields(a, b, Version);
    forall f | !IsSignatureField(f)
      ensures Read(a, f) == Read(b, f)
    {
      SignedBytesFixFields(a, b, f);
      ReadIsTheFieldsBytes(a, b, f);
    }
    SignedBytesFixFields(a, b, ReportedTcb);
    assert Read(a, CpuidFms) == Read(b, CpuidFms);
    assert Read(a, SignatureAlgorithm) == Read(b, SignatureAlgorithm);
  }

  /** Which accessors a report has and what each answers, for any report put together from field
      values: numbers as written, structures byte by byte, everything else untouched. */
  lemma AssembledAccessors(p: seq<Piece>, f: FieldName, version: u32)
    requires Pieces(p) && !f.Signature? && LeValue(p[0].value) == version
    ensures OrderOf(f) < |p|
    ensures var value, read := p[OrderOf(f)].value, Read(AttestationReport(Assemble(p)), f);
            && |value| == LengthOf(f)
            && (read == None <==>
                  (f == CpuidFms && version < 3) || (f in {LaunchMitVector, CurrentMitVector} && version < 5))
            && (read.Some? ==> AnswersAsWritten(f, value, read.value))
  {
    AssembledReadsBack(p, Version);
    AssembledReadsBack(p, f);
    InterpretsAsWritten(f, AttestationReport(Assemble(p)).Get(f));
    OnlyThreeAreGated(version, f);
  }

  lemma OnlyThreeAreGated(version: u32, f: FieldName)
    ensures !Present(version, f) <==>
            (f == CpuidFms && version < 3) || (f in {LaunchMitVector, CurrentMitVector} && version < 5)
  {
  }

  lemma InterpretsAsWritten(f: FieldName, value: seq<byte>)
    requires |value| == LengthOf(f)
    ensures AnswersAsWritten(f, value, Interpret(f, value))
  {
    if (|value| == 4 || |value| == 8) && !f.SignatureAlgorithm? {
      forall v: nat | v < Pow256(|value|) && value == LeBytes(v, |value|)
        ensures Interpret(f, value) == Word(v)
      {
        LeValueOfBytes(v, |value|);
      }
    }
  }

  /** The answer of an accessor against the bytes that were written. */
  predicate AnswersAsWritten(f: FieldName, value: seq<byte>, answer: FieldValue) {
    match f
    case SignatureAlgorithm =>
      (answer == Algo(NoAlgo) <==> LeValue(value) == 0) && (answer == Algo(EcdsaP384Sha384) <==> LeValue(value) == 1)
    case CpuidFms => |value| == 3 && answer == CpuTriple(Fms(value[0], value[1], value[2]))
    case CurrentFirmware | CommittedFirmware =>
      |value| == 3 && answer == VersionTriple(FirmwareVersion(value[2], value[1], value[0]))
    case _ =>
      if |value| == 4 || |value| == 8
      then forall v: nat :: v < Pow256(|value|) && value == LeBytes(v, |value|) ==> answer == Word(v)
      else answer == Block(value)
  }

  /** The TCB split of a report follows its own CPUID family and nothing else. */
  lemma SplitFollowsCpuidFamily(r: AttestationReport)
    ensures ReportedTcbParts(r).None? <==> r.U32(Version) < 3
    ensures ReportedTcbParts(r).Some? ==>
              (ReportedTcbParts(r).value.fmc.Some? <==> r.Get(CpuidFms)[0] >= 0x1A)
  {
    if r.U32(Version) >= 3 {
      var b := r.Get(CpuidFms);
      LayoutFollowsFamily(Fms(b[0], b[1], b[2]));
    }
  }

  /** Where the split reads its parts, byte by byte, on either layout. */
  lemma SplitReadsTheReport(r: AttestationReport)
    requires WellFormed(r) && LeValue(r.raw[0x00..0x04]) >= 3
    ensures ReportedTcbParts(r) ==
            if r.raw[0x188] >= 0x1A
            then Some(TcbParts(Some(r.raw[0x180]), r.raw[0x181], r.raw[0x182], r.raw[0x183], r.raw[0x187]))
            else Some(TcbParts(None, r.raw[0x180], r.raw[0x181], r.raw[0x186], r.raw[0x187]))
  {
    var b, fms := r.raw[0x180..0x188], r.raw[0x188..0x18B];
    LeBytesOfValue(b);
    LayoutFollowsFamily(Fms(fms[0], fms[1], fms[2]));
  }

  // ----- Signature numbers -----

  /** `to_be_48`: the low 48 bytes, reversed in place. */
  method ToBe48(le: seq<byte>) returns (out: array<byte>)
    requires |le| == 72
    ensures fresh(out)
    ensures out[..] == Reversed(le[..48])
  {
    out := new byte[48](i requires 0 <= i < 48 => le[i]);
    var i := 0;
    while i < 24
      invariant 0 <= i <= 24
      invariant forall k :: i <= k < 48 - i ==> out[k] == le[k]
      invariant forall k :: 0 <= k < i ==> out[k] == le[47 - k] && out[47 - k] == le[k]
    {
      out[i], out[47 - i] := out[47 - i], out[i];
      i := i + 1;
    }
    forall k | 24 <= k < 48
      ensures out[k] == le[47 - k]
    {
      var j := 47 - k;
      assert out[47 - j] == le[j];
    }
  }

  function Be48(le: seq<byte>): (s: seq<byte>)
    requires |le| == 72
    ensures |s| == 48
  {
    Reversed(le[..48])
  }

  /** The big-endian integer handed to a verifier is the little-endian one on the wire, cut to
      its low 48 bytes: the same number exactly when the top 24 bytes are zero. */
  lemma SignatureNumberIsPreserved(le: seq<byte>)
    requires |le| == 72
    ensures BeValue(Be48(le)) == LeValue(le[..48])
    ensures BeValue(Be48(le)) == LeValue(le) <==> le[48..] == Zeros(24)
  {
    BeValueOfReversed(le[..48]);
    assert le == le[..48] + le[48..];
    LeValueConcat(le[..48], le[48..]);
    LeValueZero(le[48..]);
    ProductIsZero(Pow256(48), LeValue(le[48..]));
  }

  lemma ProductIsZero(p: nat, q: nat)
    requires p > 0
    ensures p * q == 0 <==> q == 0
  {
  }

  /** Distinct properly padded components stay distinct numbers. */
  lemma SignatureNumberIsInjective(a: seq<byte>, b: seq<byte>)
    requires |a| == |b| == 72 && a[48..] == b[48..]
    requires Be48(a) == Be48(b)
    ensures a == b
  {
    assert Reversed(Be48(a)) == a[..48] && Reversed(Be48(b)) == b[..48];
    assert a == a[..48] + a[48..] && b == b[..48] + b[48..];
  }

  /** A signature is read as ECDSA exactly when the report says so; r comes first and s second;
      and the numbers handed to a verifier are those of the low 48 bytes of each. */
  lemma EcdsaComponents(report: AttestationReport)
    requires WellFormed(report)
    ensures EcdsaSignature(report).Some? <==> LeValue(report.raw[0x34..0x38]) == 1
    ensures EcdsaSignature(report).Some? ==>
              var raw, signature := report.raw, EcdsaSignature(report).value;
              && signature.r == raw[0x2A0..0x2E8] && signature.s == raw[0x2E8..0x330]
              && BeValue(signature.RBe()) == LeValue(raw[0x2A0..0x2D0])
              && BeValue(signature.SBe()) == LeValue(raw[0x2E8..0x318])
  {
    EcdsaFields(report);
    LowBytesReversed(report.raw, 0x2A0);
    LowBytesReversed(report.raw, 0x2E8);
  }

  lemma EcdsaFields(report: AttestationReport)
    requires WellFormed(report)
    ensures EcdsaSignature(report).Some? <==> LeValue(report.raw[0x34..0x38]) == 1
    ensures EcdsaSignature(report).Some? ==>
              var signature := EcdsaSignature(report).value;
              signature.r == report.raw[0x2A0..0x2E8] && signature.s == report.raw[0x2E8..0x330]
  {
    assert report.Get(SignatureR) == report.raw[0x2A0..0x2E8];
    assert report.Get(SignatureS) == report.raw[0x2E8..0x330];
    assert report.Get(SignatureAlgorithm) == report.raw[0x34..0x38];
  }

  lemma LowBytesReversed(raw: seq<byte>, at: nat)
    requires at + 72 <= |raw|
    ensures BeValue(Be48(raw[at..at + 72])) == LeValue(raw[at..at + 48])
  {
    SignatureNumberIsPreserved(raw[at..at + 72]);
    SliceOfSlice(raw, at, 72, 0, 48);
  }
}
