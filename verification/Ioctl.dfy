/** The /dev/sev-guest transport (src/backend/ioctl.rs).  The kernel is an unconstrained
    environment: it answers the n-th guest request with the n-th reply of an arbitrary script,
    and may overwrite all three buffers of the call. */
module Ioctl {
  import opened Bytes
  import opened Errors
  import opened Report
  import opened Request
  import opened Certs
  import Key

  const REPORT_RESP_LEN := 4000
  const RESP_PAYLOAD := 0x20
  const REPORT_REQ_LEN := 96
  const EXT_REPORT_REQ_LEN := 112
  const EXT_CERTS_LEN_FIELD := 104
  const CERT_GRANULARITY := 4096
  const CERT_MAX := 0x4000
  const KEY_RESP_LEN := 64
  const KEY_LEN := 32

  /** `_IOWR('S', nr, struct snp_guest_request_ioctl)` */
  function Iowr(nr: byte): u32 {
    0x4000_0000 * 3 + 0x1_0000 * 32 + 0x100 * ('S' as int) + nr
  }

  const SNP_GET_REPORT := Iowr(0)
  const SNP_GET_DERIVED_KEY := Iowr(1)
  const SNP_GET_EXT_REPORT := Iowr(2)

  /** The codes the driver knows: read and write, thirty-two bytes, 'S', and the number. */
  lemma CodesAre()
    ensures SNP_GET_REPORT == 0xC020_5300
    ensures SNP_GET_DERIVED_KEY == 0xC020_5301
    ensures SNP_GET_EXT_REPORT == 0xC020_5302
  {
  }

  // ----- The environment -----

  /** What one ioctl returns and what it leaves at the front of the three buffers; anything a
      reply does not reach keeps its contents. */
  datatype KernelReply = KernelReply(
    exitinfo2: u64, rc: int, errno: IoKind,
    request: seq<byte>, response: seq<byte>, certs: seq<byte>)

  datatype Issued = Issued(code: u32, msgVersion: byte, request: seq<byte>)

  function Overlay(buf: seq<byte>, patch: seq<byte>): (s: seq<byte>)
    ensures |s| == |buf|
  {
    if |patch| <= |buf| then patch + buf[|patch|..] else patch[..|buf|]
  }

  /** EXITINFO2 takes precedence over the errno. */
  function IssueResult(reply: KernelReply): Result<()> {
    match FromExitInfo2(reply.exitinfo2)
    case Some(e) => Err(e)
    case None => if reply.rc < 0 then Err(Io(reply.errno)) else Ok(())
  }

  /** What the three words of a reply amount to, EXITINFO2 read as one number. */
  predicate Amounts(x: u64, rc: int, errno: IoKind, r: Result<()>) {
    && (0 < x < 0x1_0000_0000 ==> r == Err(Firmware(FirmwareStatus(x))))
    && (0x1_0000_0000 <= x < 0x2_0000_0000 ==> r == Err(Vmm(InvalidLen)))
    && (0x2_0000_0000 <= x < 0x3_0000_0000 ==> r == Err(Vmm(Busy)))
    && (0x3_0000_0000 <= x ==> r == Err(Vmm(UnknownVmm(x / 0x1_0000_0000))))
    && (x == 0 && rc >= 0 ==> r == Ok(()))
    && (x == 0 && rc < 0 ==> r == Err(Io(errno)))
  }

  /** EXITINFO2 alone decides whenever it is not zero, whatever `ioctl` returned: its high half
      is the hypervisor's word, its low half the firmware's.  Only else does the errno count. */
  lemma IssueIsDecided(reply: KernelReply)
    ensures Amounts(reply.exitinfo2, reply.rc, reply.errno, IssueResult(reply))
  {
    ExitInfo2Meaning(reply.exitinfo2);
  }

  // ----- Request buffers -----

  function Filled(bytes: seq<byte>, n: nat): (s: seq<byte>)
    ensures |s| == n
  {
    Overlay(Zeros(n), bytes)
  }

  /** `fill`: copies bytes into a zeroed buffer until either runs out. */
  method Fill(bytes: seq<byte>, n: nat) returns (out: array<byte>)
    ensures fresh(out) && out[..] == Filled(bytes, n)
  {
    out := new byte[n](i => 0);
    var i := 0;
    while i < out.Length && i < |bytes|
      invariant 0 <= i <= n && i <= |bytes|
      invariant forall k :: 0 <= k < n ==> out[k] == if k < i then bytes[k] else 0
    {
      out[i] := bytes[i];
      i := i + 1;
    }
  }

  /** `vec![0u8; n]` */
  method Zeroed(n: nat) returns (out: array<byte>)
    ensures fresh(out) && out[..] == Zeros(n)
  {
    out := new byte[n](i => 0);
  }

  function ReportReq(request: ReportRequest): (s: seq<byte>)
    ensures |s| == REPORT_REQ_LEN
  {
    Filled(request.data + LeBytes(request.vmpl.UnwrapOr(0), 4), REPORT_REQ_LEN)
  }

  function ExtReportReq(request: ReportRequest, address: u64, length: u32): (s: seq<byte>)
    ensures |s| == EXT_REPORT_REQ_LEN
  {
    Filled(ReportReq(request) + LeBytes(address, 8) + LeBytes(length, 4), EXT_REPORT_REQ_LEN)
  }

  /** Nothing is clipped: the buffer holds the data, the level, and zeros. */
  lemma ReportReqLayout(request: ReportRequest)
    ensures ReportReq(request) == request.data + LeBytes(request.vmpl.UnwrapOr(0), 4) + Zeros(28)
  {
    assert Zeros(96)[68..] == Zeros(28);
  }

  lemma ExtReportReqLayout(request: ReportRequest, address: u64, length: u32)
    ensures ExtReportReq(request, address, length)
         == ReportReq(request) + LeBytes(address, 8) + LeBytes(length, 4) + Zeros(4)
  {
    assert Zeros(112)[108..] == Zeros(4);
  }

  /** The firmware can tell two requests apart exactly by their data and level, where no level
      and level zero are the same. */
  lemma ReportReqInjective(a: ReportRequest, b: ReportRequest)
    ensures ReportReq(a) == ReportReq(b) <==> a.data == b.data && a.vmpl.UnwrapOr(0) == b.vmpl.UnwrapOr(0)
  {
    ReportReqLayout(a);
    ReportReqLayout(b);
    var x, y := ReportReq(a), ReportReq(b);
    assert x[..64] == a.data && x[64..68] == LeBytes(a.vmpl.UnwrapOr(0), 4);
    assert y[..64] == b.data && y[64..68] == LeBytes(b.vmpl.UnwrapOr(0), 4);
    Widths();
    LeValueOfBytes(a.vmpl.UnwrapOr(0), 4);
    LeValueOfBytes(b.vmpl.UnwrapOr(0), 4);
  }

  // ----- Response buffers -----

  function ParseResponse(response: seq<byte>): Result<AttestationReport> {
    match U32At(response, 0)
    case None => Err(Parse(TooShort("report response", 4, |response|)))
    case Some(status) =>
      if status != 0 then Err(Firmware(FirmwareStatus(status)))
      else if |response| < RESP_PAYLOAD then Err(Parse(TooShort("report response", RESP_PAYLOAD, |response|)))
      else ParseReport(response[RESP_PAYLOAD..])
  }

  const NO_CERT_LEN := InvalidArgument("kernel did not report a certificate buffer size")
  const BAD_CERT_LEN := InvalidArgument("kernel asked for an implausible certificate buffer size")

  function RequestedCertLen(req: seq<byte>): (r: Result<u32>)
  {
    match U32At(req, EXT_CERTS_LEN_FIELD)
    case None => Err(NO_CERT_LEN)
    case Some(needed) =>
      if needed == 0 || needed > CERT_MAX || needed % CERT_GRANULARITY != 0 then Err(BAD_CERT_LEN)
      else Ok(needed)
  }

  // ----- Whole calls as functions of the kernel's replies -----

  function Verified(request: ReportRequest, response: seq<byte>): Result<AttestationReport> {
    match ParseResponse(response)
    case Err(e) => Err(e)
    case Ok(report) =>
      match VerifyAnswers(request, report)
      case Err(e) => Err(e)
      case Ok(_) => Ok(report)
  }

  function ReportOutcome(request: ReportRequest, reply: KernelReply): Result<AttestationReport> {
    match IssueResult(reply)
    case Err(e) => Err(e)
    case Ok(_) => Verified(request, Overlay(Zeros(REPORT_RESP_LEN), reply.response))
  }

  function WithCerts(request: ReportRequest, response: seq<byte>, certs: seq<byte>): Result<ExtendedReport> {
    match Verified(request, response)
    case Err(e) => Err(e)
    case Ok(report) =>
      match Decode(certs)
      case Err(e) => Err(e)
      case Ok(table) => Ok(Extended(report, table))
  }

  lemma ReportsAreDecided(request: ReportRequest, reply: KernelReply)
    ensures var response := Overlay(Zeros(4000), reply.response);
            && (forall report :: ReportOutcome(request, reply) == Ok(report) <==>
                                   Accepted(reply) && Carries(request, response, report))
            && (Accepted(reply) && LeValue(response[..4]) != 0 ==>
                  ReportOutcome(request, reply) == Err(Firmware(FirmwareStatus(LeU32(response[..4])))))
  {
    forall report: AttestationReport
      ensures var response := Overlay(Zeros(4000), reply.response);
              && (ReportOutcome(request, reply) == Ok(report) <==>
                    Accepted(reply) && Carries(request, response, report))
              && (Accepted(reply) && LeValue(response[..4]) != 0 ==>
                    ReportOutcome(request, reply) == Err(Firmware(FirmwareStatus(LeU32(response[..4])))))
    {
      ReportIsDecided(request, reply, report);
    }
  }

  /** The size the kernel wrote back into the first extended request. */
  function AskedFor(request: ReportRequest, first: KernelReply): Result<u32> {
    RequestedCertLen(Overlay(ExtReportReq(request, 0, 0), first.request))
  }

  /** A second request is issued exactly when the first was answered with a plausible demand
      for a longer certificate buffer. */
  predicate AsksAgain(request: ReportRequest, first: KernelReply) {
    IssueResult(first) == Err(Vmm(InvalidLen)) && AskedFor(request, first).Ok?
  }

  function SecondOutcome(request: ReportRequest, response: seq<byte>, needed: u32, second: KernelReply)
    : Result<ExtendedReport>
  {
    match IssueResult(second)
    case Err(e) => Err(e)
    case Ok(_) =>
      WithCerts(request, Overlay(response, second.response), Overlay(Zeros(needed), second.certs))
  }

  function AgainOutcome(request: ReportRequest, req: seq<byte>, response: seq<byte>, second: KernelReply)
    : Result<ExtendedReport>
  {
    match RequestedCertLen(req)
    case Err(e) => Err(e)
    case Ok(needed) => SecondOutcome(request, response, needed, second)
  }

  function ExtendedOutcome(request: ReportRequest, first: KernelReply, second: KernelReply): Result<ExtendedReport> {
    var response := Overlay(Zeros(REPORT_RESP_LEN), first.response);
    match IssueResult(first)
    case Ok(_) => WithCerts(request, response, [])
    case Err(e) =>
      if e != Vmm(InvalidLen) then Err(e)
      else AgainOutcome(request, Overlay(ExtReportReq(request, 0, 0), first.request), response, second)
  }

  function DeriveOutcome(reply: KernelReply): Result<seq<byte>> {
    match IssueResult(reply)
    case Err(e) => Err(e)
    case Ok(_) =>
      var resp := Overlay(Zeros(KEY_RESP_LEN), reply.response);
      var status := U32At(resp, 0).UnwrapOr(0xFFFF_FFFF);
      if status != 0 then Err(Firmware(FirmwareStatus(status)))
      else
        match BytesAt(resp, RESP_PAYLOAD, KEY_LEN)
        case None => Err(InvalidArgument("derived key response was truncated"))
        case Some(key) => Ok(key)
  }

  // ----- The device -----

  /** The device as one caller sees it: `script` is what the kernel answers this caller's own
      requests, whatever others ask of the device in between. */
  class SevGuest {
    const script: nat -> KernelReply
    const msgVersion: byte
    /** Every guest request this caller has issued; each one has spent a sequence number for
        good. */
    var issued: seq<Issued>

    constructor (script: nat -> KernelReply)
      ensures this.script == script && msgVersion == 1 && issued == []
    {
      this.script := script;
      msgVersion := 1;
      issued := [];
    }

    method Poke(buf: array<byte>, patch: seq<byte>)
      modifies buf
      ensures buf[..] == Overlay(old(buf[..]), patch)
    {
      var i := 0;
      while i < buf.Length && i < |patch|
        invariant 0 <= i <= buf.Length && i <= |patch|
        invariant forall k :: 0 <= k < buf.Length ==> buf[k] == if k < i then patch[k] else old(buf[k])
      {
        buf[i] := patch[i];
        i := i + 1;
      }
    }

    /** Issues one guest request. */
    method Issue(code: u32, request: array<byte>, response: array<byte>, certs: array<byte>)
      returns (r: Result<()>)
      requires request != response && request != certs && response != certs
      modifies this, request, response, certs
      ensures issued == old(issued) + [Issued(code, msgVersion, old(request[..]))]
      ensures var reply := script(|old(issued)|);
              && r == IssueResult(reply) && Amounts(reply.exitinfo2, reply.rc, reply.errno, r)
              && request[..] == Overlay(old(request[..]), reply.request)
              && response[..] == Overlay(old(response[..]), reply.response)
              && certs[..] == Overlay(old(certs[..]), reply.certs)
    {
      var reply := script(|issued|);
      issued := issued + [Issued(code, msgVersion, request[..])];
      Poke(request, reply.request);
      Poke(response, reply.response);
      Poke(certs, reply.certs);
      IssueIsDecided(reply);
      return IssueResult(reply);
    }

    method GetReport(request: ReportRequest) returns (r: Result<AttestationReport>)
      modifies this
      ensures issued == old(issued) + [Issued(SNP_GET_REPORT, msgVersion, ReportReq(request))]
      ensures r == ReportOutcome(request, script(|old(issued)|))
      ensures var reply := script(|old(issued)|);
              var response := Overlay(Zeros(4000), reply.response);
              && (forall report :: r == Ok(report) <==> Accepted(reply) && Carries(request, response, report))
              && (Accepted(reply) && LeValue(response[..4]) != 0 ==>
                    r == Err(Firmware(FirmwareStatus(LeU32(response[..4])))))
    {
      ReportsAreDecided(request, script(|issued|));
      var req := Fill(request.data + LeBytes(request.vmpl.UnwrapOr(0), 4), REPORT_REQ_LEN);
      var resp := Zeroed(REPORT_RESP_LEN);
      var none := new byte[0];
      var rc := Issue(SNP_GET_REPORT, req, resp, none);
      if rc.Err? {
        return Err(rc.error);
      }
      var report := ParseResponse(resp[..]);
      if report.Err? {
        return report;
      }
      var answers := VerifyAnswers(request, report.value);
      if answers.Err? {
        return Err(answers.error);
      }
      return report;
    }

    method BuildExt(request: ReportRequest, address: u64, length: u32) returns (req: array<byte>)
      ensures fresh(req) && req[..] == ExtReportReq(request, address, length)
    {
      req := Fill(ReportReq(request) + LeBytes(address, 8) + LeBytes(length, 4), EXT_REPORT_REQ_LEN);
    }

    method Finish(request: ReportRequest, resp: array<byte>, certs: array<byte>) returns (r: Result<ExtendedReport>)
      ensures r == WithCerts(request, resp[..], certs[..])
    {
      var report := ParseResponse(resp[..]);
      if report.Err? {
        return Err(report.error);
      }
      var answers := VerifyAnswers(request, report.value);
      if answers.Err? {
        return Err(answers.error);
      }
      var table := ParseTable(certs[..]);
      if table.Err? {
        return Err(table.error);
      }
      return Ok(Extended(report.value, table.value));
    }

    /** The second half of the handshake: a buffer of the size demanded, at whatever address
        the allocator gave it, and the same response buffer as before. */
    method AskAgain(request: ReportRequest, resp: array<byte>, needed: u32)
      returns (r: Result<ExtendedReport>, ghost at: u64)
      modifies this, resp
      ensures issued == old(issued) + [SecondExtended(request, at, needed)]
      ensures r == SecondOutcome(request, old(resp[..]), needed, script(|old(issued)|))
    {
      var certs := Zeroed(needed);
      var address: u64 := *;
      at := address;
      var req := BuildExt(request, address, needed);
      var rc := Issue(SNP_GET_EXT_REPORT, req, resp, certs);
      if rc.Err? {
        r := Err(rc.error);
        return;
      }
      r := Finish(request, resp, certs);
    }

    /** What follows an `InvalidLen`: a second request if the kernel demanded a plausible size. */
    method Renegotiate(request: ReportRequest, req: array<byte>, resp: array<byte>)
      returns (r: Result<ExtendedReport>, ghost at: u64)
      requires req != resp
      modifies this, resp
      ensures && r == AgainOutcome(request, old(req[..]), old(resp[..]), script(|old(issued)|))
              && issued == old(issued) + (match RequestedCertLen(old(req[..]))
                                          case Ok(needed) => [SecondExtended(request, at, needed)]
                                          case Err(_) => [])
    {
      at := 0;
      var needed := RequestedCertLen(req[..]);
      if needed.Err? {
        r := Err(needed.error);
        return;
      }
      r, at := AskAgain(request, resp, needed.value);
    }

    /** Asks with an empty certificate buffer first, and again only if the kernel demands one. */
    method GetExtendedReport(request: ReportRequest) returns (r: Result<ExtendedReport>, ghost at: u64)
      modifies this
      ensures var first := script(|old(issued)|);
              && r == ExtendedOutcome(request, first, script(|old(issued)| + 1))
              && issued == old(issued) + [FirstExtended(request)]
                           + (if AsksAgain(request, first)
                              then [SecondExtended(request, at, AskedFor(request, first).value)] else [])
    {
      at := 0;
      var req := BuildExt(request, 0, 0);
      var resp := Zeroed(REPORT_RESP_LEN);
      var certs := new byte[0];
      var rc := Issue(SNP_GET_EXT_REPORT, req, resp, certs);
      ghost var first := script(|old(issued)|);
      ghost var once := old(issued) + [FirstExtended(request)];
      assert issued == once && rc == IssueResult(first);
      if rc.Ok? {
        assert certs[..] == [];
        r := Finish(request, resp, certs);
        assert issued == once + [];
      } else if rc.error == Vmm(InvalidLen) {
        assert RequestedCertLen(req[..]) == AskedFor(request, first);
        r, at := Renegotiate(request, req, resp);
      } else {
        r := Err(rc.error);
        assert issued == once + [];
      }
    }

    function SecondExtended(request: ReportRequest, address: u64, needed: u32): Issued {
      Issued(SNP_GET_EXT_REPORT, msgVersion, ExtReportReq(request, address, needed))
    }

    function FirstExtended(request: ReportRequest): Issued {
      Issued(SNP_GET_EXT_REPORT, msgVersion, ExtReportReq(request, 0, 0))
    }

    method DeriveKey(request: Key.KeyRequest) returns (r: Result<seq<byte>>)
      modifies this
      ensures request.vmpl > 3 ==> issued == old(issued) && r == Err(InvalidArgument("vmpl must be 0..=3"))
      ensures request.vmpl <= 3 ==>
                && issued == old(issued) + [Issued(SNP_GET_DERIVED_KEY, msgVersion, Key.RequestFields(request))]
                && r == DeriveOutcome(script(|old(issued)|))
    {
      var valid := request.Validate();
      if valid.Err? {
        return Err(valid.error);
      }
      var req := Key.ToWire(request);
      var resp := Zeroed(KEY_RESP_LEN);
      var none := new byte[0];
      var rc := Issue(SNP_GET_DERIVED_KEY, req, resp, none);
      if rc.Err? {
        return Err(rc.error);
      }
      var status := U32At(resp[..], 0).UnwrapOr(0xFFFF_FFFF);
      if status != 0 {
        return Err(Firmware(FirmwareStatus(status)));
      }
      var key := BytesAt(resp[..], RESP_PAYLOAD, KEY_LEN);
      if key.None? {
        return Err(InvalidArgument("derived key response was truncated"));
      }
      return Ok(key.value);
    }
  }

  // ----- What a call guarantees whatever the kernel replies -----

  /** The fixed response buffer is long enough for every read made of it: a response is
      refused only for its status, for its version, or for answering another request. */
  lemma ResponsesAreNeverShort(request: ReportRequest, response: seq<byte>)
    requires |response| == 4000
    ensures Verified(request, response).Ok? ==>
              && Answers(request, Verified(request, response).value)
              && Verified(request, response).value.raw == response[RESP_PAYLOAD..][..SIZE]
    ensures Verified(request, response).Err? ==>
              var e := Verified(request, response).error;
              && !IsTransient(e)
              && (e.Firmware? || e.Mismatch? || (e.Parse? && e.parse.UnsupportedReportVersion?))
  {
  }

  /** A response is judged by its status word first and by its payload only when that is zero. */
  lemma ResponseIsDecided(request: ReportRequest, response: seq<byte>)
    requires |response| == 4000
    ensures LeValue(response[..4]) != 0 ==>
              Verified(request, response) == Err(Firmware(FirmwareStatus(LeU32(response[..4]))))
    ensures LeValue(response[..4]) == 0 ==> Verified(request, response) == Checked(request, response[32..])
  {
    assert response[0..4] == response[..4];
  }

  /** Buffers too short to hold a status or a payload, should there ever be one, are refused as
      such, naming the bytes needed; a request buffer without a size field is an argument error. */
  lemma ShortBuffersAreRefused(buffer: seq<byte>)
    ensures |buffer| < 4 ==> ParseResponse(buffer) == Err(Parse(TooShort("report response", 4, |buffer|)))
    ensures 4 <= |buffer| < 32 && LeValue(buffer[..4]) == 0 ==>
              ParseResponse(buffer) == Err(Parse(TooShort("report response", 32, |buffer|)))
    ensures |buffer| < 108 ==>
              RequestedCertLen(buffer) == Err(InvalidArgument("kernel did not report a certificate buffer size"))
  {
    if |buffer| >= 4 {
      assert buffer[0..4] == buffer[..4];
    }
  }

  /** The response holds a report for the request that the firmware did not mark as failed. */
  predicate Carries(request: ReportRequest, response: seq<byte>, report: AttestationReport) {
    && |response| == 4000
    && LeValue(response[..4]) == 0
    && Answers(request, report)
    && report.raw == response[32..32 + 0x4A0]
  }

  lemma VerifiedExactly(request: ReportRequest, response: seq<byte>, report: AttestationReport)
    requires |response| == 4000
    ensures Verified(request, response) == Ok(report) <==> Carries(request, response, report)
  {
    ResponseIsDecided(request, response);
    CheckedExactly(request, response[32..], report);
    if |report.raw| == 0x4A0 {
      PrefixIsSlice(report.raw, response, 32);
    }
  }

  lemma PrefixIsSlice(s: seq<byte>, t: seq<byte>, at: nat)
    requires at + |s| <= |t|
    ensures s <= t[at..] <==> s == t[at..at + |s|]
  {
    assert t[at..][..|s|] == t[at..at + |s|];
  }

  /** The kernel accepted the request. */
  predicate Accepted(reply: KernelReply) {
    reply.exitinfo2 == 0 && reply.rc >= 0
  }

  /** A plain request succeeds exactly when the kernel accepted it and its response carries a
      report for it, which is then the one returned; a refusal is passed on, and a failed
      status is the firmware's error. */
  lemma ReportIsDecided(request: ReportRequest, reply: KernelReply, report: AttestationReport)
    ensures var response := Overlay(Zeros(4000), reply.response);
            && (ReportOutcome(request, reply) == Ok(report) <==>
                  Accepted(reply) && Carries(request, response, report))
            && (Accepted(reply) && LeValue(response[..4]) != 0 ==>
                  ReportOutcome(request, reply) == Err(Firmware(FirmwareStatus(LeU32(response[..4])))))
            && (Accepted(reply) && LeValue(response[..4]) == 0 ==>
                  ReportOutcome(request, reply) == Checked(request, response[32..]))
            && (!Accepted(reply) ==>
                  IssueResult(reply).Err? && ReportOutcome(request, reply) == Err(IssueResult(reply).error))
  {
    var response := Overlay(Zeros(4000), reply.response);
    IssueIsDecided(reply);
    ResponseIsDecided(request, response);
    VerifiedExactly(request, response, report);
  }

  /** The size the kernel wrote back into the request, wherever else it wrote. */
  function WrittenBack(request: ReportRequest, first: KernelReply): nat {
    LeValue(Overlay(ExtReportReq(request, 0, 0), first.request)[104..108])
  }

  /** A second request follows exactly a hypervisor demand for a longer buffer whose size is one
      to four whole pages; `rc` and the errno have no say, and any other size is refused. */
  lemma AsksAgainExactly(request: ReportRequest, first: KernelReply)
    ensures AsksAgain(request, first) <==>
            && 0x1_0000_0000 <= first.exitinfo2 < 0x2_0000_0000
            && WrittenBack(request, first) in {0x1000, 0x2000, 0x3000, 0x4000}
    ensures AskedFor(request, first) ==
            if WrittenBack(request, first) in {0x1000, 0x2000, 0x3000, 0x4000} then Ok(WrittenBack(request, first))
            else Err(InvalidArgument("kernel asked for an implausible certificate buffer size"))
  {
    IssueIsDecided(first);
    SizesAreDecided(Overlay(ExtReportReq(request, 0, 0), first.request));
  }

  lemma SizesAreDecided(req: seq<byte>)
    requires |req| == 112
    ensures var size := LeU32(req[104..108]);
            RequestedCertLen(req) ==
            if size in {0x1000, 0x2000, 0x3000, 0x4000} then Ok(size)
            else Err(InvalidArgument("kernel asked for an implausible certificate buffer size"))
  {
  }

  /** The chain that goes with an accepted answer: empty if the first request was accepted,
      otherwise what the demanded buffer decodes to. */
  predicate ChainOf(request: ReportRequest, first: KernelReply, second: KernelReply, table: CertTable) {
    if Accepted(first) then table == CertTable([])
    else
      && AsksAgain(request, first) && Accepted(second)
      && Decode(Overlay(Zeros(WrittenBack(request, first)), second.certs)) == Ok(table)
  }

  /** The response buffer as the last request of the handshake leaves it. */
  function LastResponse(first: KernelReply, second: KernelReply): seq<byte> {
    var response := Overlay(Zeros(4000), first.response);
    if Accepted(first) then response else Overlay(response, second.response)
  }

  /** An extended request succeeds exactly when the last request was accepted, the response
      buffer carries a report for it and the chain decodes; then these are what is returned. */
  lemma ExtendedExactly(request: ReportRequest, first: KernelReply, second: KernelReply, extended: ExtendedReport)
    ensures ExtendedOutcome(request, first, second) == Ok(extended) <==>
            && Carries(request, LastResponse(first, second), extended.report)
            && ChainOf(request, first, second, extended.certificates)
  {
    IssueIsDecided(first);
    IssueIsDecided(second);
    AsksAgainExactly(request, first);
    var response := LastResponse(first, second);
    VerifiedExactly(request, response, extended.report);
    if AsksAgain(request, first) {
      var certs := Overlay(Zeros(WrittenBack(request, first)), second.certs);
      WithCertsExactly(request, response, certs, extended);
    } else if Accepted(first) {
      WithCertsExactly(request, response, [], extended);
    }
  }

  lemma WithCertsExactly(request: ReportRequest, response: seq<byte>, certs: seq<byte>, extended: ExtendedReport)
    ensures WithCerts(request, response, certs) == Ok(extended) <==>
            Verified(request, response) == Ok(extended.report) && Decode(certs) == Ok(extended.certificates)
  {
  }

  /** Which error it is otherwise: the first refusal met is passed on as it is, an implausible
      size is an argument error, and the report is looked at before the chain. */
  lemma ExtendedErrors(request: ReportRequest, first: KernelReply, second: KernelReply)
    ensures var r := ExtendedOutcome(request, first, second);
            match IssueResult(first)
            case Ok(_) => FailsAs(Verified(request, LastResponse(first, second)), r)
            case Err(e) =>
              if e != Vmm(InvalidLen) then r == Err(e)
              else if !AsksAgain(request, first)
              then r == Err(InvalidArgument("kernel asked for an implausible certificate buffer size"))
              else SecondErrors(request, first, second, r)
  {
    IssueIsDecided(first);
    IssueIsDecided(second);
    AsksAgainExactly(request, first);
  }

  predicate FailsAs<T(==), U(==)>(cause: Result<T>, r: Result<U>) {
    cause.Err? ==> r == Err(cause.error)
  }

  predicate SecondErrors(request: ReportRequest, first: KernelReply, second: KernelReply, r: Result<ExtendedReport>) {
    var report := Verified(request, LastResponse(first, second));
    && FailsAs(IssueResult(second), r)
    && (Accepted(second) ==> FailsAs(report, r))
    && (Accepted(second) && report.Ok? ==>
          FailsAs(Decode(Overlay(Zeros(WrittenBack(request, first)), second.certs)), r))
  }

  lemma ReportAnswers(request: ReportRequest, reply: KernelReply)
    requires ReportOutcome(request, reply).Ok?
    ensures Answers(request, ReportOutcome(request, reply).value)
  {
    ResponsesAreNeverShort(request, Overlay(Zeros(REPORT_RESP_LEN), reply.response));
  }

  lemma ExtendedAnswers(request: ReportRequest, first: KernelReply, second: KernelReply)
    requires ExtendedOutcome(request, first, second).Ok?
    ensures Answers(request, ExtendedOutcome(request, first, second).value.report)
    ensures IssueResult(first).Ok? ==>
              ExtendedOutcome(request, first, second).value.certificates == CertTable([])
  {
    var response := Overlay(Zeros(REPORT_RESP_LEN), first.response);
    ResponsesAreNeverShort(request, response);
    ResponsesAreNeverShort(request, Overlay(response, second.response));
  }

  /** Whatever the kernel demands, the second request repeats the first one's report part,
      names exactly the buffer that was allocated, and that buffer is one to four pages whose
      decoding cannot fail for its own size. */
  lemma HandshakeAgreement(request: ReportRequest, first: KernelReply, second: KernelReply, address: u64)
    requires AsksAgain(request, first)
    ensures var needed := AskedFor(request, first).value;
            var again := ExtReportReq(request, address, needed);
            && needed in {0x1000, 0x2000, 0x3000, 0x4000}
            && again[..96] == ExtReportReq(request, 0, 0)[..96] == ReportReq(request)
            && U32At(again, EXT_CERTS_LEN_FIELD) == Some(needed)
            && RequestedCertLen(again) == Ok(needed)
            && var certs := Overlay(Zeros(needed), second.certs);
            && |certs| == needed
            && (Decode(certs).Ok? || Decode(certs) == Err(TOO_MANY_ENTRIES) || Decode(certs) == Err(OUT_OF_BOUNDS))
  {
    var needed := AskedFor(request, first).value;
    DemandIsPages(Overlay(ExtReportReq(request, 0, 0), first.request));
    ExtPieces(request, address, needed);
    ExtPieces(request, 0, 0);
    WholeBuffersAreNeverShort(Overlay(Zeros(needed), second.certs));
  }

  lemma DemandIsPages(req: seq<byte>)
    requires RequestedCertLen(req).Ok?
    ensures RequestedCertLen(req).value in {0x1000, 0x2000, 0x3000, 0x4000}
  {
  }

  lemma ExtPieces(request: ReportRequest, address: u64, length: u32)
    ensures ExtReportReq(request, address, length)[..96] == ReportReq(request)
    ensures U32At(ExtReportReq(request, address, length), EXT_CERTS_LEN_FIELD) == Some(length)
  {
    ExtReportReqLayout(request, address, length);
    var head := ReportReq(request) + LeBytes(address, 8);
    U32AtReadsBack(head, length, Zeros(4));
    assert head[..96] == ReportReq(request);
  }

  /** Rounding the certificate buffer up to pages cannot change the chain: a blob the host
      wrote at its start decodes as if it had arrived alone. */
  lemma PageRoundingIsInert(blob: seq<byte>, needed: nat)
    requires |blob| <= needed && 24 <= needed <= CERT_MAX && Decode(blob).Ok?
    ensures Decode(Overlay(Zeros(needed), blob)) == Decode(blob)
  {
    var buffer := Overlay(Zeros(needed), blob);
    if blob == [] {
      assert buffer == Zeros(needed);
      assert buffer[0..16] == Zeros(16) && buffer[16..20] == Zeros(4) && buffer[20..24] == Zeros(4);
      LeValueZero(Zeros(4));
      DecodeIsSettledByTheStop(buffer, 0);
    } else {
      PaddingIsInert(blob, Zeros(needed)[|blob|..]);
    }
  }

  /** The kernel demands a buffer, then fills it with the canonical table of these certificates
      and the response with a report for the request. */
  predicate DeliversCanonical(request: ReportRequest, first: KernelReply, second: KernelReply, items: seq<Item>) {
    && 0x1_0000_0000 <= first.exitinfo2 < 0x2_0000_0000
    && WrittenBack(request, first) in {0x1000, 0x2000, 0x3000, 0x4000}
    && Accepted(second)
    && Guids(items) && |items| <= 15
    && second.certs == Canonical(items) && |second.certs| <= WrittenBack(request, first)
    && |second.response| == 4000
    && Carries(request, second.response, AttestationReport(second.response[32..32 + 0x4A0]))
  }

  /** The whole handshake delivers a provisioned chain: if the kernel demands a buffer, then
      fills it with the canonical table of at most fifteen certificates and a response that
      answers the request, the caller gets that report and exactly those certificates. */
  lemma HandshakeDeliversTheChain(request: ReportRequest, first: KernelReply, second: KernelReply, items: seq<Item>)
    requires DeliversCanonical(request, first, second, items)
    ensures AsksAgain(request, first)
    ensures ExtendedOutcome(request, first, second)
         == Ok(Extended(AttestationReport(second.response[32..32 + 0x4A0]), TableOf(items)))
  {
    var needed := WrittenBack(request, first);
    var extended := Extended(AttestationReport(second.response[32..32 + 0x4A0]), TableOf(items));
    AsksAgainExactly(request, first);
    CanonicalRoundTrip(items);
    PageRoundingIsInert(second.certs, needed);
    assert LastResponse(first, second) == second.response;
    ExtendedExactly(request, first, second, extended);
  }

  /** A derived key is the 32 payload bytes of a response whose status is zero, and nothing
      else comes back as one; the fixed buffer is never found truncated. */
  lemma DerivedKeyIsThePayload(reply: KernelReply)
    ensures var resp := Overlay(Zeros(64), reply.response);
            match IssueResult(reply)
            case Err(e) => !Accepted(reply) && DeriveOutcome(reply) == Err(e)
            case Ok(_) =>
              && Accepted(reply)
              && DeriveOutcome(reply) == if LeValue(resp[..4]) == 0 then Ok(resp[32..64])
                                         else Err(Firmware(FirmwareStatus(LeU32(resp[..4]))))
  {
    IssueIsDecided(reply);
    var resp := Overlay(Zeros(64), reply.response);
    assert resp[0..4] == resp[..4];
  }
}
