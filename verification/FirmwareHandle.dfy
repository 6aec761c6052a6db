/** The handle callers use (src/lib.rs): routing to an open transport, bounded retry of
    transient failures, and key derivation. */
module FirmwareHandle {
  import opened Bytes
  import opened Errors
  import opened Report
  import opened Request
  import opened Certs
  import opened Tsm
  import opened TsmRuns
  import C = ConfigFs
  import I = Ioctl
  import Key
  import Decimal

  // ----- The retry schedule -----

  /** Milliseconds slept before each retry. */
  const RETRY_BACKOFF: seq<nat> := [20, 80]

  predicate Transient<T>(r: Result<T>) {
    r.Err? && IsTransient(r.error)
  }

  /** A run of `retrying` that made these attempts, slept these delays and returned r. */
  predicate RetryRun<T(==)>(outcomes: seq<Result<T>>, slept: seq<nat>, r: Result<T>) {
    && 1 <= |outcomes| <= 3
    && (forall k :: 0 <= k < |outcomes| - 1 ==> Transient(outcomes[k]))
    && r == outcomes[|outcomes| - 1]
    && (Transient(r) ==> |outcomes| == 3)
    && slept == RETRY_BACKOFF[..|outcomes| - 1]
  }

  /** The loop of `retrying` between two attempts. */
  predicate Pending<T(==)>(outcomes: seq<Result<T>>, slept: seq<nat>) {
    && |outcomes| <= 2
    && (forall k :: 0 <= k < |outcomes| ==> Transient(outcomes[k]))
    && slept == RETRY_BACKOFF[..|outcomes|]
  }

  lemma PendingStep<T>(outcomes: seq<Result<T>>, slept: seq<nat>, r: Result<T>)
    requires Pending(outcomes, slept)
    ensures !Transient(r) || |outcomes| == 2 ==> RetryRun(outcomes + [r], slept, r)
    ensures Transient(r) && |outcomes| < 2 ==> Pending(outcomes + [r], slept + [RETRY_BACKOFF[|outcomes|]])
  {
  }

  /** What `retrying` makes of an endless supply of outcomes: the first of the first three that
      is not transient, otherwise the third. */
  function Retried<T>(outcome: nat -> Result<T>): Result<T> {
    if !Transient(outcome(0)) then outcome(0)
    else if !Transient(outcome(1)) then outcome(1)
    else outcome(2)
  }

  /** The schedule leaves nothing open: attempts drawn from a supply of outcomes fix how many
      are made, what is returned, and how long is slept, at most a tenth of a second. */
  lemma RetryIsDetermined<T>(outcome: nat -> Result<T>, outcomes: seq<Result<T>>, slept: seq<nat>, r: Result<T>)
    requires RetryRun(outcomes, slept, r)
    requires forall k :: 0 <= k < |outcomes| ==> outcomes[k] == outcome(k)
    ensures r == Retried(outcome)
    ensures |outcomes| == if !Transient(outcome(0)) then 1 else if !Transient(outcome(1)) then 2 else 3
    ensures slept == if |outcomes| == 1 then [] else if |outcomes| == 2 then [20] else [20, 80]
  {
    assert outcomes[0] == outcome(0);
    assert RETRY_BACKOFF[..1] == [20];
    if |outcomes| > 1 {
      assert outcomes[1] == outcome(1);
    }
  }

  /** The retry schedule by its errors: only the five that are worth it are asked again for, and
      one of them comes back only after three attempts and both delays. */
  ghost predicate Persisted<T, U>(outcomes: seq<Result<T>>, slept: seq<nat>, r: Result<U>) {
    && 1 <= |outcomes| <= 3
    && (forall k :: 0 <= k < |outcomes| - 1 ==> outcomes[k].Err? && WorthAsking(outcomes[k].error))
    && (r.Err? && WorthAsking(r.error) ==> |outcomes| == 3)
    && slept == match |outcomes| case 1 => [] case 2 => [20] case _ => [20, 80]
  }

  lemma RetryPersists<T>(outcomes: seq<Result<T>>, slept: seq<nat>, r: Result<T>)
    requires RetryRun(outcomes, slept, r)
    ensures Persisted(outcomes, slept, r)
  {
    assert RETRY_BACKOFF[..1] == [20];
    forall k | 0 <= k < |outcomes|
      ensures Transient(outcomes[k]) <==> outcomes[k].Err? && WorthAsking(outcomes[k].error)
    {
      if outcomes[k].Err? {
        TransientIsWorthAsking(outcomes[k].error);
      }
    }
  }

  // ----- Operations and their answers -----

  datatype Op = PlainReport | FullReport

  datatype Answer = Plain(report: AttestationReport) | Full(extended: ExtendedReport)

  function ReportOf(a: Answer): AttestationReport {
    match a
    case Plain(report) => report
    case Full(extended) => extended.report
  }

  function AsPlain(r: Result<AttestationReport>): Result<Answer> {
    match r
    case Ok(report) => Ok(Plain(report))
    case Err(e) => Err(e)
  }

  function AsFull(r: Result<ExtendedReport>): Result<Answer> {
    match r
    case Ok(extended) => Ok(Full(extended))
    case Err(e) => Err(e)
  }

  /** One attempt on the configfs transport, from the blobs of its run. */
  function FromBlobs(op: Op, request: ReportRequest, blobs: Result<(seq<byte>, seq<byte>)>): Result<Answer> {
    match op
    case PlainReport => AsPlain(C.ReportFrom(request, blobs))
    case FullReport => AsFull(C.ExtendedFrom(request, blobs))
  }

  /** One attempt on the ioctl transport that starts at the n-th guest request. */
  function FromDevice(op: Op, request: ReportRequest, script: nat -> I.KernelReply, n: nat): Result<Answer> {
    match op
    case PlainReport => AsPlain(I.ReportOutcome(request, script(n)))
    case FullReport => AsFull(I.ExtendedOutcome(request, script(n), script(n + 1)))
  }

  /** Guest requests that attempt issues. */
  function Cost(op: Op, request: ReportRequest, script: nat -> I.KernelReply, n: nat): nat {
    if op == FullReport && I.AsksAgain(request, script(n)) then 2 else 1
  }

  /** The guest requests issued once k attempts have been made, the first at position n. */
  function SpentAfter(cost: nat -> nat, n: nat, k: nat): nat {
    if k == 0 then n
    else
      var before := SpentAfter(cost, n, k - 1);
      before + cost(before)
  }

  function CostOf(op: Op, request: ReportRequest, script: nat -> I.KernelReply): nat -> nat {
    (n: nat) => Cost(op, request, script, n)
  }

  function OutcomeOf(op: Op, request: ReportRequest, script: nat -> I.KernelReply): nat -> Result<Answer> {
    (n: nat) => FromDevice(op, request, script, n)
  }

  lemma {:induction false} SpendBound(cost: nat -> nat, most: nat, n: nat, k: nat)
    requires forall i :: 1 <= cost(i) <= most
    ensures n + k <= SpentAfter(cost, n, k) <= n + most * k
  {
    if k > 0 {
      SpendBound(cost, most, n, k - 1);
      assert most * k == most * (k - 1) + most;
    }
  }

  lemma DeviceAnswers(op: Op, request: ReportRequest, script: nat -> I.KernelReply, n: nat)
    ensures var r := FromDevice(op, request, script, n);
            && (r.Ok? ==> Answers(request, ReportOf(r.value)))
            && r != Err(NoBackend) && r != Err(Raced)
  {
    DeviceErrors(request, script(n), script(n + 1));
    match op
    case PlainReport =>
      if I.ReportOutcome(request, script(n)).Ok? {
        I.ReportAnswers(request, script(n));
      }
    case FullReport =>
      if I.ExtendedOutcome(request, script(n), script(n + 1)).Ok? {
        I.ExtendedAnswers(request, script(n), script(n + 1));
      }
  }

  predicate FromDeviceError(e: Error) {
    e.Firmware? || e.Vmm? || e.Io? || e.Parse? || e.Mismatch? || e.InvalidArgument?
  }

  lemma VerifiedErrors(request: ReportRequest, response: seq<byte>, certs: seq<byte>)
    ensures I.Verified(request, response).Err? ==> FromDeviceError(I.Verified(request, response).error)
    ensures var r := I.WithCerts(request, response, certs); r.Err? ==> FromDeviceError(r.error)
  {
    DecodeErrorsAreParse(certs);
  }

  lemma IssueErrors(reply: I.KernelReply)
    ensures I.IssueResult(reply).Err? ==> FromDeviceError(I.IssueResult(reply).error)
  {
  }

  lemma DeviceErrors(request: ReportRequest, first: I.KernelReply, second: I.KernelReply)
    ensures I.ReportOutcome(request, first).Err? ==> FromDeviceError(I.ReportOutcome(request, first).error)
    ensures var r := I.ExtendedOutcome(request, first, second); r.Err? ==> FromDeviceError(r.error)
  {
    IssueErrors(first);
    IssueErrors(second);
    var response := I.Overlay(Zeros(I.REPORT_RESP_LEN), first.response);
    VerifiedErrors(request, response, []);
    if I.AsksAgain(request, first) {
      var needed := I.AskedFor(request, first).value;
      VerifiedErrors(request, I.Overlay(response, second.response), I.Overlay(Zeros(needed), second.certs));
    }
  }

  // ----- Histories of attempts -----

  type Blobs = Result<(seq<byte>, seq<byte>)>

  /** One attempt on the configfs transport took the machine from s to s'. */
  ghost predicate ConfigFsAttempt(op: Op, request: ReportRequest, s: World, s': World,
                                  call: nat, blobs: Blobs, r: Result<Answer>) {
    && C.Kept(s, s')
    && C.EndedWith(s, s', call, RunTask(request), C.Settlement(blobs))
    && r == FromBlobs(op, request, blobs)
  }

  /** Each attempt was a call of its own, begun after s, and gave the outcome its run settled on. */
  ghost predicate ConfigFsHistory(op: Op, request: ReportRequest, s: World, s': World,
                                  calls: seq<nat>, runs: seq<Blobs>, outcomes: seq<Result<Answer>>) {
    && C.Kept(s, s')
    && |calls| == |runs| == |outcomes|
    && (forall k :: 0 <= k < |calls| ==>
          && C.EndedWith(s, s', calls[k], RunTask(request), C.Settlement(runs[k]))
          && outcomes[k] == FromBlobs(op, request, runs[k]))
    && (forall j, k :: 0 <= j < k < |calls| ==> calls[j] != calls[k])
  }

  lemma ConfigFsHistoryGrows(op: Op, request: ReportRequest, s: World, m: World, e: World,
                             calls: seq<nat>, runs: seq<Blobs>, outcomes: seq<Result<Answer>>,
                             call: nat, blobs: Blobs, r: Result<Answer>)
    requires ConfigFsHistory(op, request, s, m, calls, runs, outcomes)
    requires ConfigFsAttempt(op, request, m, e, call, blobs, r)
    ensures ConfigFsHistory(op, request, s, e, calls + [call], runs + [blobs], outcomes + [r])
  {
  }

  /** A guest request as this operation issues them: its code, the message version of the
      device, and the report part of its buffer. */
  predicate Asks(op: Op, request: ReportRequest, msgVersion: byte, issued: I.Issued) {
    && issued.msgVersion == msgVersion
    && match op
       case PlainReport => issued.code == 0xC020_5300 && issued.request == I.ReportReq(request)
       case FullReport =>
         && issued.code == 0xC020_5302
         && |issued.request| == 112 && issued.request[..96] == I.ReportReq(request)
  }

  function AsksOf(op: Op, request: ReportRequest, msgVersion: byte): I.Issued -> bool {
    (issued: I.Issued) => Asks(op, request, msgVersion, issued)
  }

  /** The device gave each attempt its outcome in turn, attempts issuing `cost` requests each,
      all of them the operation's own, and nothing issued earlier was lost. */
  ghost predicate DeviceHistory(outcome: nat -> Result<Answer>, cost: nat -> nat, asks: I.Issued -> bool,
                                before: seq<I.Issued>, after: seq<I.Issued>, outcomes: seq<Result<Answer>>) {
    && before <= after
    && (forall i :: |before| <= i < |after| ==> asks(after[i]))
    && |after| == SpentAfter(cost, |before|, |outcomes|)
    && forall k :: 0 <= k < |outcomes| ==> outcomes[k] == outcome(SpentAfter(cost, |before|, k))
  }

  lemma DeviceHistoryGrows(outcome: nat -> Result<Answer>, cost: nat -> nat, asks: I.Issued -> bool,
                           before: seq<I.Issued>, mid: seq<I.Issued>, after: seq<I.Issued>,
                           outcomes: seq<Result<Answer>>, r: Result<Answer>)
    requires DeviceHistory(outcome, cost, asks, before, mid, outcomes)
    requires mid <= after && |after| == |mid| + cost(|mid|) && r == outcome(|mid|)
    requires forall i :: |mid| <= i < |after| ==> asks(after[i])
    ensures DeviceHistory(outcome, cost, asks, before, after, outcomes + [r])
  {
  }

  /** The outcome of the k-th attempt of a call that starts at the n-th guest request. */
  function AttemptAt(op: Op, request: ReportRequest, script: nat -> I.KernelReply, n: nat): nat -> Result<Answer> {
    (k: nat) => FromDevice(op, request, script, SpentAfter(CostOf(op, request, script), n, k))
  }

  /** On the device transport the kernel's replies alone decide the whole call: what it returns,
      how long it sleeps, and how many sequence numbers it has spent. */
  lemma DeviceRunIsDetermined(op: Op, request: ReportRequest, script: nat -> I.KernelReply, asks: I.Issued -> bool,
                              before: seq<I.Issued>, after: seq<I.Issued>, outcomes: seq<Result<Answer>>,
                              slept: seq<nat>, r: Result<Answer>)
    requires DeviceHistory(OutcomeOf(op, request, script), CostOf(op, request, script), asks, before, after, outcomes)
    requires RetryRun(outcomes, slept, r)
    ensures var attempt := AttemptAt(op, request, script, |before|);
            && r == Retried(attempt)
            && |after| == SpentAfter(CostOf(op, request, script), |before|,
                                     if !Transient(attempt(0)) then 1 else if !Transient(attempt(1)) then 2 else 3)
  {
    RetryIsDetermined(AttemptAt(op, request, script, |before|), outcomes, slept, r);
  }

  // ----- The handle -----

  datatype Transport = IoctlTransport | ConfigFsTransport

  class Firmware {
    const transport: Transport
    const configfs: C.ConfigFs?
    const ioctl: I.SevGuest?

    constructor (transport: Transport, configfs: C.ConfigFs?, ioctl: I.SevGuest?)
      ensures this.transport == transport && this.configfs == configfs && this.ioctl == ioctl
    {
      this.transport := transport;
      this.configfs := configfs;
      this.ioctl := ioctl;
    }

    /** The transport chosen for reports is backed by an open handle. */
    predicate Routed() {
      match transport
      case ConfigFsTransport => configfs != null
      case IoctlTransport => ioctl != null
    }

    function Parts(): set<object> {
      (if configfs == null then {} else {configfs.kernel}) + (if ioctl == null then {} else {ioctl})
    }

    ghost predicate Valid()
      reads Parts()
    {
      configfs != null ==> configfs.kernel.Valid()
    }

    // The parts of the two transports' states that a history is about.

    function Machine(): World
      reads Parts()
    {
      if configfs == null then Init(0) else configfs.kernel.s
    }

    function Issued(): seq<I.Issued>
      reads Parts()
    {
      if ioctl == null then [] else ioctl.issued
    }

    ghost predicate Attempted(op: Op, request: ReportRequest, s: World, s': World, d: seq<I.Issued>, d': seq<I.Issued>,
                              call: nat, blobs: Blobs, r: Result<Answer>) {
      && (!Routed() ==> r == Err(NoBackend) && s' == s && d' == d)
      && (transport == ConfigFsTransport ==>
            d' == d && (configfs != null ==> ConfigFsAttempt(op, request, s, s', call, blobs, r)))
      && (transport == IoctlTransport ==>
            s' == s &&
            (ioctl != null ==>
               && d <= d' && |d'| == |d| + CostOf(op, request, ioctl.script)(|d|)
               && (forall i :: |d| <= i < |d'| ==> AsksOf(op, request, ioctl.msgVersion)(d'[i]))
               && r == OutcomeOf(op, request, ioctl.script)(|d|)))
    }

    /** The attempts made between two states of the transports, and what came of each. */
    ghost predicate History(op: Op, request: ReportRequest, s: World, s': World, d: seq<I.Issued>, d': seq<I.Issued>,
                            calls: seq<nat>, runs: seq<Blobs>, outcomes: seq<Result<Answer>>) {
      && (!Routed() ==>
            s' == s && d' == d && forall k :: 0 <= k < |outcomes| ==> outcomes[k] == Err(NoBackend))
      && (transport == ConfigFsTransport ==>
            d' == d && (configfs != null ==> ConfigFsHistory(op, request, s, s', calls, runs, outcomes)))
      && (transport == IoctlTransport ==>
            s' == s &&
            (ioctl != null ==>
               DeviceHistory(OutcomeOf(op, request, ioctl.script), CostOf(op, request, ioctl.script),
                             AsksOf(op, request, ioctl.msgVersion), d, d', outcomes)))
    }

    lemma HistoryStarts(op: Op, request: ReportRequest, s: World, d: seq<I.Issued>)
      ensures History(op, request, s, s, d, d, [], [], [])
    {
    }

    lemma HistoryGrows(op: Op, request: ReportRequest, s: World, m: World, e: World,
                       d: seq<I.Issued>, dm: seq<I.Issued>, de: seq<I.Issued>,
                       calls: seq<nat>, runs: seq<Blobs>, outcomes: seq<Result<Answer>>,
                       call: nat, blobs: Blobs, r: Result<Answer>)
      requires History(op, request, s, m, d, dm, calls, runs, outcomes)
      requires Attempted(op, request, m, e, dm, de, call, blobs, r)
      ensures History(op, request, s, e, d, de, calls + [call], runs + [blobs], outcomes + [r])
    {
      if transport == ConfigFsTransport {
        if configfs != null {
          ConfigFsHistoryGrows(op, request, s, m, e, calls, runs, outcomes, call, blobs, r);
        }
      } else if ioctl != null {
        var script := ioctl.script;
        DeviceHistoryGrows(OutcomeOf(op, request, script), CostOf(op, request, script),
                           AsksOf(op, request, ioctl.msgVersion), d, dm, de, outcomes, r);
      }
    }

    /** `report_backend` and one call of the backend it selects. */
    method Attempt(op: Op, request: ReportRequest) returns (r: Result<Answer>, ghost call: nat, ghost blobs: Blobs)
      requires Valid()
      modifies Parts()
      ensures Valid()
      ensures Attempted(op, request, old(Machine()), Machine(), old(Issued()), Issued(), call, blobs, r)
    {
      call, blobs := 0, Err(NoBackend);
      match transport {
        case ConfigFsTransport =>
          if configfs == null {
            r := Err(NoBackend);
            return;
          }
          r, call, blobs := AttemptConfigFs(op, request, configfs);
        case IoctlTransport =>
          if ioctl == null {
            r := Err(NoBackend);
            return;
          }
          r := AttemptDevice(op, request, ioctl);
      }
    }

    static method AttemptConfigFs(op: Op, request: ReportRequest, backend: C.ConfigFs)
      returns (r: Result<Answer>, ghost call: nat, ghost blobs: Blobs)
      requires backend.kernel.Valid()
      modifies backend.kernel
      ensures backend.kernel.Valid()
      ensures ConfigFsAttempt(op, request, old(backend.kernel.s), backend.kernel.s, call, blobs, r)
    {
      match op {
        case PlainReport =>
          var report;
          report, call, blobs := backend.GetReport(request);
          r := AsPlain(report);
        case FullReport =>
          var extended;
          extended, call, blobs := backend.GetExtendedReport(request);
          r := AsFull(extended);
      }
    }

    static method AttemptDevice(op: Op, request: ReportRequest, backend: I.SevGuest) returns (r: Result<Answer>)
      modifies backend
      ensures old(backend.issued) <= backend.issued
      ensures |backend.issued| == |old(backend.issued)| + Cost(op, request, backend.script, |old(backend.issued)|)
      ensures forall i :: |old(backend.issued)| <= i < |backend.issued| ==>
                AsksOf(op, request, backend.msgVersion)(backend.issued[i])
      ensures r == FromDevice(op, request, backend.script, |old(backend.issued)|)
    {
      match op {
        case PlainReport =>
          var report := backend.GetReport(request);
          r := AsPlain(report);
        case FullReport =>
          var extended, at := backend.GetExtendedReport(request);
          I.ExtPieces(request, 0, 0);
          var first := backend.script(|old(backend.issued)|);
          if I.AsksAgain(request, first) {
            I.ExtPieces(request, at, I.AskedFor(request, first).value);
          }
          r := AsFull(extended);
      }
    }

    /** One more attempt of an operation, added to its history. */
    method AttemptMore(op: Op, request: ReportRequest, ghost s0: World, ghost d0: seq<I.Issued>,
                       ghost calls: seq<nat>, ghost runs: seq<Blobs>, ghost outcomes: seq<Result<Answer>>)
      returns (attempt: Result<Answer>, ghost calls': seq<nat>, ghost runs': seq<Blobs>)
      requires Valid() && History(op, request, s0, Machine(), d0, Issued(), calls, runs, outcomes)
      modifies Parts()
      ensures Valid() && History(op, request, s0, Machine(), d0, Issued(), calls', runs', outcomes + [attempt])
    {
      ghost var s, d := Machine(), Issued();
      var outcome, call, blobs := Attempt(op, request);
      HistoryGrows(op, request, s0, s, Machine(), d0, d, Issued(), calls, runs, outcomes, call, blobs, outcome);
      attempt, calls', runs' := outcome, calls + [call], runs + [blobs];
    }

    /** `retrying`, over the attempts of one operation; `slept` logs the delays. */
    method Retrying(op: Op, request: ReportRequest)
      returns (r: Result<Answer>, slept: seq<nat>,
               ghost outcomes: seq<Result<Answer>>, ghost calls: seq<nat>, ghost runs: seq<Blobs>)
      requires Valid()
      modifies Parts()
      ensures Valid()
      ensures RetryRun(outcomes, slept, r) && Persisted(outcomes, slept, r)
      ensures History(op, request, old(Machine()), Machine(), old(Issued()), Issued(), calls, runs, outcomes)
    {
      ghost var s0, d0 := Machine(), Issued();
      var next := 0;
      slept, outcomes, calls, runs := [], [], [], [];
      HistoryStarts(op, request, s0, d0);
      while true
        invariant next == |outcomes| && Pending(outcomes, slept)
        invariant Valid() && History(op, request, s0, Machine(), d0, Issued(), calls, runs, outcomes)
        decreases 2 - next
      {
        r, calls, runs := AttemptMore(op, request, s0, d0, calls, runs, outcomes);
        PendingStep(outcomes, slept, r);
        outcomes := outcomes + [r];
        if !Transient(r) || next == |RETRY_BACKOFF| {
          RetryPersists(outcomes, slept, r);
          return;
        }
        slept := slept + [RETRY_BACKOFF[next]];
        next := next + 1;
      }
    }

    // ----- What a history of attempts amounts to -----

    lemma EveryOutcome(op: Op, request: ReportRequest, s: World, s': World, d: seq<I.Issued>, d': seq<I.Issued>,
                       calls: seq<nat>, runs: seq<Blobs>, outcomes: seq<Result<Answer>>, k: nat)
      requires Routed() && Inv(s') && History(op, request, s, s', d, d', calls, runs, outcomes) && k < |outcomes|
      ensures outcomes[k].Ok? ==>
                && Answers(request, ReportOf(outcomes[k].value))
                && (op == PlainReport <==> outcomes[k].value.Plain?)
      ensures outcomes[k] != Err(NoBackend)
      ensures outcomes[k] == Err(Raced) ==>
                transport == ConfigFsTransport && k < |calls| && WasDisturbed(s, s', calls[k])
    {
      if transport == ConfigFsTransport {
        RunOutcome(op, request, s, s', calls[k], runs[k]);
      } else {
        DeviceAnswers(op, request, ioctl.script, SpentAfter(CostOf(op, request, ioctl.script), |d|, k));
      }
    }

    /** Every answer of the handle, on either transport and after any retries, is a report that
        answers the request; a routed handle never lacks a backend; and `Raced` comes back only
        from three attempts, each a call of its own begun after the handle was asked, the last of
        which had an entry that a foreign process wrote to (or whose generation was unreadable). */
    lemma HandleGuarantee(op: Op, request: ReportRequest, s: World, s': World, d: seq<I.Issued>, d': seq<I.Issued>,
                          calls: seq<nat>, runs: seq<Blobs>, outcomes: seq<Result<Answer>>,
                          slept: seq<nat>, r: Result<Answer>)
      requires Inv(s') && History(op, request, s, s', d, d', calls, runs, outcomes)
      requires RetryRun(outcomes, slept, r)
      ensures r.Ok? ==> Answers(request, ReportOf(r.value)) && (op == PlainReport <==> r.value.Plain?)
      ensures r == Err(NoBackend) <==> !Routed()
      ensures r == Err(Raced) ==>
                && transport == ConfigFsTransport && |calls| == 3
                && calls[0] != calls[1] && calls[1] != calls[2] && calls[0] != calls[2]
                && (forall k :: 0 <= k < 3 ==> calls[k] !in s.calls && Transient(outcomes[k]))
                && WasDisturbed(s, s', calls[2])
    {
      if Routed() {
        EveryOutcome(op, request, s, s', d, d', calls, runs, outcomes, |outcomes| - 1);
      }
      if r == Err(Raced) {
        assert ConfigFsHistory(op, request, s, s', calls, runs, outcomes);
      }
    }

    /** A call of this process ended with these blobs. */
    ghost predicate RanTo(s: World, s': World, request: ReportRequest, calls: seq<nat>, runs: seq<Blobs>, made: nat) {
      && made > 0 && |calls| == |runs| == made
      && C.EndedWith(s, s', calls[made - 1], RunTask(request), C.Settlement(runs[made - 1]))
    }

    /** What `report_with` makes of its last attempt, the made-th, on either transport: the
        outcome of that attempt's own run or of its one guest request, error or not. */
    ghost predicate ReportSettled(request: ReportRequest, s: World, s': World, n: nat,
                                  calls: seq<nat>, runs: seq<Blobs>, made: nat, r: Result<AttestationReport>) {
      && (transport == ConfigFsTransport && configfs != null ==>
            RanTo(s, s', request, calls, runs, made) && r == C.ReportFrom(request, runs[made - 1]))
      && (transport == IoctlTransport && ioctl != null ==>
            made > 0 && r == I.ReportOutcome(request, ioctl.script(n + made - 1)))
    }

    /** The same of `extended_report_with`, whose last attempt started at the p-th request. */
    ghost predicate ExtendedSettled(request: ReportRequest, s: World, s': World, p: nat,
                                    calls: seq<nat>, runs: seq<Blobs>, made: nat, r: Result<ExtendedReport>) {
      && (transport == ConfigFsTransport && configfs != null ==>
            RanTo(s, s', request, calls, runs, made) && r == C.ExtendedFrom(request, runs[made - 1]))
      && (transport == IoctlTransport && ioctl != null ==>
            r == I.ExtendedOutcome(request, ioctl.script(p), ioctl.script(p + 1)))
    }

    /** Where the k-th attempt of an extended report starts, counted in guest requests. */
    function StartOf(request: ReportRequest, n: nat, k: nat): nat {
      if ioctl == null then n else SpentAfter(CostOf(FullReport, request, ioctl.script), n, k)
    }

    lemma {:induction false} PlainAttemptsCostOne(request: ReportRequest, n: nat, k: nat)
      requires ioctl != null
      ensures SpentAfter(CostOf(PlainReport, request, ioctl.script), n, k) == n + k
    {
      if k > 0 {
        PlainAttemptsCostOne(request, n, k - 1);
      }
    }

    lemma PlainComesBack(request: ReportRequest, s: World, s': World, d: seq<I.Issued>, d': seq<I.Issued>,
                         calls: seq<nat>, runs: seq<Blobs>, outcomes: seq<Result<Answer>>,
                         slept: seq<nat>, r: Result<AttestationReport>)
      requires History(PlainReport, request, s, s', d, d', calls, runs, outcomes)
      requires RetryRun(outcomes, slept, AsPlain(r))
      ensures ReportSettled(request, s, s', |d|, calls, runs, |outcomes|, r)
      ensures transport == IoctlTransport && ioctl != null ==> |d'| == |d| + |outcomes|
    {
      if transport == IoctlTransport && ioctl != null {
        var script := ioctl.script;
        PlainOnDevice(request, AsksOf(PlainReport, request, ioctl.msgVersion), d, d', outcomes);
        assert outcomes[|outcomes| - 1] == AsPlain(I.ReportOutcome(request, script(|d| + |outcomes| - 1)));
      }
    }

    lemma PlainOnDevice(request: ReportRequest, asks: I.Issued -> bool, d: seq<I.Issued>, d': seq<I.Issued>,
                        outcomes: seq<Result<Answer>>)
      requires ioctl != null && outcomes != []
      requires var script := ioctl.script;
               DeviceHistory(OutcomeOf(PlainReport, request, script), CostOf(PlainReport, request, script),
                             asks, d, d', outcomes)
      ensures |d'| == |d| + |outcomes|
      ensures outcomes[|outcomes| - 1] == FromDevice(PlainReport, request, ioctl.script, |d| + |outcomes| - 1)
    {
      PlainAttemptsCostOne(request, |d|, |outcomes| - 1);
      PlainAttemptsCostOne(request, |d|, |outcomes|);
    }

    lemma FullComesBack(request: ReportRequest, s: World, s': World, d: seq<I.Issued>, d': seq<I.Issued>,
                        calls: seq<nat>, runs: seq<Blobs>, outcomes: seq<Result<Answer>>,
                        slept: seq<nat>, r: Result<ExtendedReport>)
      requires History(FullReport, request, s, s', d, d', calls, runs, outcomes)
      requires RetryRun(outcomes, slept, AsFull(r))
      ensures ExtendedSettled(request, s, s', StartOf(request, |d|, |outcomes| - 1), calls, runs, |outcomes|, r)
    {
    }

    /** The bytes an extended report is made of: on configfs the two blobs of the last call, both
        produced from the request's own attributes; on the device the response buffer and the
        certificate buffer of the last attempt, no chain at all if no buffer was demanded. */
    ghost predicate MadeOf(request: ReportRequest, s': World, calls: seq<nat>, p: nat, extended: ExtendedReport) {
      && (transport == ConfigFsTransport && configfs != null ==>
            && calls != [] && calls[|calls| - 1] in s'.calls
            && var c := s'.calls[calls[|calls| - 1]];
              && extended.report.raw <= c.out.bytes && c.out.source == Intended(request)
              && Decode(c.aux.bytes) == Ok(extended.certificates) && c.aux.source == Intended(request))
      && (transport == IoctlTransport && ioctl != null ==>
            var first, second := ioctl.script(p), ioctl.script(p + 1);
            && I.Carries(request, I.LastResponse(first, second), extended.report)
            && I.ChainOf(request, first, second, extended.certificates))
    }

    lemma SettledIsMadeOf(request: ReportRequest, s: World, s': World, p: nat,
                          calls: seq<nat>, runs: seq<Blobs>, made: nat, extended: ExtendedReport)
      requires Inv(s') && ExtendedSettled(request, s, s', p, calls, runs, made, Ok(extended))
      ensures MadeOf(request, s', calls, p, extended)
    {
      if transport == ConfigFsTransport {
        if configfs != null {
          C.ReportsAreOwnAnswers(s', calls[made - 1], request, runs[made - 1]);
        }
      } else if ioctl != null {
        I.ExtendedExactly(request, ioctl.script(p), ioctl.script(p + 1), extended);
      }
    }

    /** A provisioned chain reaches the caller of the handle: if the kernel's first two replies
        are a demand for a buffer and a good answer that fills it with the canonical table of at
        most fifteen certificates, one attempt is made, two requests are spent, and the report
        and exactly those certificates come back. */
    lemma HandleDeliversTheChain(request: ReportRequest, s: World, s': World, d: seq<I.Issued>, d': seq<I.Issued>,
                                 calls: seq<nat>, runs: seq<Blobs>, outcomes: seq<Result<Answer>>,
                                 slept: seq<nat>, r: Result<ExtendedReport>, items: seq<Item>)
      requires transport == IoctlTransport && ioctl != null
      requires History(FullReport, request, s, s', d, d', calls, runs, outcomes)
      requires RetryRun(outcomes, slept, AsFull(r))
      requires I.DeliversCanonical(request, ioctl.script(|d|), ioctl.script(|d| + 1), items)
      ensures r == Ok(Extended(AttestationReport(ioctl.script(|d| + 1).response[32..32 + 0x4A0]), TableOf(items)))
      ensures |outcomes| == 1 && slept == [] && |d'| == |d| + 2
    {
      I.HandshakeDeliversTheChain(request, ioctl.script(|d|), ioctl.script(|d| + 1), items);
      var script := ioctl.script;
      assert SpentAfter(CostOf(FullReport, request, script), |d|, 0) == |d|;
      assert outcomes[0] == FromDevice(FullReport, request, script, |d|);
    }

    /** No more than three guest requests per report and six per extended report are spent, and
        none at all on the configfs transport. */
    lemma HandleSpend(op: Op, request: ReportRequest, s: World, s': World, d: seq<I.Issued>, d': seq<I.Issued>,
                      calls: seq<nat>, runs: seq<Blobs>, outcomes: seq<Result<Answer>>,
                      slept: seq<nat>, r: Result<Answer>)
      requires History(op, request, s, s', d, d', calls, runs, outcomes) && RetryRun(outcomes, slept, r)
      ensures d <= d'
      ensures transport == ConfigFsTransport ==> d' == d
      ensures |d'| <= |d| + (if op == PlainReport then 3 else 6)
    {
      if transport == IoctlTransport && ioctl != null {
        SpendBound(CostOf(op, request, ioctl.script), if op == PlainReport then 1 else 2, |d|, |outcomes|);
      }
    }

    /** Some retried operation of this handle, under some schedule, handed out this report. */
    ghost predicate HandsOut(op: Op, request: ReportRequest, report: AttestationReport) {
      exists s: World, s': World, d: seq<I.Issued>, d': seq<I.Issued>, calls: seq<nat>, runs: seq<Blobs>,
             outcomes: seq<Result<Answer>>, slept: seq<nat>, r: Result<Answer> ::
        && History(op, request, s, s', d, d', calls, runs, outcomes) && RetryRun(outcomes, slept, r)
        && Inv(s') && r.Ok? && ReportOf(r.value) == report
    }

    lemma HandedOutAnswers(op: Op, request: ReportRequest, report: AttestationReport)
      requires HandsOut(op, request, report)
      ensures Answers(request, report)
    {
      var s, s', d, d', calls, runs, outcomes, slept, r :|
        && History(op, request, s, s', d, d', calls, runs, outcomes) && RetryRun(outcomes, slept, r)
        && Inv(s') && r.Ok? && ReportOf(r.value) == report;
      HandleGuarantee(op, request, s, s', d, d', calls, runs, outcomes, slept, r);
    }

    /** Two callers that are handed one and the same report, by whatever handles and transports,
        asked with the same data and with no two different levels: a report cannot be passed off
        as the answer to somebody else's nonce. */
    lemma OneReportOneNonce(other: Firmware, op1: Op, r1: ReportRequest, op2: Op, r2: ReportRequest,
                            report: AttestationReport)
      requires HandsOut(op1, r1, report) && other.HandsOut(op2, r2, report)
      ensures r1.data == r2.data
      ensures r1.vmpl.Some? && r2.vmpl.Some? ==> r1 == r2
    {
      HandedOutAnswers(op1, r1, report);
      other.HandedOutAnswers(op2, r2, report);
    }

    // ----- The public operations -----

    method ReportWith(request: ReportRequest)
      returns (r: Result<AttestationReport>, slept: seq<nat>,
               ghost outcomes: seq<Result<Answer>>, ghost calls: seq<nat>, ghost runs: seq<Blobs>)
      requires Valid()
      modifies Parts()
      ensures Valid()
      ensures RetryRun(outcomes, slept, AsPlain(r))
      ensures History(PlainReport, request, old(Machine()), Machine(), old(Issued()), Issued(), calls, runs, outcomes)
      ensures Persisted(outcomes, slept, r)
      ensures ReportSettled(request, old(Machine()), Machine(), |old(Issued())|, calls, runs, |outcomes|, r)
      ensures r.Ok? ==> Answers(request, r.value)
      ensures r == Err(NoBackend) <==> !Routed()
      ensures r == Err(Raced) ==> |calls| == 3 && WasDisturbed(old(Machine()), Machine(), calls[2])
      ensures old(Issued()) <= Issued() && |Issued()| <= |old(Issued())| + 3
      ensures transport == IoctlTransport && ioctl != null ==> |Issued()| == |old(Issued())| + |outcomes|
    {
      var answer;
      answer, slept, outcomes, calls, runs := Retrying(PlainReport, request);
      MachineInv();
      ghost var s, d := old(Machine()), old(Issued());
      HandleGuarantee(PlainReport, request, s, Machine(), d, Issued(), calls, runs, outcomes, slept, answer);
      HandleSpend(PlainReport, request, s, Machine(), d, Issued(), calls, runs, outcomes, slept, answer);
      r := match answer case Ok(a) => Ok(ReportOf(a)) case Err(e) => Err(e);
      PlainComesBack(request, s, Machine(), d, Issued(), calls, runs, outcomes, slept, r);
    }

    method ExtendedReportWith(request: ReportRequest)
      returns (r: Result<ExtendedReport>, slept: seq<nat>,
               ghost outcomes: seq<Result<Answer>>, ghost calls: seq<nat>, ghost runs: seq<Blobs>)
      requires Valid()
      modifies Parts()
      ensures Valid()
      ensures RetryRun(outcomes, slept, AsFull(r))
      ensures History(FullReport, request, old(Machine()), Machine(), old(Issued()), Issued(), calls, runs, outcomes)
      ensures Persisted(outcomes, slept, r)
      ensures ExtendedSettled(request, old(Machine()), Machine(), StartOf(request, |old(Issued())|, |outcomes| - 1),
                              calls, runs, |outcomes|, r)
      ensures r.Ok? ==> Answers(request, r.value.report)
      ensures r.Ok? ==>
                MadeOf(request, Machine(), calls, StartOf(request, |old(Issued())|, |outcomes| - 1), r.value)
      ensures r == Err(NoBackend) <==> !Routed()
      ensures r == Err(Raced) ==> |calls| == 3 && WasDisturbed(old(Machine()), Machine(), calls[2])
      ensures old(Issued()) <= Issued() && |Issued()| <= |old(Issued())| + 6
    {
      var answer;
      answer, slept, outcomes, calls, runs := Retrying(FullReport, request);
      MachineInv();
      ghost var s, d := old(Machine()), old(Issued());
      HandleGuarantee(FullReport, request, s, Machine(), d, Issued(), calls, runs, outcomes, slept, answer);
      HandleSpend(FullReport, request, s, Machine(), d, Issued(), calls, runs, outcomes, slept, answer);
      r := match answer case Ok(a) => Ok(a.extended) case Err(e) => Err(e);
      FullComesBack(request, s, Machine(), d, Issued(), calls, runs, outcomes, slept, r);
      if r.Ok? {
        var p := StartOf(request, |d|, |outcomes| - 1);
        SettledIsMadeOf(request, s, Machine(), p, calls, runs, |outcomes|, r.value);
      }
    }

    lemma MachineInv()
      requires Valid()
      ensures Inv(Machine())
    {
      EverySchedule(0, []);
      if configfs != null {
        configfs.kernel.Sound();
      }
    }

    /** Key derivation is never retried: at most one guest request, and none at all for a level
        the architecture does not define or without the device. */
    method DeriveKey(request: Key.KeyRequest) returns (r: Result<seq<byte>>)
      modifies Parts()
      ensures ioctl == null ==>
                && r == Err(Unsupported("key derivation needs /dev/sev-guest, which is not open"))
                && Issued() == old(Issued())
      ensures ioctl != null && request.vmpl > 3 ==>
                r == Err(InvalidArgument("vmpl must be 0..=3")) && Issued() == old(Issued())
      ensures ioctl != null && request.vmpl <= 3 ==>
                && Issued() == old(Issued())
                               + [I.Issued(I.SNP_GET_DERIVED_KEY, ioctl.msgVersion, Key.RequestFields(request))]
                && r == I.DeriveOutcome(ioctl.script(|old(Issued())|))
      ensures Machine() == old(Machine())
    {
      if ioctl == null {
        return Err(Unsupported("key derivation needs /dev/sev-guest, which is not open"));
      }
      r := ioctl.DeriveKey(request);
    }
  }

  /** Call `id` began after s and ended with foreign writes seen on its entry, or with a
      generation that was no number. */
  ghost predicate WasDisturbed(s: World, s': World, id: nat) {
    && id !in s.calls && id in s'.calls && s'.calls[id].pc == Done
    && s'.calls[id].seen.Some? && (s'.calls[id].seen.value > 0 || s'.calls[id].garbled)
  }

  lemma RunOutcome(op: Op, request: ReportRequest, s: World, s': World, call: nat, blobs: Blobs)
    requires Inv(s') && C.EndedWith(s, s', call, RunTask(request), C.Settlement(blobs))
    ensures var r := FromBlobs(op, request, blobs);
            && (r.Ok? ==> Answers(request, ReportOf(r.value)) && (op == PlainReport <==> r.value.Plain?))
            && r != Err(NoBackend)
            && (r == Err(Raced) ==> WasDisturbed(s, s', call))
  {
    C.ReportsAreOwnAnswers(s', call, request, blobs);
  }

  // ----- Opening -----

  /** What looking for the configfs transport came to: a call of its own read the provider, if
      the root was a directory to begin with. */
  ghost predicate Probed(s: World, s': World, isDir: bool, text: Result<string>, call: nat) {
    && C.Kept(s, s')
    && (isDir ==> C.EndedWith(s, s', call, TextTask, C.TextSettlement(text)))
    && (!isDir ==> s' == s)
  }

  predicate Serves(isDir: bool, text: Result<string>) {
    isDir && text.Ok? && Decimal.Trim(text.value) == "sev_guest"
  }

  /** Why a configfs root that does not serve reports was refused. */
  function Refusal(isDir: bool, text: Result<string>): Error {
    if !isDir then NoBackend
    else
      match text
      case Err(e) => e
      case Ok(t) => WrongProvider(Decimal.Trim(t))
  }

  /** `Firmware::open`: whatever can be opened is; configfs is preferred for reports, and the
      handle is always routed. */
  method Open(kernel: C.Kernel, isDir: bool, device: Result<I.SevGuest>)
    returns (r: Result<Firmware>, ghost text: Result<string>, ghost call: nat)
    requires kernel.Valid()
    modifies kernel
    ensures kernel.Valid() && Probed(old(kernel.s), kernel.s, isDir, text, call)
    ensures r.Ok? <==> Serves(isDir, text) || device.Ok?
    ensures r.Err? ==> r.error == NoBackend
    ensures r.Ok? ==>
              var handle := r.value;
              && handle.Routed() && handle.Valid()
              && (handle.transport == ConfigFsTransport <==> Serves(isDir, text))
              && (handle.configfs != null <==> Serves(isDir, text))
              && (handle.configfs != null ==> handle.configfs.kernel == kernel)
              && handle.ioctl == match device case Ok(d) => d case Err(_) => null
  {
    var backend, said, id := C.OpenAt(kernel, isDir);
    text, call := said, id;
    var configfs: C.ConfigFs? := if backend.Ok? then backend.value else null;
    var ioctl: I.SevGuest? := if device.Ok? then device.value else null;
    if configfs != null {
      var handle := new Firmware(ConfigFsTransport, configfs, ioctl);
      r := Ok(handle);
    } else if ioctl != null {
      var handle := new Firmware(IoctlTransport, configfs, ioctl);
      r := Ok(handle);
    } else {
      r := Err(NoBackend);
    }
  }

  /** `Firmware::open_with`: exactly one transport, or the reason it would not open. */
  method OpenWith(transport: Transport, kernel: C.Kernel, isDir: bool, device: Result<I.SevGuest>)
    returns (r: Result<Firmware>, ghost text: Result<string>, ghost call: nat)
    requires kernel.Valid()
    modifies kernel
    ensures kernel.Valid()
    ensures r.Ok? ==> r.value.Routed() && r.value.Valid() && r.value.transport == transport
    ensures transport == ConfigFsTransport ==>
              && Probed(old(kernel.s), kernel.s, isDir, text, call)
              && (r.Ok? <==> Serves(isDir, text))
              && (r.Ok? ==> r.value.configfs.kernel == kernel && r.value.ioctl == null)
              && (r.Err? ==> r.error == Refusal(isDir, text))
    ensures transport == IoctlTransport ==>
              && kernel.s == old(kernel.s)
              && (r.Ok? <==> device.Ok?)
              && (r.Ok? ==> r.value.ioctl == device.value && r.value.configfs == null)
              && (r.Err? ==> r.error == device.error)
  {
    text, call := Ok(""), 0;
    match transport {
      case ConfigFsTransport =>
        var backend, said, id := C.OpenAt(kernel, isDir);
        text, call := said, id;
        if backend.Err? {
          r := Err(backend.error);
          return;
        }
        var handle := new Firmware(transport, backend.value, null);
        r := Ok(handle);
      case IoctlTransport =>
        if device.Err? {
          r := Err(device.error);
          return;
        }
        var handle := new Firmware(transport, null, device.value);
        r := Ok(handle);
    }
  }
}
