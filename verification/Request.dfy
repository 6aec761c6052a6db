/** Report requests and the check that a report answers one (src/backend/mod.rs). */
module Request {
  import opened Bytes
  import opened Errors
  import opened Report

  type Data64 = s: seq<byte> | |s| == 64 witness seq(64, i => 0)

  datatype ReportRequest = ReportRequest(data: Data64, vmpl: Option<u32>)

  const WRONG_NONCE := Mismatch("report data is not the nonce that was requested")
  const WRONG_LEVEL := Mismatch("report was signed at a different privilege level")

  function VerifyAnswers(request: ReportRequest, report: AttestationReport): Result<()> {
    if report.Get(ReportData) != request.data then Err(WRONG_NONCE)
    else if request.vmpl.Some? && request.vmpl.value != report.U32(Vmpl) then Err(WRONG_LEVEL)
    else Ok(())
  }

  /** The report is an SEV-SNP report for this very request: a supported version, the 64 bytes
      asked for, and the privilege level asked for when one was. */
  predicate Answers(request: ReportRequest, report: AttestationReport) {
    && |report.raw| == 0x4A0
    && 2 <= LeValue(report.raw[0x00..0x04]) <= 16
    && report.raw[0x50..0x90] == request.data
    && (request.vmpl.Some? ==> LeValue(report.raw[0x30..0x34]) == request.vmpl.value)
  }

  /** What both transports do with the bytes they receive. */
  function Checked(request: ReportRequest, bytes: seq<byte>): Result<AttestationReport> {
    match ParseReport(bytes)
    case Err(e) => Err(e)
    case Ok(report) =>
      match VerifyAnswers(request, report)
      case Err(e) => Err(e)
      case Ok(_) => Ok(report)
  }

  /** A report comes out of received bytes exactly when they begin with one that answers the
      request. */
  lemma CheckedExactly(request: ReportRequest, bytes: seq<byte>, report: AttestationReport)
    ensures Checked(request, bytes) == Ok(report) <==> Answers(request, report) && report.raw <= bytes
  {
    ParseAcceptsExactlyReports(bytes, report);
  }

  /** Which error it is otherwise: length, version, data and level are looked at in that order. */
  lemma CheckedIsDecided(request: ReportRequest, bytes: seq<byte>)
    ensures |bytes| < 0x4A0 ==> Checked(request, bytes) == Err(Parse(TooShort("attestation report", 0x4A0, |bytes|)))
    ensures |bytes| >= 0x4A0 ==>
              var version, data, level := LeU32(bytes[0x00..0x04]), bytes[0x50..0x90], LeValue(bytes[0x30..0x34]);
              Checked(request, bytes) ==
              if !(2 <= version <= 16) then Err(Parse(UnsupportedReportVersion(version)))
              else if data != request.data then Err(Mismatch("report data is not the nonce that was requested"))
              else if request.vmpl != None && request.vmpl != Some(level)
              then Err(Mismatch("report was signed at a different privilege level"))
              else Ok(AttestationReport(bytes[..0x4A0]))
  {
    if |bytes| >= 0x4A0 {
      var raw := bytes[0..0x4A0];
      assert raw == bytes[..0x4A0];
      SliceOfSlice(bytes, 0, 0x4A0, 0x00, 0x04);
      SliceOfSlice(bytes, 0, 0x4A0, 0x50, 0x90);
      SliceOfSlice(bytes, 0, 0x4A0, 0x30, 0x34);
    }
  }

  lemma CheckedErrorsAreFinal(request: ReportRequest, bytes: seq<byte>)
    requires Checked(request, bytes).Err?
    ensures !IsTransient(Checked(request, bytes).error)
    ensures Checked(request, bytes).error.Parse? || Checked(request, bytes).error.Mismatch?
  {
  }
}
