/** The error values of the crate and the status split that drives retry and the
    certificate handshake (src/error.rs, `is_transient` of src/lib.rs). */
module Errors {
  import opened Bytes

  datatype IoKind =
    | ResourceBusy | WouldBlock | Interrupted | WriteZero | AlreadyExists | NotFound | OtherKind(code: int)

  /** Firmware statuses, kept by their code. */
  datatype FirmwareError = FirmwareStatus(code: u32)

  datatype VmmError = InvalidLen | Busy | UnknownVmm(code: u32)

  datatype ParseError =
    | TooShort(what: string, need: nat, got: nat)
    | UnsupportedReportVersion(version: u32)
    | CertTableOutOfBounds
    | CertTableTooLarge(what: string, limit: nat)

  datatype Error =
    | NoBackend
    | Unsupported(reason: string)
    | InvalidArgument(reason: string)
    | Firmware(status: FirmwareError)
    | Vmm(vmm: VmmError)
    | Parse(parse: ParseError)
    | Raced
    | Mismatch(reason: string)
    | WrongProvider(name: string)
    | Io(kind: IoKind)

  datatype Result<+T> = Ok(value: T) | Err(error: Error)

  function VmmFromRaw(code: u32): VmmError {
    if code == 1 then InvalidLen else if code == 2 then Busy else UnknownVmm(code)
  }

  function FromExitInfo2(exitinfo2: u64): Option<Error>
  {
    var b := LeBytes(exitinfo2, 8);
    var fw := LeU32(b[..4]);
    var vmm := LeU32(b[4..]);
    if vmm == 0 && fw == 0 then None
    else if vmm == 0 then Some(Firmware(FirmwareStatus(fw)))
    else Some(Vmm(VmmFromRaw(vmm)))
  }

  predicate IsTransient(e: Error) {
    || e.Raced?
    || e == Vmm(Busy)
    || (e.Io? && (e.kind.ResourceBusy? || e.kind.WouldBlock? || e.kind.Interrupted?))
  }

  /** The five errors that are worth asking again for. */
  predicate WorthAsking(e: Error) {
    e in {Raced, Vmm(Busy), Io(ResourceBusy), Io(WouldBlock), Io(Interrupted)}
  }

  lemma TransientIsWorthAsking(e: Error)
    ensures IsTransient(e) <==> WorthAsking(e)
  {
  }

  lemma SplitWord(b: seq<byte>)
    requires |b| == 8
    ensures LeValue(b) == LeU32(b[..4]) + 0x1_0000_0000 * LeU32(b[4..])
  {
    assert b == b[..4] + b[4..];
    LeValueConcat(b[..4], b[4..]);
    Widths();
  }

  /** The two halves of EXITINFO2 are its low and high 32 bits. */
  lemma ExitInfo2Halves(x: u64)
    ensures LeU32(LeBytes(x, 8)[..4]) == x % 0x1_0000_0000
    ensures LeU32(LeBytes(x, 8)[4..]) == x / 0x1_0000_0000
  {
    var b := LeBytes(x, 8);
    Widths();
    LeValueOfBytes(x, 8);
    SplitWord(b);
  }

  /** Which EXITINFO2 values mean success, a longer certificate buffer, a retry, or a
      firmware rejection: the hypervisor half decides whenever it is nonzero. */
  lemma ExitInfo2Meaning(x: u64)
    ensures FromExitInfo2(x) == None <==> x == 0
    ensures FromExitInfo2(x) == Some(Vmm(InvalidLen)) <==> 0x1_0000_0000 <= x < 0x2_0000_0000
    ensures FromExitInfo2(x) == Some(Vmm(Busy)) <==> 0x2_0000_0000 <= x < 0x3_0000_0000
    ensures x >= 0x3_0000_0000 ==> FromExitInfo2(x) == Some(Vmm(UnknownVmm(x / 0x1_0000_0000)))
    ensures FromExitInfo2(x) == Some(Firmware(FirmwareStatus(x % 0x1_0000_0000))) <==> 0 < x < 0x1_0000_0000
  {
    ExitInfo2Halves(x);
  }
}
