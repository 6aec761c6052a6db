/** Key requests: the builder and its 40-byte wire form (src/key.rs). */
module Key {
  import opened Bytes
  import opened Errors

  datatype RootKey = Vcek | Vmrk {
    function AsRaw(): u32 {
      match this
      case Vcek => 0
      case Vmrk => 1
    }
  }

  // ----- The field mask -----

  /** Bit i of x, counted from the least significant. */
  predicate Bit(x: nat, i: nat) {
    if i == 0 then x % 2 == 1 else Bit(x / 2, i - 1)
  }

  /** `x | 1 << i` */
  function SetBit(x: nat, i: nat): nat {
    if i == 0 then (if x % 2 == 1 then x else x + 1)
    else 2 * SetBit(x / 2, i - 1) + x % 2
  }

  function Pow2(n: nat): (p: nat)
    ensures p > 0
  {
    if n == 0 then 1 else 2 * Pow2(n - 1)
  }

  lemma {:induction false} SetBitBits(x: nat, i: nat, j: nat)
    ensures Bit(SetBit(x, i), j) <==> i == j || Bit(x, j)
  {
    if i > 0 && j > 0 {
      assert SetBit(x, i) / 2 == SetBit(x / 2, i - 1);
      SetBitBits(x / 2, i - 1, j - 1);
    }
  }

  lemma HalfBound(x: nat, half: nat, p: nat)
    requires half < p
    ensures 2 * half + x % 2 < 2 * p
  {
  }

  lemma {:induction false} SetBitBound(x: nat, i: nat, n: nat)
    requires i < n && x < Pow2(n)
    ensures SetBit(x, i) < Pow2(n)
  {
    assert x == 2 * (x / 2) + x % 2;
    if i > 0 {
      SetBitBound(x / 2, i - 1, n - 1);
      HalfBound(x, SetBit(x / 2, i - 1), Pow2(n - 1));
    } else {
      HalfBound(1, x / 2, Pow2(n - 1));
    }
  }

  lemma {:induction false} Pow2Sum(m: nat, n: nat)
    ensures Pow2(m + n) == Pow2(m) * Pow2(n)
  {
    if m > 0 {
      Pow2Sum(m - 1, n);
      assert Pow2(m) * Pow2(n) == 2 * (Pow2(m - 1) * Pow2(n));
    }
  }

  lemma Pow2Widths()
    ensures Pow2(7) == 0x80 && Pow2(64) == 0x1_0000_0000_0000_0000
  {
    assert Pow2(8) == 0x100;
    Pow2Sum(8, 8);
    assert Pow2(16) == 0x1_0000;
    Pow2Sum(16, 16);
    assert Pow2(32) == 0x1_0000_0000;
    Pow2Sum(32, 32);
  }

  lemma {:induction false} HighBitsClear(x: nat, n: nat, j: nat)
    requires x < Pow2(n) && n <= j
    ensures !Bit(x, j)
  {
    if n > 0 {
      HighBitsClear(x / 2, n - 1, j - 1);
    } else if j > 0 {
      HighBitsClear(x / 2, 0, j - 1);
    }
  }

  /** Numbers below 2^n with the same low n bits are equal. */
  lemma {:induction false} BitsDetermine(x: nat, y: nat, n: nat)
    requires x < Pow2(n) && y < Pow2(n)
    requires forall i :: 0 <= i < n ==> (Bit(x, i) <==> Bit(y, i))
    ensures x == y
  {
    if n > 0 {
      assert Bit(x, 0) <==> Bit(y, 0);
      forall i | 0 <= i < n - 1
        ensures Bit(x / 2, i) <==> Bit(y / 2, i)
      {
        assert Bit(x, i + 1) <==> Bit(y, i + 1);
      }
      BitsDetermine(x / 2, y / 2, n - 1);
    }
  }

  // ----- The builder -----

  const MAX_VMPL := 3

  datatype KeyRequest = KeyRequest(
    rootKey: RootKey, fields: u64, vmpl: u32, guestSvn: u32, tcbVersion: u64, launchMitVector: u64)
  {
    function With(i: nat): (r: KeyRequest)
      requires i < 64
    {
      Pow2Widths();
      SetBitBound(fields, i, 64);
      this.(fields := SetBit(fields, i))
    }

    function Validate(): Result<()> {
      if vmpl > MAX_VMPL then Err(InvalidArgument("vmpl must be 0..=3")) else Ok(())
    }
  }

  const NEW_REQUEST := KeyRequest(Vcek, 0, 0, 0, 0, 0)

  /** One builder method call. */
  datatype Call =
    | SetRootKey(root: RootKey)
    | SetVmpl(vmpl: u32)
    | BindGuestPolicy
    | BindImageId
    | BindFamilyId
    | BindMeasurement
    | BindGuestSvn(svn: u32)
    | BindTcb(tcb: u64)
    | BindLaunchMitVector(vector: u64)

  function Apply(r: KeyRequest, call: Call): KeyRequest {
    match call
    case SetRootKey(root) => r.(rootKey := root)
    case SetVmpl(vmpl) => r.(vmpl := vmpl)
    case BindGuestPolicy => r.With(0)
    case BindImageId => r.With(1)
    case BindFamilyId => r.With(2)
    case BindMeasurement => r.With(3)
    case BindGuestSvn(svn) => r.With(4).(guestSvn := svn)
    case BindTcb(tcb) => r.With(5).(tcbVersion := tcb)
    case BindLaunchMitVector(vector) => r.With(6).(launchMitVector := vector)
  }

  /** The request after a run of builder calls from `new`. */
  function Built(calls: seq<Call>): KeyRequest {
    if calls == [] then NEW_REQUEST
    else Apply(Built(calls[..|calls| - 1]), calls[|calls| - 1])
  }

  /** The field bit a call binds, if it is a bind. */
  function BoundBy(call: Call): Option<nat> {
    match call
    case SetRootKey(_) | SetVmpl(_) => None
    case BindGuestPolicy => Some(0)
    case BindImageId => Some(1)
    case BindFamilyId => Some(2)
    case BindMeasurement => Some(3)
    case BindGuestSvn(_) => Some(4)
    case BindTcb(_) => Some(5)
    case BindLaunchMitVector(_) => Some(6)
  }

  predicate Binds(calls: seq<Call>, i: nat) {
    exists k :: 0 <= k < |calls| && BoundBy(calls[k]) == Some(i)
  }

  /** The value slots a call can set: 0 root key, 1 VMPL, 4 SVN, 5 TCB, 6 mitigation vector. */
  function Sets(call: Call, slot: nat): Option<u64> {
    match call
    case SetRootKey(root) => if slot == 0 then Some(root.AsRaw()) else None
    case SetVmpl(vmpl) => if slot == 1 then Some(vmpl) else None
    case BindGuestSvn(svn) => if slot == 4 then Some(svn) else None
    case BindTcb(tcb) => if slot == 5 then Some(tcb) else None
    case BindLaunchMitVector(vector) => if slot == 6 then Some(vector) else None
    case _ => None
  }

  /** The last argument given for a slot, or zero if none was. */
  function LastArgument(calls: seq<Call>, slot: nat): u64 {
    if calls == [] then 0
    else
      match Sets(calls[|calls| - 1], slot)
      case Some(v) => v
      case None => LastArgument(calls[..|calls| - 1], slot)
  }

  lemma BindsStep(calls: seq<Call>, i: nat)
    requires calls != []
    ensures Binds(calls, i) <==> Binds(calls[..|calls| - 1], i) || BoundBy(calls[|calls| - 1]) == Some(i)
  {
    var most := calls[..|calls| - 1];
    if Binds(most, i) {
      var k :| 0 <= k < |most| && BoundBy(most[k]) == Some(i);
      assert BoundBy(calls[k]) == Some(i);
    }
    if Binds(calls, i) {
      var k :| 0 <= k < |calls| && BoundBy(calls[k]) == Some(i);
      assert k < |most| ==> BoundBy(most[k]) == Some(i);
    }
  }

  lemma ApplyMask(r: KeyRequest, call: Call)
    ensures Apply(r, call).fields == match BoundBy(call)
                                     case None => r.fields
                                     case Some(i) => SetBit(r.fields, i)
  {
  }

  /** After any run of builder calls, bit i of the mask is set exactly when a call bound it. */
  lemma {:induction false} MaskRecordsBinds(calls: seq<Call>, i: nat)
    ensures Bit(Built(calls).fields, i) <==> Binds(calls, i)
  {
    if calls == [] {
      HighBitsClear(0, 0, i);
    } else {
      var most, last := calls[..|calls| - 1], calls[|calls| - 1];
      MaskRecordsBinds(most, i);
      BindsStep(calls, i);
      ApplyMask(Built(most), last);
      if BoundBy(last).Some? {
        SetBitBits(Built(most).fields, BoundBy(last).value, i);
      }
    }
  }

  /** No bit above 6 is ever set. */
  lemma {:induction false} MaskIsSevenBits(calls: seq<Call>)
    ensures Built(calls).fields < 0x80
    ensures forall i :: i > 6 ==> !Bit(Built(calls).fields, i)
  {
    Pow2Widths();
    if calls != [] {
      var most, last := calls[..|calls| - 1], calls[|calls| - 1];
      MaskIsSevenBits(most);
      ApplyMask(Built(most), last);
      if BoundBy(last).Some? {
        SetBitBound(Built(most).fields, BoundBy(last).value, 7);
      }
    }
    forall i | i > 6
      ensures !Bit(Built(calls).fields, i)
    {
      HighBitsClear(Built(calls).fields, 7, i);
    }
  }

  /** Each value slot holds the last argument given for it, or zero. */
  lemma {:induction false} SlotsHoldLastArguments(calls: seq<Call>)
    ensures Built(calls).rootKey.AsRaw() == LastArgument(calls, 0)
    ensures Built(calls).vmpl == LastArgument(calls, 1)
    ensures Built(calls).guestSvn == LastArgument(calls, 4)
    ensures Built(calls).tcbVersion == LastArgument(calls, 5)
    ensures Built(calls).launchMitVector == LastArgument(calls, 6)
  {
    if calls != [] {
      SlotsHoldLastArguments(calls[..|calls| - 1]);
    }
  }

  // ----- The wire form -----

  function RequestFields(r: KeyRequest): (s: seq<byte>)
    ensures |s| == 40
  {
    LeBytes(r.rootKey.AsRaw(), 4) + Zeros(4) + LeBytes(r.fields, 8) + LeBytes(r.vmpl, 4)
    + LeBytes(r.guestSvn, 4) + LeBytes(r.tcbVersion, 8) + LeBytes(r.launchMitVector, 8)
  }

  /** `to_wire`: the chained fields copied into a zeroed array of 40 bytes. */
  method ToWire(r: KeyRequest) returns (out: array<byte>)
    ensures fresh(out) && out[..] == RequestFields(r)
  {
    var fields := RequestFields(r);
    out := new byte[40](i => 0);
    var i := 0;
    while i < out.Length && i < |fields|
      invariant 0 <= i <= 40
      invariant out[..i] == fields[..i]
    {
      out[i] := fields[i];
      i := i + 1;
    }
  }

  /** Reads a request back out of 40 bytes, ignoring the reserved word. */
  function FromWire(w: seq<byte>): KeyRequest
    requires |w| == 40
  {
    KeyRequest(if LeU32(w[..4]) == 0 then Vcek else Vmrk, LeU64(w[8..16]), LeU32(w[16..20]),
               LeU32(w[20..24]), LeU64(w[24..32]), LeU64(w[32..40]))
  }

  lemma WirePieces(r: KeyRequest)
    ensures var w := RequestFields(r);
            && w[..4] == LeBytes(r.rootKey.AsRaw(), 4) && w[4..8] == Zeros(4)
            && w[8..16] == LeBytes(r.fields, 8) && w[16..20] == LeBytes(r.vmpl, 4)
            && w[20..24] == LeBytes(r.guestSvn, 4) && w[24..32] == LeBytes(r.tcbVersion, 8)
            && w[32..40] == LeBytes(r.launchMitVector, 8)
  {
    var w, last := RequestFields(r), LeBytes(r.launchMitVector, 8);
    assert w[32..40] == w[32..] == last;
  }

  lemma WordReads(v: u32, w: u64)
    ensures LeValue(LeBytes(v, 4)) == v && LeValue(LeBytes(w, 8)) == w
  {
    Widths();
    LeValueOfBytes(v, 4);
    LeValueOfBytes(w, 8);
  }

  /** Every field of a request can be read back from the wire, and the reserved word is zero. */
  lemma WireRoundTrip(r: KeyRequest)
    ensures FromWire(RequestFields(r)) == r
    ensures RequestFields(r)[4..8] == Zeros(4)
  {
    WirePieces(r);
    WordReads(r.rootKey.AsRaw(), r.fields);
    WordReads(r.vmpl, r.tcbVersion);
    WordReads(r.guestSvn, r.launchMitVector);
  }

  /** Exactly the 40-byte strings with a known root key and a zero reserved word are requests. */
  lemma WireImages(w: seq<byte>)
    requires |w| == 40
    ensures RequestFields(FromWire(w)) == w <==> LeU32(w[..4]) <= 1 && w[4..8] == Zeros(4)
  {
    WireRoundTrip(FromWire(w));
    WirePieces(FromWire(w));
    WordReads(FromWire(w).rootKey.AsRaw(), 0);
    if LeU32(w[..4]) <= 1 && w[4..8] == Zeros(4) {
      WireRebuilt(w);
    }
  }

  lemma WireRebuilt(w: seq<byte>)
    requires |w| == 40 && LeU32(w[..4]) <= 1 && w[4..8] == Zeros(4)
    ensures RequestFields(FromWire(w)) == w
  {
    LeBytesOfValue(w[..4]);
    LeBytesOfValue(w[8..16]);
    LeBytesOfValue(w[16..20]);
    LeBytesOfValue(w[20..24]);
    LeBytesOfValue(w[24..32]);
    LeBytesOfValue(w[32..40]);
    assert FromWire(w).rootKey.AsRaw() == LeValue(w[..4]);
    Concat7(w);
  }

  lemma Concat7(w: seq<byte>)
    requires |w| == 40
    ensures w == w[..4] + w[4..8] + w[8..16] + w[16..20] + w[20..24] + w[24..32] + w[32..40]
  {
  }

  /** What a kernel that predates the mitigation vector copies tells two requests apart unless
      they differ in that vector alone. */
  lemma OldKernelsSeeAllButTheVector(a: KeyRequest, b: KeyRequest)
    ensures RequestFields(a)[..32] == RequestFields(b)[..32]
            <==> a.(launchMitVector := 0) == b.(launchMitVector := 0)
  {
    FirstPart(a);
    FirstPart(b);
    if RequestFields(a)[..32] == RequestFields(b)[..32] {
      WireRoundTrip(a.(launchMitVector := 0));
      WireRoundTrip(b.(launchMitVector := 0));
    }
  }

  lemma FirstPart(r: KeyRequest)
    ensures RequestFields(r)[..32] == RequestFields(r.(launchMitVector := 0))[..32]
    ensures RequestFields(r.(launchMitVector := 0))
         == RequestFields(r)[..32] + LeBytes(0, 8)
  {
    var z := RequestFields(r.(launchMitVector := 0));
    assert RequestFields(r)[..32] == z[..32];
    assert z == z[..32] + z[32..];
  }

  predicate SameArguments(a: seq<Call>, b: seq<Call>) {
    && (forall i :: 0 <= i < 7 ==> (Binds(a, i) <==> Binds(b, i)))
    && (forall slot :: 0 <= slot < 7 ==> LastArgument(a, slot) == LastArgument(b, slot))
  }

  /** Two runs of the builder put the same bytes on the wire exactly when they bind the same
      facts and end with the same arguments, whatever the order and repetition of the calls. */
  lemma SameWireExactly(a: seq<Call>, b: seq<Call>)
    ensures RequestFields(Built(a)) == RequestFields(Built(b)) <==> SameArguments(a, b)
  {
    WireRoundTrip(Built(a));
    WireRoundTrip(Built(b));
    SlotsHoldLastArguments(a);
    SlotsHoldLastArguments(b);
    if SameArguments(a, b) {
      SameMask(a, b);
    }
    if Built(a) == Built(b) {
      SameRecords(a, b);
    }
  }

  lemma SameMask(a: seq<Call>, b: seq<Call>)
    requires forall i :: 0 <= i < 7 ==> (Binds(a, i) <==> Binds(b, i))
    ensures Built(a).fields == Built(b).fields
  {
    MaskIsSevenBits(a);
    MaskIsSevenBits(b);
    Pow2Widths();
    forall i | 0 <= i < 7
      ensures Bit(Built(a).fields, i) <==> Bit(Built(b).fields, i)
    {
      MaskRecordsBinds(a, i);
      MaskRecordsBinds(b, i);
    }
    BitsDetermine(Built(a).fields, Built(b).fields, 7);
  }

  lemma SameRecords(a: seq<Call>, b: seq<Call>)
    requires Built(a) == Built(b)
    ensures SameArguments(a, b)
  {
    forall i | 0 <= i < 7
      ensures Binds(a, i) <==> Binds(b, i)
    {
      MaskRecordsBinds(a, i);
      MaskRecordsBinds(b, i);
    }
    SlotsHoldLastArguments(a);
    SlotsHoldLastArguments(b);
    NoOtherSlots(a);
    NoOtherSlots(b);
  }

  lemma {:induction false} NoOtherSlots(calls: seq<Call>)
    ensures LastArgument(calls, 2) == 0 && LastArgument(calls, 3) == 0
  {
    if calls != [] {
      NoOtherSlots(calls[..|calls| - 1]);
    }
  }
}
