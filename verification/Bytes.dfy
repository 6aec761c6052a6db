/** Fixed-width integers, byte strings and the little-endian readings of them
    that every codec of the crate is built from. */
module Bytes {

  type byte = x: int | 0 <= x < 0x100
  type u32 = x: int | 0 <= x < 0x1_0000_0000
  type u64 = x: int | 0 <= x < 0x1_0000_0000_0000_0000

  datatype Option<+T> = None | Some(value: T) {
    function UnwrapOr(default: T): T {
      if Some? then value else default
    }
  }

  function Zeros(n: nat): (s: seq<byte>)
    ensures |s| == n
  {
    seq(n, i => 0)
  }

  // ----- Slices -----

  lemma SlicePrefix(blob: seq<byte>, suffix: seq<byte>, from: nat, to: nat)
    requires from <= to <= |blob|
    ensures (blob + suffix)[from..to] == blob[from..to]
  {
  }

  lemma SliceOfSlice(s: seq<byte>, at: nat, n: nat, from: nat, to: nat)
    requires at + n <= |s| && from <= to <= n
    ensures s[at..at + n][from..to] == s[at + from..at + to]
  {
    var part, whole := s[at..at + n][from..to], s[at + from..at + to];
    assert forall i :: 0 <= i < to - from ==> part[i] == whole[i];
  }

  /** The number of values that n bytes can hold. */
  function Pow256(n: nat): (p: nat)
    ensures p > 0
  {
    if n == 0 then 1 else 0x100 * Pow256(n - 1)
  }

  lemma {:induction false} Pow256Sum(m: nat, n: nat)
    ensures Pow256(m + n) == Pow256(m) * Pow256(n)
  {
    if m != 0 {
      Pow256Sum(m - 1, n);
      ScaleProduct(Pow256(m - 1), Pow256(n));
    }
  }

  lemma Widths()
    ensures Pow256(3) == 0x100_0000
    ensures Pow256(4) == 0x1_0000_0000
    ensures Pow256(8) == 0x1_0000_0000_0000_0000
  {
    assert Pow256(2) == 0x1_0000;
    assert Pow256(5) == 0x100 * Pow256(4);
    assert Pow256(6) == 0x100 * Pow256(5);
    assert Pow256(7) == 0x100 * Pow256(6);
  }

  // ----- Little-endian and big-endian readings -----

  function LeValue(s: seq<byte>): nat
  {
    if s == [] then 0 else s[0] + 0x100 * LeValue(s[1..])
  }

  function LeBytes(v: nat, n: nat): (s: seq<byte>)
    ensures |s| == n
  {
    if n == 0 then [] else [v % 0x100] + LeBytes(v / 0x100, n - 1)
  }

  function BeValue(s: seq<byte>): nat
  {
    if s == [] then 0 else 0x100 * BeValue(s[..|s| - 1]) + s[|s| - 1]
  }

  function Reversed(s: seq<byte>): (r: seq<byte>)
    ensures |r| == |s|
    ensures forall i :: 0 <= i < |s| ==> r[i] == s[|s| - 1 - i]
  {
    seq(|s|, i requires 0 <= i < |s| => s[|s| - 1 - i])
  }

  lemma {:induction false} LeValueBound(s: seq<byte>)
    ensures LeValue(s) < Pow256(|s|)
  {
    if s != [] {
      LeValueBound(s[1..]);
    }
  }

  lemma {:induction false} LeBytesOfValue(s: seq<byte>)
    ensures LeBytes(LeValue(s), |s|) == s
  {
    if s != [] {
      LeBytesOfValue(s[1..]);
      assert LeValue(s) % 0x100 == s[0] && LeValue(s) / 0x100 == LeValue(s[1..]);
    }
  }

  lemma {:induction false} LeValueOfBytes(v: nat, n: nat)
    requires v < Pow256(n)
    ensures LeValue(LeBytes(v, n)) == v
  {
    if n != 0 {
      LeValueOfBytes(v / 0x100, n - 1);
      assert LeBytes(v, n)[1..] == LeBytes(v / 0x100, n - 1);
    }
  }

  lemma ScaleProduct(p: nat, q: nat)
    ensures (0x100 * p) * q == 0x100 * (p * q)
  {
  }

  lemma {:induction false} LeValueConcat(a: seq<byte>, b: seq<byte>)
    ensures LeValue(a + b) == LeValue(a) + Pow256(|a|) * LeValue(b)
  {
    if a == [] {
      assert a + b == b;
    } else {
      LeValueConcat(a[1..], b);
      assert (a + b)[1..] == a[1..] + b;
      ScaleProduct(Pow256(|a| - 1), LeValue(b));
    }
  }

  lemma LeValueInjective(a: seq<byte>, b: seq<byte>)
    requires |a| == |b| && LeValue(a) == LeValue(b)
    ensures a == b
  {
    LeBytesOfValue(a);
    LeBytesOfValue(b);
  }

  /** A byte string reads as zero exactly when it is all zero bytes. */
  lemma {:induction false} LeValueZero(s: seq<byte>)
    ensures LeValue(s) == 0 <==> s == Zeros(|s|)
  {
    if s != [] {
      LeValueZero(s[1..]);
      if LeValue(s) == 0 {
        assert forall i :: 0 < i < |s| ==> s[i] == s[1..][i - 1];
      }
      if s == Zeros(|s|) {
        assert s[1..] == Zeros(|s| - 1);
      }
    }
  }

  /** Reversing a byte string turns its little-endian reading into its big-endian one. */
  lemma {:induction false} BeValueOfReversed(s: seq<byte>)
    ensures BeValue(Reversed(s)) == LeValue(s)
  {
    if s != [] {
      var r := Reversed(s);
      BeValueOfReversed(s[1..]);
      assert r[..|r| - 1] == Reversed(s[1..]);
    }
  }

  lemma BeValueInjective(a: seq<byte>, b: seq<byte>)
    requires |a| == |b| && BeValue(a) == BeValue(b)
    ensures a == b
  {
    assert Reversed(Reversed(a)) == a && Reversed(Reversed(b)) == b;
    BeValueOfReversed(Reversed(a));
    BeValueOfReversed(Reversed(b));
    LeValueInjective(Reversed(a), Reversed(b));
  }

  /** Little-endian readings are monotone in every byte. */
  lemma {:induction false} LeValueMonotone(a: seq<byte>, b: seq<byte>)
    requires |a| == |b|
    requires forall i :: 0 <= i < |a| ==> a[i] <= b[i]
    ensures LeValue(a) <= LeValue(b)
    ensures LeValue(a) == LeValue(b) <==> a == b
  {
    if a != [] {
      LeValueMonotone(a[1..], b[1..]);
      assert a == [a[0]] + a[1..] && b == [b[0]] + b[1..];
    }
  }

  // ----- Total reads out of untrusted buffers (src/lib.rs) -----

  function BytesAt(buf: seq<byte>, offset: nat, n: nat): (r: Option<seq<byte>>)
    ensures r.Some? ==> |r.value| == n
  {
    if offset + n <= |buf| then Some(buf[offset..offset + n]) else None
  }

  function LeU32(s: seq<byte>): (v: u32)
    requires |s| == 4
  {
    LeValueBound(s);
    Widths();
    LeValue(s)
  }

  function LeU64(s: seq<byte>): (v: u64)
    requires |s| == 8
  {
    LeValueBound(s);
    Widths();
    LeValue(s)
  }

  function U32At(buf: seq<byte>, offset: nat): Option<u32>
  {
    match BytesAt(buf, offset, 4)
    case None => None
    case Some(b) => Some(LeU32(b))
  }

  /** A bounded read yields the very bytes it names, and nothing exactly when they are not all
      inside the buffer. */
  lemma BytesAtIsExact(head: seq<byte>, s: seq<byte>, tail: seq<byte>, offset: nat, n: nat)
    ensures BytesAt(head + s + tail, |head|, |s|) == Some(s)
    ensures BytesAt(s, offset, n) == None <==> offset + n > |s|
  {
    assert (head + s + tail)[|head|..|head| + |s|] == s;
  }

  /** What `u32_at` promises: it reads back exactly what `to_le_bytes` wrote there. */
  lemma U32AtReadsBack(head: seq<byte>, v: u32, tail: seq<byte>)
    ensures U32At(head + LeBytes(v, 4) + tail, |head|) == Some(v)
  {
    var buf := head + LeBytes(v, 4) + tail;
    assert buf[|head|..|head| + 4] == LeBytes(v, 4);
    Widths();
    LeValueOfBytes(v, 4);
  }
}
