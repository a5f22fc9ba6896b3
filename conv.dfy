/**
 * x/utxo/utils/conv.go: the fixed-size varint buffers that feed the
 * account-output ID. `binary.PutUvarint` writes the unsigned LEB128 encoding
 * (7-bit groups, least significant first, continuation bit 0x80 on every
 * group but the last; DWARF v4 section 7.6) into a zeroed buffer of
 * `binary.MaxVarintLen64` bytes; `binary.PutVarint` first maps the signed
 * value through the zig-zag transform.
 */
module Conv {
  import opened Sdk

  const MaxVarintLen64: nat := 10

  /** Unsigned LEB128 of n. */
  function Uvarint(n: nat): (r: Bytes)
    decreases n
  {
    if n < 0x80 then [n] else [n % 0x80 + 0x80] + Uvarint(n / 0x80)
  }

  function Zeros(k: nat): (r: Bytes)
    ensures |r| == k && forall i :: 0 <= i < k ==> r[i] == 0
  {
    seq(k, _ => 0)
  }

  /** A group count that `n` fits in: 2^64 fits in ten 7-bit groups. */
  function Pow128(k: nat): nat {
    if k == 0 then 1 else 0x80 * Pow128(k - 1)
  }

  lemma {:induction false} UvarintFits(n: nat, k: nat)
    requires 1 <= k && n < Pow128(k)
    ensures |Uvarint(n)| <= k
    decreases k
  {
    if n >= 0x80 && k > 1 {
      UvarintFits(n / 0x80, k - 1);
    }
  }

  lemma UvarintLength(n: uint64)
    ensures 1 <= |Uvarint(n)| <= MaxVarintLen64
  {
    assert Pow128(10) == 0x40_0000_0000_0000_0000 by {
      assert Pow128(2) == 0x4000;
      assert Pow128(4) == 0x1000_0000;
      assert Pow128(6) == 0x400_0000_0000;
      assert Pow128(8) == 0x100_0000_0000_0000;
    }
    UvarintFits(n, 10);
  }

  /** The buffer `UInt64ToBytes(n)` returns: the varint, then zeros up to ten bytes. */
  function UInt64Bytes(n: uint64): (r: Bytes)
  {
    UvarintLength(n);
    Uvarint(n) + Zeros(MaxVarintLen64 - |Uvarint(n)|)
  }

  /** The zig-zag map `binary.PutVarint` applies: 0, -1, 1, -2, ... to 0, 1, 2, 3, ... */
  function ZigZag(n: int64): (z: uint64)
  {
    if n >= 0 then 2 * n else -2 * n - 1
  }

  /** The buffer `Int64ToBytes(n)` returns. */
  function Int64Bytes(n: int64): Bytes {
    UInt64Bytes(ZigZag(n))
  }

  /** Writing one 7-bit group with its continuation bit leaves the rest of
      the encoding to be written. */
  lemma GroupStep(before: Bytes, x: nat, n: nat)
    requires x >= 0x80 && before + Uvarint(x) == Uvarint(n)
    ensures (before + [x % 0x80 + 0x80]) + Uvarint(x / 0x80) == Uvarint(n)
  {
    assert Uvarint(x) == [x % 0x80 + 0x80] + Uvarint(x / 0x80);
  }

  /** Writing the last group into the zeroed buffer completes it. */
  lemma LastGroup(before: Bytes, x: nat, n: uint64, buf: Bytes)
    requires x < 0x80 && before + Uvarint(x) == Uvarint(n)
    requires |buf| == MaxVarintLen64 && |before| < |buf|
    requires buf[..|before| + 1] == before + [x]
    requires forall k :: |before| + 1 <= k < |buf| ==> buf[k] == 0
    ensures buf == UInt64Bytes(n)
  {
    assert Uvarint(x) == [x];
    assert buf == buf[..|before| + 1] + buf[|before| + 1..];
    assert buf[|before| + 1..] == Zeros(MaxVarintLen64 - |Uvarint(n)|);
  }

  /** `UInt64ToBytes`: allocate ten zero bytes and let `PutUvarint` write into them. */
  method UInt64ToBytes(n: uint64) returns (buf: Bytes)
    ensures buf == UInt64Bytes(n)
  {
    UvarintLength(n);
    var a := new byte[MaxVarintLen64](_ => 0);
    var x: nat := n;
    var i: nat := 0;
    while x >= 0x80
      invariant a.Length == MaxVarintLen64
      invariant i + |Uvarint(x)| == |Uvarint(n)|
      invariant a[..i] + Uvarint(x) == Uvarint(n)
      invariant forall k :: i <= k < a.Length ==> a[k] == 0
      decreases x
    {
      var group: byte := x % 0x80 + 0x80;
      ghost var before := a[..i];
      a[i] := group;
      assert a[..i + 1] == before + [group];
      GroupStep(before, x, n);
      x := x / 0x80;
      i := i + 1;
    }
    ghost var before := a[..i];
    a[i] := x;
    assert a[..][..i + 1] == before + [x];
    LastGroup(before, x, n, a[..]);
    buf := a[..];
  }

  /** The two's-complement reading of an int64 as a uint64. */
  function AsUInt64(n: int64): (u: uint64)
    ensures n >= 0 ==> u == n
    ensures n < 0 ==> u == n + TwoTo64
  {
    if n < 0 then n + TwoTo64 else n
  }

  /** `uint64(n) << 1`, complemented when n is negative, is the zig-zag of n. */
  lemma ShiftComplementIsZigZag(n: int64)
    ensures var shifted := AsUInt64(n) * 2 % TwoTo64;
      (if n < 0 then TwoTo64 - 1 - shifted else shifted) == ZigZag(n)
  {
    var u := AsUInt64(n);
    if n < 0 {
      var low := 2 * n + TwoTo64;
      assert 0 <= low < TwoTo64;
      assert u * 2 == low + TwoTo64;
      assert (low + TwoTo64) % TwoTo64 == low;
    } else {
      assert u * 2 < TwoTo64;
    }
  }

  /** `Int64ToBytes`: `PutVarint` computes `uint64(n) << 1`, complemented when n is negative. */
  method Int64ToBytes(n: int64) returns (buf: Bytes)
    ensures buf == Int64Bytes(n)
  {
    ShiftComplementIsZigZag(n);
    var ux: uint64 := AsUInt64(n) * 2 % TwoTo64;
    if n < 0 {
      ux := TwoTo64 - 1 - ux;
    }
    buf := UInt64ToBytes(ux);
  }

  /** Reading an unsigned varint back: the value of the groups up to the first byte below 0x80. */
  function ReadUvarint(b: Bytes): Option<nat> {
    if b == [] then None
    else if b[0] < 0x80 then Some(b[0])
    else match ReadUvarint(b[1..])
      case Some(v) => Some(b[0] - 0x80 + 0x80 * v)
      case None => None
  }

  lemma {:induction false} ReadUvarintOfUvarint(n: nat, rest: Bytes)
    ensures ReadUvarint(Uvarint(n) + rest) == Some(n)
    decreases n
  {
    if n >= 0x80 {
      ReadUvarintOfUvarint(n / 0x80, rest);
      assert (Uvarint(n) + rest)[1..] == Uvarint(n / 0x80) + rest;
    }
  }

  /** The buffer is always ten bytes; its prefix is the LEB128 encoding and the rest is zero. */
  lemma UInt64BytesShape(n: uint64)
    ensures |UInt64Bytes(n)| == MaxVarintLen64
    ensures UInt64Bytes(n)[..|Uvarint(n)|] == Uvarint(n)
    ensures forall k :: |Uvarint(n)| <= k < MaxVarintLen64 ==> UInt64Bytes(n)[k] == 0
    ensures forall k :: 0 <= k < |Uvarint(n)| - 1 ==> UInt64Bytes(n)[k] >= 0x80
    ensures UInt64Bytes(n)[|Uvarint(n)| - 1] < 0x80
  {
    UvarintLength(n);
    UvarintGroups(n);
  }

  lemma {:induction false} UvarintGroups(n: nat)
    ensures forall k :: 0 <= k < |Uvarint(n)| - 1 ==> Uvarint(n)[k] >= 0x80
    ensures |Uvarint(n)| >= 1 && Uvarint(n)[|Uvarint(n)| - 1] < 0x80
    decreases n
  {
    if n >= 0x80 {
      UvarintGroups(n / 0x80);
    }
  }

  /** Reading the buffer back yields n, so distinct inputs give distinct buffers. */
  lemma UInt64BytesRoundTrip(n: uint64)
    ensures ReadUvarint(UInt64Bytes(n)) == Some(n)
  {
    UvarintLength(n);
    ReadUvarintOfUvarint(n, Zeros(MaxVarintLen64 - |Uvarint(n)|));
  }

  lemma UInt64BytesInjective(a: uint64, b: uint64)
    requires a != b
    ensures UInt64Bytes(a) != UInt64Bytes(b)
  {
    UInt64BytesRoundTrip(a);
    UInt64BytesRoundTrip(b);
  }

  /** Zig-zag is undone by halving, so `Int64ToBytes` is injective too. */
  function UnZigZag(z: uint64): int {
    if z % 2 == 0 then z / 2 else -(z + 1) / 2
  }

  lemma Int64BytesRoundTrip(n: int64)
    ensures |Int64Bytes(n)| == MaxVarintLen64
    ensures ReadUvarint(Int64Bytes(n)) == Some(ZigZag(n))
    ensures UnZigZag(ZigZag(n)) == n
  {
    UInt64BytesShape(ZigZag(n));
    UInt64BytesRoundTrip(ZigZag(n));
  }

  lemma Int64BytesInjective(a: int64, b: int64)
    requires a != b
    ensures Int64Bytes(a) != Int64Bytes(b)
  {
    Int64BytesRoundTrip(a);
    Int64BytesRoundTrip(b);
  }

  lemma UInt64BytesZero()
    ensures UInt64Bytes(0) == Zeros(MaxVarintLen64)
  {
  }
}
