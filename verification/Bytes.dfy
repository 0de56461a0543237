/** Big-endian numbers over byte strings, and two's complement. */
module Bytes {

  type Byte = b: int | 0 <= b < 256

  const TWO_127: int := 0x8000_0000_0000_0000_0000_0000_0000_0000
  const TWO_128: int := 0x1_0000_0000_0000_0000_0000_0000_0000_0000
  const TWO_160: int := 0x1_0000_0000_0000_0000_0000_0000_0000_0000_0000_0000
  const TWO_255: int := TWO_127 * TWO_128
  const TWO_256: int := TWO_128 * TWO_128

  function BigEndian(bytes: seq<Byte>): nat {
    if bytes == [] then 0 else BigEndian(bytes[..|bytes| - 1]) * 256 + bytes[|bytes| - 1]
  }

  function Pow256(n: nat): nat {
    if n == 0 then 1 else Pow256(n - 1) * 256
  }

  lemma {:induction false} Pow256Of16()
    ensures Pow256(16) == TWO_128
  {
    assert Pow256(4) == 0x1_0000_0000;
    assert Pow256(8) == 0x1_0000_0000_0000_0000;
    assert Pow256(12) == 0x1_0000_0000_0000_0000_0000_0000;
  }

  /** Each bound is the number of values of its width in bytes, or half of it. */
  lemma {:induction false} Widths()
    ensures Pow256(16) == TWO_128 && TWO_127 + TWO_127 == TWO_128
    ensures Pow256(20) == TWO_160
    ensures Pow256(32) == TWO_256 && TWO_255 + TWO_255 == TWO_256
  {
    Pow256Of16();
    assert Pow256(18) == TWO_128 * 0x1_0000;
    PowSum(16, 16);
  }

  lemma {:induction false} PowSum(a: nat, b: nat)
    ensures Pow256(a + b) == Pow256(a) * Pow256(b)
  {
    if b == 0 {
    } else {
      PowSum(a, b - 1);
      assert Pow256(a + b) == Pow256(a + (b - 1)) * 256;
    }
  }

  lemma {:induction false} BigEndianBound(bytes: seq<Byte>)
    ensures BigEndian(bytes) < Pow256(|bytes|)
  {
    if bytes == [] {
    } else {
      BigEndianBound(bytes[..|bytes| - 1]);
    }
  }

  lemma {:induction false} BigEndianAppend(a: seq<Byte>, b: seq<Byte>)
    ensures BigEndian(a + b) == BigEndian(a) * Pow256(|b|) + BigEndian(b)
  {
    if b == [] {
      assert a + b == a;
    } else {
      var m := |b| - 1;
      assert (a + b)[..|a + b| - 1] == a + b[..m];
      BigEndianAppend(a, b[..m]);
      var high, p := BigEndian(a), Pow256(m);
      assert (high * p + BigEndian(b[..m])) * 256 == high * (p * 256) + BigEndian(b[..m]) * 256;
    }
  }

  /** The `n`-byte big-endian form of `v`. */
  function ToBytes(v: nat, n: nat): (bytes: seq<Byte>)
    ensures |bytes| == n
  {
    if n == 0 then [] else ToBytes(v / 256, n - 1) + [v % 256]
  }

  lemma {:induction false} ToBytesRoundTrip(v: nat, n: nat)
    requires v < Pow256(n)
    ensures BigEndian(ToBytes(v, n)) == v
  {
    if n == 0 {
    } else {
      ToBytesRoundTrip(v / 256, n - 1);
    }
  }

  lemma {:induction false} BytesRoundTrip(bytes: seq<Byte>)
    ensures ToBytes(BigEndian(bytes), |bytes|) == bytes
  {
    if bytes == [] {
    } else {
      var m := |bytes| - 1;
      BytesRoundTrip(bytes[..m]);
      assert bytes == bytes[..m] + [bytes[m]];
    }
  }

  /** A value of one byte leaves every byte but the last zero, so any suffix reads as the same value. */
  lemma {:induction false} SmallWord(v: nat, n: nat, k: nat)
    requires v < 256 && k < n
    ensures BigEndian(ToBytes(v, n)[k..]) == v
  {
    var last: Byte := v;
    var bytes := ToBytes(v, n);
    ZeroBytes(n - 1, k);
    assert bytes[k..] == ToBytes(0, n - 1)[k..] + [last];
    assert bytes[k..][..|bytes[k..]| - 1] == ToBytes(0, n - 1)[k..];
  }

  lemma {:induction false} ZeroBytes(n: nat, k: nat)
    requires k <= n
    ensures BigEndian(ToBytes(0, n)[k..]) == 0
  {
    if k == n {
    } else {
      ZeroBytes(n - 1, k);
      assert ToBytes(0, n)[k..] == ToBytes(0, n - 1)[k..] + [0];
      assert ToBytes(0, n)[k..][..n - k - 1] == ToBytes(0, n - 1)[k..];
    }
  }

  /** The signed reading of 128 bits. */
  function Signed128(v: nat): int
    requires v < TWO_128
  {
    if v < TWO_127 then v else v - TWO_128
  }

  /** The signed reading of 256 bits. */
  function Signed256(v: nat): int
    requires v < TWO_256
  {
    if v < TWO_255 then v else v - TWO_256
  }
}
