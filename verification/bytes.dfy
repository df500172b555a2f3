/** Octet strings: big-endian integers and bytewise exclusive or. */
module Bytes {

  type byte = x: int | 0 <= x < 256
  type bytes = seq<byte>

  function Zeros(n: nat): (z: bytes)
    ensures |z| == n
  {
    seq(n, _ => 0)
  }

  /** Whether bit `mask` (a power of two) of a flags octet is set. */
  predicate HasFlag(flags: byte, mask: nat)
    requires mask > 0
  {
    flags / mask % 2 == 1
  }

  function Pow256(k: nat): (p: nat)
    ensures p >= 1
  {
    if k == 0 then 1 else 256 * Pow256(k - 1)
  }

  /** The last `k` octets of `n`, most significant first. */
  function BeBytes(n: nat, k: nat): (b: bytes)
    ensures |b| == k
  {
    if k == 0 then [] else BeBytes(n / 256, k - 1) + [n % 256]
  }

  function BeValue(b: bytes): nat {
    if b == [] then 0 else BeValue(b[..|b| - 1]) * 256 + b[|b| - 1]
  }

  lemma {:induction false} BeValueOfBytes(n: nat, k: nat)
    requires n < Pow256(k)
    ensures BeValue(BeBytes(n, k)) == n
  {
    if k > 0 {
      BeValueOfBytes(n / 256, k - 1);
      assert BeBytes(n, k)[..k - 1] == BeBytes(n / 256, k - 1);
    }
  }

  lemma {:induction false} BeBytesOfValue(b: bytes)
    ensures BeValue(b) < Pow256(|b|)
    ensures BeBytes(BeValue(b), |b|) == b
  {
    if b != [] {
      BeBytesOfValue(b[..|b| - 1]);
    }
  }

  /** The first octet weighs most. */
  lemma {:induction false} MostSignificantFirst(a: byte, b: bytes)
    ensures BeValue([a] + b) == a * Pow256(|b|) + BeValue(b)
  {
    if b == [] {
      assert ([a] + b)[..0] == [];
    } else {
      var n := |b| - 1;
      MostSignificantFirst(a, b[..n]);
      assert ([a] + b)[..n + 1] == [a] + b[..n];
      Regroup(a, Pow256(n));
    }
  }

  lemma Regroup(a: int, p: int)
    ensures a * p * 256 == a * (256 * p)
  {
  }

  lemma {:induction false} BeLeadingZeros(k: nat, b: bytes)
    ensures BeValue(Zeros(k) + b) == BeValue(b)
  {
    if b != [] {
      BeLeadingZeros(k, b[..|b| - 1]);
      assert (Zeros(k) + b)[..k + |b| - 1] == Zeros(k) + b[..|b| - 1];
    } else if k > 0 {
      BeLeadingZeros(k - 1, []);
      assert (Zeros(k) + [])[..k - 1] == Zeros(k - 1) + [];
    } else {
      assert Zeros(0) + [] == [];
    }
  }

  /** The head arguments a CBOR item can carry. */
  lemma PowersOf256()
    ensures Pow256(1) == 0x100
    ensures Pow256(2) == 0x1_0000
    ensures Pow256(4) == 0x1_0000_0000
    ensures Pow256(8) == 0x1_0000_0000_0000_0000
  {
    assert Pow256(3) == 256 * Pow256(2);
    assert Pow256(5) == 256 * Pow256(4);
    assert Pow256(6) == 256 * Pow256(5);
    assert Pow256(7) == 256 * Pow256(6);
  }

  /** Bitwise exclusive or. */
  function Xor(a: nat, b: nat): nat {
    if a == 0 && b == 0 then 0
    else 2 * Xor(a / 2, b / 2) + if a % 2 == b % 2 then 0 else 1
  }

  /** The `k`-th bit, the least significant first. */
  function Bit(n: nat, k: nat): nat {
    if k == 0 then n % 2 else Bit(n / 2, k - 1)
  }

  /** Every bit of the result is set exactly when the two bits differ. */
  lemma {:induction false} XorBit(a: nat, b: nat, k: nat)
    ensures Bit(Xor(a, b), k) == if Bit(a, k) != Bit(b, k) then 1 else 0
  {
    var x := Xor(a, b);
    assert x / 2 == Xor(a / 2, b / 2) && x % 2 == if a % 2 != b % 2 then 1 else 0;
    if k > 0 {
      XorBit(a / 2, b / 2, k - 1);
    }
  }

  lemma {:induction false} XorUndoes(a: nat, b: nat)
    ensures Xor(Xor(a, b), b) == a
  {
    if a == 0 && b == 0 {
    } else {
      XorUndoes(a / 2, b / 2);
      var x := Xor(a, b);
      assert x / 2 == Xor(a / 2, b / 2);
      if x == 0 && b == 0 {
        XorZero(a);
      }
    }
  }

  lemma {:induction false} XorZero(a: nat)
    ensures Xor(a, 0) == a
  {
    if a > 0 {
      XorZero(a / 2);
    }
  }

  lemma XorStaysInByte(a: byte, b: byte)
    ensures Xor(a, b) < 256
  {
    XorBound(a, b, 256, 8);
  }

  function Pow2(k: nat): nat {
    if k == 0 then 1 else 2 * Pow2(k - 1)
  }

  lemma {:induction false} XorBound(a: nat, b: nat, bound: nat, k: nat)
    requires bound == Pow2(k) && a < bound && b < bound
    ensures Xor(a, b) < bound
  {
    if k > 0 {
      XorBound(a / 2, b / 2, bound / 2, k - 1);
    }
  }

  function XorByte(a: byte, b: byte): byte {
    XorStaysInByte(a, b);
    Xor(a, b)
  }

  /** Bytewise exclusive or of two strings, cut to the shorter one as `zip` does. */
  function XorBytes(a: bytes, b: bytes): (c: bytes)
    ensures |c| == if |a| < |b| then |a| else |b|
  {
    seq(if |a| < |b| then |a| else |b|, i requires 0 <= i < |a| && i < |b| => XorByte(a[i], b[i]))
  }

  lemma XorBytesBits(a: bytes, b: bytes, i: nat, k: nat)
    requires i < |a| && i < |b|
    ensures Bit(XorBytes(a, b)[i], k) == if Bit(a[i], k) != Bit(b[i], k) then 1 else 0
  {
    XorBit(a[i], b[i], k);
  }

  lemma XorBytesUndoes(a: bytes, b: bytes)
    requires |a| == |b|
    ensures XorBytes(XorBytes(a, b), b) == a
  {
    forall i | 0 <= i < |a|
      ensures XorBytes(XorBytes(a, b), b)[i] == a[i]
    {
      XorUndoes(a[i], b[i]);
    }
  }
}
