/** Uninterpreted cryptographic primitives: functions with the output sizes the code relies on. */
module Primitives {
  import opened Bytes

  type Octets32 = b: bytes | |b| == 32 witness seq(32, _ => 0)
  type Block = b: bytes | |b| == 16 witness seq(16, _ => 0)

  /** SHA-256, HMAC-SHA-256(key, message), and 32 octets of HKDF-SHA-256(salt, ikm, info). */
  datatype Hashes = Hashes(
    sha256: bytes -> Octets32,
    hmac: (bytes, bytes) -> Octets32,
    hkdf: (bytes, bytes, bytes) -> Octets32)

  /** An ASCII byte-string literal. */
  function Ascii(s: string): (b: bytes)
    ensures |b| == |s|
  {
    seq(|s|, i requires 0 <= i < |s| => s[i] as int % 256)
  }
}

/** P-256 as an abstract cyclic group of its order, with SEC1 points. */
module Curve {
  import opened Bytes
  import opened Results
  import opened Primitives

  const P256_ORDER_BYTES: bytes := [
    0xff, 0xff, 0xff, 0xff, 0x00, 0x00, 0x00, 0x00, 0xff, 0xff, 0xff, 0xff, 0xff, 0xff, 0xff, 0xff,
    0xbc, 0xe6, 0xfa, 0xad, 0xa7, 0x17, 0x9e, 0x84, 0xf3, 0xb9, 0xca, 0xc2, 0xfc, 0x63, 0x25, 0x51]

  /** The group order; positive because its last octet is. */
  function Order(): (n: nat)
    ensures n > 1
  {
    BeValue(P256_ORDER_BYTES[..31]) * 256 + P256_ORDER_BYTES[31]
  }

  lemma OrderIsThePublishedOne()
    ensures Order() == BeValue(P256_ORDER_BYTES) && Order() < Pow256(32)
  {
    hide Pow256;
    BeBytesOfValue(P256_ORDER_BYTES);
    assert P256_ORDER_BYTES[..|P256_ORDER_BYTES| - 1] == P256_ORDER_BYTES[..31];
  }

  lemma OneMore(b: bytes, n: nat)
    requires n < |b|
    ensures BeValue(b[..n + 1]) == BeValue(b[..n]) * 0x100 + b[n]
  {
    assert b[..n + 1][..n] == b[..n];
  }

  function Word(b: bytes, n: nat): nat
    requires n + 4 <= |b|
  {
    ((b[n] as int * 0x100 + b[n + 1] as int) * 0x100 + b[n + 2] as int) * 0x100 + b[n + 3] as int
  }

  lemma FourMore(b: bytes, n: nat)
    requires n + 4 <= |b|
    ensures BeValue(b[..n + 4]) == BeValue(b[..n]) * 0x1_0000_0000 + Word(b, n)
  {
    hide BeValue;
    OneMore(b, n);
    OneMore(b, n + 1);
    OneMore(b, n + 2);
    OneMore(b, n + 3);
  }

  lemma EightWords(b: bytes)
    requires |b| == 32
    ensures BeValue(b) ==
            ((((((Word(b, 0) * 0x1_0000_0000 + Word(b, 4)) * 0x1_0000_0000 + Word(b, 8)) * 0x1_0000_0000 + Word(b, 12))
               * 0x1_0000_0000 + Word(b, 16)) * 0x1_0000_0000 + Word(b, 20)) * 0x1_0000_0000 + Word(b, 24))
            * 0x1_0000_0000 + Word(b, 28)
  {
    hide BeValue, Word;
    NoOctets();
    assert b[..0] == [] && b[..32] == b;
    FourMore(b, 0);
    FourMore(b, 4);
    FourMore(b, 8);
    FourMore(b, 12);
    FourMore(b, 16);
    FourMore(b, 20);
    FourMore(b, 24);
    FourMore(b, 28);
  }

  lemma UpperWords()
    ensures var b := P256_ORDER_BYTES; Word(b, 0) == 0xffffffff && Word(b, 4) == 0 && Word(b, 8) == 0xffffffff && Word(b, 12) == 0xffffffff
  {
  }

  lemma LowerWords()
    ensures var b := P256_ORDER_BYTES; Word(b, 16) == 0xbce6faad && Word(b, 20) == 0xa7179e84
    ensures var b := P256_ORDER_BYTES; Word(b, 24) == 0xf3b9cac2 && Word(b, 28) == 0xfc632551
  {
  }

  /** The order as published (section D.1.2.3 of FIPS 186-4). */
  lemma OrderInFigures()
    ensures Order() == 0xffffffff_00000000_ffffffff_ffffffff_bce6faad_a7179e84_f3b9cac2_fc632551
  {
    OrderIsThePublishedOne();
    hide BeValue, Order, Word;
    EightWords(P256_ORDER_BYTES);
    UpperWords();
    LowerWords();
  }

  lemma NoOctets()
    ensures BeValue([]) == 0
  {
  }

  predicate SecretKey(k: nat) {
    0 < k < Order()
  }

  /** The published order is prime, so no two secret scalars multiply to a multiple of it. */
  ghost predicate PrimeOrder() {
    forall a, b: nat :: SecretKey(a) && SecretKey(b) ==> (a as int * b as int) % Order() != 0
  }

  datatype Point = Infinity | Affine(x: Octets32, y: Octets32)

  datatype Group = Group(g: Point, add: (Point, Point) -> Point, onCurve: Point -> bool) {

    /** Scalar multiplication by repeated addition. */
    function Mul(k: nat, p: Point): Point {
      if k == 0 then Infinity else add(p, Mul(k - 1, p))
    }

    /** The laws used: closure, associativity, identity, and a generator of the given order. */
    ghost predicate Valid() {
      && onCurve(Infinity) && onCurve(g)
      && (forall p, q :: Closed(p, q))
      && (forall p, q, r :: Associates(p, q, r))
      && (forall p :: Neutral(p))
      && (forall k: nat :: HasOrder(k))
    }

    ghost predicate Closed(p: Point, q: Point) {
      onCurve(p) && onCurve(q) ==> onCurve(add(p, q))
    }

    ghost predicate Associates(p: Point, q: Point, r: Point) {
      onCurve(p) && onCurve(q) && onCurve(r) ==> add(add(p, q), r) == add(p, add(q, r))
    }

    ghost predicate Neutral(p: Point) {
      onCurve(p) ==> add(Infinity, p) == p && add(p, Infinity) == p
    }

    ghost predicate HasOrder(k: nat) {
      Mul(k, g) == Infinity <==> k % Order() == 0
    }

    lemma {:induction false} MulOnCurve(k: nat, p: Point)
      requires Valid() && onCurve(p)
      ensures onCurve(Mul(k, p))
    {
      hide Order;
      if k > 0 {
        MulOnCurve(k - 1, p);
        assert Closed(p, Mul(k - 1, p));
      }
    }

    lemma {:induction false} MulAdds(a: nat, b: nat, p: Point)
      requires Valid() && onCurve(p)
      ensures Mul(a + b, p) == add(Mul(a, p), Mul(b, p))
    {
      hide Order;
      MulOnCurve(b, p);
      if a == 0 {
        assert Neutral(Mul(b, p));
      } else {
        MulAdds(a - 1, b, p);
        MulOnCurve(a - 1, p);
        assert Associates(p, Mul(a - 1, p), Mul(b, p));
      }
    }

    lemma {:induction false} MulMultiplies(a: nat, b: nat, p: Point)
      requires Valid() && onCurve(p)
      ensures Mul(a, Mul(b, p)) == Mul(a * b, p)
    {
      hide Order;
      if a > 0 {
        MulMultiplies(a - 1, b, p);
        var c := (a - 1) * b;
        MulAdds(b, c, p);
        assert a * b == b + c;
      }
    }

    /** Diffie-Hellman: both orders of multiplication meet in one point. */
    lemma MulCommutes(a: nat, b: nat, p: Point)
      requires Valid() && onCurve(p)
      ensures Mul(a, Mul(b, p)) == Mul(b, Mul(a, p))
    {
      hide Order, Mul;
      MulMultiplies(a, b, p);
      MulMultiplies(b, a, p);
      assert a * b == b * a;
    }

    /** In a group of prime order two secrets never agree on the point at infinity. */
    lemma SharedPointIsFinite(a: nat, b: nat)
      requires Valid() && PrimeOrder() && SecretKey(a) && SecretKey(b)
      ensures Mul(a, Mul(b, g)).Affine?
    {
      hide Order, Mul, SecretKey;
      MulMultiplies(a, b, g);
      assert HasOrder(a * b);
    }

    lemma MulReduces(k: nat)
      requires Valid()
      ensures Mul(k, g) == Mul(k % Order(), g)
    {
      hide Order, Mul;
      var q, r := k / Order(), k % Order();
      var m := q * Order();
      assert m % Order() == 0 by {
        ModShift(0, q, Order());
      }
      assert k == m + r;
      assert HasOrder(m);
      MulAdds(m, r, g);
      MulOnCurve(r, g);
      assert Neutral(Mul(r, g));
    }
  }

  /** SEC1 uncompressed form. */
  function EncodePoint(p: Point): (b: bytes)
    requires p.Affine?
    ensures |b| == 65
  {
    [0x04] + p.x + p.y
  }

  /** `PublicKey::from_sec1_bytes` on 65 octets: an uncompressed point of the curve. */
  function DecodePoint(curve: Group, b: bytes): Option<Point> {
    if |b| == 65 && b[0] == 0x04 && curve.onCurve(Affine(b[1..33], b[33..65])) then Some(Affine(b[1..33], b[33..65]))
    else None
  }

  lemma PointRoundTrip(curve: Group, p: Point)
    requires p.Affine? && curve.onCurve(p)
    ensures DecodePoint(curve, EncodePoint(p)) == Some(p)
  {
    assert EncodePoint(p)[1..33] == p.x && EncodePoint(p)[33..65] == p.y;
  }

  /** Nothing but the uncompressed form of a point of the curve is read as one. */
  lemma PointRoundTripBack(curve: Group, b: bytes)
    requires DecodePoint(curve, b).Some?
    ensures var p := DecodePoint(curve, b).value; p.Affine? && curve.onCurve(p) && b == [0x04] + p.x + p.y
  {
    assert b == [b[0]] + b[1..33] + b[33..65];
  }

  // ------------------------------------------------ the laws are consistent

  /** Residues modulo the order, dressed as points. */
  function Residue(k: nat): Point
    requires k < Order()
  {
    if k == 0 then Infinity else Affine(BeBytes(k, 32), Zeros(32))
  }

  predicate IsResidue(p: Point) {
    p.Infinity? || (p.y == Zeros(32) && 0 < BeValue(p.x) < Order())
  }

  function ResidueOf(p: Point): (k: nat)
    requires IsResidue(p)
    ensures k < Order()
  {
    if p.Infinity? then 0 else BeValue(p.x)
  }

  function AddResidues(p: Point, q: Point): Point {
    if IsResidue(p) && IsResidue(q) then Residue((ResidueOf(p) + ResidueOf(q)) % Order()) else Infinity
  }

  function ResidueGroup(): Group {
    Group(Residue(1), (p, q) => AddResidues(p, q), p => IsResidue(p))
  }

  lemma ResidueRoundTrip(k: nat)
    requires k < Order()
    ensures IsResidue(Residue(k)) && ResidueOf(Residue(k)) == k
  {
    hide Order, BeBytes, Pow256;
    OrderIsThePublishedOne();
    BeValueOfBytes(k, 32);
  }

  lemma ResidueRoundTripBack(p: Point)
    requires IsResidue(p)
    ensures Residue(ResidueOf(p)) == p
  {
    hide Order, Pow256, BeValue, BeBytes;
    if p.Affine? {
      BeBytesOfValue(p.x);
    }
  }

  lemma ModAdd(a: nat, b: nat, n: nat)
    requires n > 0
    ensures (a % n + b) % n == (a + b) % n
    ensures (a + b % n) % n == (a + b) % n
  {
    ModAddOne(a, b, n);
    ModAddOne(b, a, n);
  }

  lemma ModAddOne(a: nat, b: nat, n: nat)
    requires n > 0
    ensures (a % n + b) % n == (a + b) % n
  {
    var q := a / n;
    assert a + b == (a % n + b) + q * n;
    ModShift(a % n + b, q, n);
  }

  lemma {:induction false} ModShift(a: nat, q: nat, n: nat)
    requires n > 0
    ensures (a + q * n) % n == a % n
  {
    if q > 0 {
      ModShift(a, q - 1, n);
      var y := a + (q - 1) * n;
      assert a + q * n == y + n;
      AddModulus(y, n);
    }
  }

  lemma {:induction false} AddModulus(y: nat, n: nat)
    requires n > 0
    ensures (y + n) % n == y % n
  {
    UniqueRemainder(y + n, n, y / n + 1, y % n);
  }

  lemma {:induction false} UniqueRemainder(x: nat, n: nat, q: nat, r: nat)
    requires n > 0 && r < n && x == q * n + r
    ensures x % n == r
  {
    var q', r' := x / n, x % n;
    assert x == q' * n + r';
    if q' > q {
      assert (q + 1) * n == q * n + n;
      MulOrder(q + 1, q', n);
    } else if q' < q {
      assert (q' + 1) * n == q' * n + n;
      MulOrder(q' + 1, q, n);
    }
  }

  lemma {:induction false} MulOrder(a: nat, b: nat, n: nat)
    requires a <= b
    ensures a * n <= b * n
  {
    assert b * n == a * n + (b - a) * n;
  }

  /** Addition of residues, on the residues themselves. */
  lemma AddResiduesAdds(a: nat, b: nat)
    requires a < Order() && b < Order()
    ensures AddResidues(Residue(a), Residue(b)) == Residue((a + b) % Order())
  {
    hide Order, Residue, IsResidue;
    ResidueRoundTrip(a);
    ResidueRoundTrip(b);
  }

  lemma AddResiduesAssociates(p: Point, q: Point, r: Point)
    requires IsResidue(p) && IsResidue(q) && IsResidue(r)
    ensures AddResidues(AddResidues(p, q), r) == AddResidues(p, AddResidues(q, r))
  {
    hide Order, Residue, IsResidue, AddResidues;
    var n := Order();
    var a, b, c := ResidueOf(p), ResidueOf(q), ResidueOf(r);
    ResidueRoundTripBack(p);
    ResidueRoundTripBack(q);
    ResidueRoundTripBack(r);
    AddResiduesAdds(a, b);
    AddResiduesAdds(b, c);
    AddResiduesAdds((a + b) % n, c);
    AddResiduesAdds(a, (b + c) % n);
    ModAdd(a + b, c, n);
    ModAdd(a, b + c, n);
  }

  lemma {:induction false} ResidueMul(k: nat)
    ensures ResidueGroup().Mul(k, Residue(1)) == Residue(k % Order())
  {
    hide Order, Residue, IsResidue, AddResidues;
    var n := Order();
    if k == 0 {
      ResidueZero();
    } else {
      ResidueMul(k - 1);
      var m := (k - 1) % n;
      assert ResidueGroup().Mul(k, Residue(1)) == AddResidues(Residue(1), Residue(m));
      AddResiduesAdds(1, m);
      ModAdd(1, k - 1, n);
    }
  }

  lemma ResiduesClosed(p: Point, q: Point)
    ensures ResidueGroup().Closed(p, q)
  {
    hide Order, Residue, IsResidue, AddResidues;
    if IsResidue(p) && IsResidue(q) {
      ResidueRoundTripBack(p);
      ResidueRoundTripBack(q);
      AddResiduesAdds(ResidueOf(p), ResidueOf(q));
      ResidueRoundTrip((ResidueOf(p) + ResidueOf(q)) % Order());
    }
  }

  lemma ResiduesAssociate(p: Point, q: Point, r: Point)
    ensures ResidueGroup().Associates(p, q, r)
  {
    hide Order, Residue, IsResidue, AddResidues;
    if IsResidue(p) && IsResidue(q) && IsResidue(r) {
      AddResiduesAssociates(p, q, r);
    }
  }

  lemma ZeroIsNeutral(p: Point)
    ensures ResidueGroup().Neutral(p)
  {
    hide Order, Residue, IsResidue, AddResidues, ResidueOf;
    ResidueZero();
    if IsResidue(p) {
      var x, n := ResidueOf(p), Order();
      ResidueRoundTripBack(p);
      UniqueRemainder(x, n, 0, x);
      AddResiduesAdds(0, x);
      AddResiduesAdds(x, 0);
    }
  }

  lemma OneHasTheOrder(k: nat)
    ensures ResidueGroup().HasOrder(k)
  {
    hide Order, IsResidue, AddResidues;
    ResidueMul(k);
  }

  /** The residues satisfy every law asked of the curve: the laws do not contradict each other. */
  lemma LawsAreConsistent()
    ensures ResidueGroup().Valid()
  {
    hide Order, Residue, IsResidue, AddResidues, Group.Closed, Group.Associates, Group.Neutral, Group.HasOrder;
    ResidueRoundTrip(1);
    ResidueZero();
    forall p, q ensures ResidueGroup().Closed(p, q) {
      ResiduesClosed(p, q);
    }
    forall p, q, r ensures ResidueGroup().Associates(p, q, r) {
      ResiduesAssociate(p, q, r);
    }
    forall p ensures ResidueGroup().Neutral(p) {
      ZeroIsNeutral(p);
    }
    forall k: nat ensures ResidueGroup().HasOrder(k) {
      OneHasTheOrder(k);
    }
  }

  lemma ResidueZero()
    ensures Residue(0) == Infinity && IsResidue(Infinity) && ResidueOf(Infinity) == 0
  {
  }
}
