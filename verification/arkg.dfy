/** ARKG public-key derivation, ARKG-P256 (src/arkg.rs), against the authenticator's own
    derivation of the matching private key. */
module Arkg {
  import opened Bytes
  import opened Results
  import opened Cbor
  import opened Primitives
  import opened Curve
  import Cose

  const B_IN_BYTES: nat := 32
  const S_IN_BYTES: nat := 64
  const CTX_MAX_LEN: nat := 64

  // ------------------------------------------------ expand_message_xmd

  function DivCeil(n: nat, d: nat): nat
    requires d > 0
  {
    (n + d - 1) / d
  }

  function DstPrime(dst: bytes): bytes {
    dst + [|dst| % 256]
  }

  /** `Z_pad || msg || l_i_b_str || 0 || DST_prime`, the input of the first hash. */
  function MsgPrime(msg: bytes, dst: bytes, len: nat): bytes {
    Zeros(S_IN_BYTES) + msg + BeBytes(len, 2) + [0] + DstPrime(dst)
  }

  /** Block `b_i` of section 5.3.1 of RFC 9380. */
  function BlockOf(h: Hashes, b0: bytes, dst: bytes, i: nat): (b: bytes)
    requires 1 <= i <= 255 && |b0| == B_IN_BYTES
    ensures |b| == B_IN_BYTES
  {
    if i == 1 then h.sha256(b0 + [1] + DstPrime(dst))
    else h.sha256(XorBytes(b0, BlockOf(h, b0, dst, i - 1)) + [i] + DstPrime(dst))
  }

  /** `b_1 || ... || b_n`. */
  function Blocks(h: Hashes, b0: bytes, dst: bytes, n: nat): (b: bytes)
    requires n <= 255 && |b0| == B_IN_BYTES
    ensures |b| == n * B_IN_BYTES
  {
    if n == 0 then [] else Blocks(h, b0, dst, n - 1) + BlockOf(h, b0, dst, n)
  }

  /** What the assertion in the source lets through, with at least one block asked for. */
  predicate Expandable(dst: bytes, len: nat) {
    1 <= len && DivCeil(len, B_IN_BYTES) <= 255 && |dst| <= 255
  }

  /** `expand_message_xmd(msg, DST, len)` of section 5.3.1 of RFC 9380. */
  function Expand(h: Hashes, msg: bytes, dst: bytes, len: nat): (uniform: bytes)
    requires Expandable(dst, len)
    ensures |uniform| == len
  {
    Blocks(h, h.sha256(MsgPrime(msg, dst, len)), dst, DivCeil(len, B_IN_BYTES))[..len]
  }

  /** The source's function: the first hash, the block loop, and the concatenation cut to length. */
  method ExpandMessageXmd(h: Hashes, msg: bytes, dst: bytes, len: nat) returns (uniform: bytes)
    requires Expandable(dst, len)
    ensures uniform == Expand(h, msg, dst, len)
    ensures IsExpansion(h, msg, dst, len, uniform)
  {
    hide BlockOf, Blocks, BeBytes, Zeros, IsExpansion;
    var ell := (len + 31) / B_IN_BYTES;
    var dstPrime := dst + [|dst|];
    var msgPrime := Zeros(S_IN_BYTES);
    msgPrime := msgPrime + msg;
    msgPrime := msgPrime + BeBytes(len, 2);
    msgPrime := msgPrime + [0];
    msgPrime := msgPrime + dstPrime;
    var b: array<bytes> := new bytes[ell + 1](_ => []);
    b[0] := h.sha256(msgPrime);
    FillBlocks(h, b, dstPrime, dst);
    uniform := [];
    ghost var b0: bytes := b[0];
    BlocksGrow(h, b0, dst, 1);
    for i := 1 to ell + 1
      invariant forall j | 1 <= j < b.Length :: b[j] == BlockOf(h, b0, dst, j)
      invariant uniform == Blocks(h, b0, dst, i - 1)
    {
      BlocksGrow(h, b0, dst, i);
      uniform := uniform + b[i];
    }
    uniform := uniform[..len];
    assert uniform == Expand(h, msg, dst, len);
    ExpandIsExpansion(h, msg, dst, len);
  }

  /** The `i`-th run of 32 octets, the last one possibly shorter. */
  function Run32(u: bytes, i: nat): bytes
    requires 32 * i <= |u|
  {
    if 32 * i + 32 <= |u| then u[32 * i..32 * i + 32] else u[32 * i..]
  }

  /** Section 5.3.1 of RFC 9380 read off the octets: every run of 32 is the start of a hash over
      the first hash combined with the run before it, a counter, and the tag with its length. */
  ghost predicate IsExpansion(h: Hashes, msg: bytes, dst: bytes, len: nat, u: bytes)
    requires Expandable(dst, len)
  {
    var tag := dst + [|dst|];
    var b0 := h.sha256(Zeros(64) + msg + [len / 256, len % 256] + [0] + tag);
    && |u| == len
    && Run32(u, 0) <= h.sha256(b0 + [1] + tag)
    && (forall i: nat | 1 <= i && 32 * i < len :: Run32(u, i) <= h.sha256(XorBytes(b0, Run32(u, i - 1)) + [i + 1] + tag))
  }

  lemma {:induction false} BlockSlice(h: Hashes, b0: bytes, dst: bytes, n: nat, i: nat)
    requires i < n <= 255 && |b0| == B_IN_BYTES
    ensures Blocks(h, b0, dst, n)[32 * i..32 * i + 32] == BlockOf(h, b0, dst, i + 1)
  {
    hide BlockOf;
    BlocksGrow(h, b0, dst, n);
    var earlier := Blocks(h, b0, dst, n - 1);
    if i < n - 1 {
      BlockSlice(h, b0, dst, n - 1, i);
      assert Blocks(h, b0, dst, n)[32 * i..32 * i + 32] == earlier[32 * i..32 * i + 32];
    } else {
      assert Blocks(h, b0, dst, n)[32 * i..32 * i + 32] == BlockOf(h, b0, dst, n);
    }
  }

  lemma TwoOctetLength(len: nat)
    requires len <= 65535
    ensures BeBytes(len, 2) == [len / 256, len % 256]
  {
    assert BeBytes(len / 256, 1) == BeBytes(len / 256 / 256, 0) + [len / 256 % 256];
  }

  lemma {:induction false} ExpandIsExpansion(h: Hashes, msg: bytes, dst: bytes, len: nat)
    requires Expandable(dst, len)
    ensures IsExpansion(h, msg, dst, len, Expand(h, msg, dst, len))
  {
    TwoOctetLength(len);
    var b0: bytes := h.sha256(MsgPrime(msg, dst, len));
    var tag := dst + [|dst|];
    assert DstPrime(dst) == tag;
    assert b0 == h.sha256(Zeros(64) + msg + [len / 256, len % 256] + [0] + tag);
    var n := DivCeil(len, B_IN_BYTES);
    var u := Expand(h, msg, dst, len);
    hide MsgPrime, Blocks, Zeros, BeBytes, XorBytes;
    forall i: nat | 32 * i < len
      ensures Run32(u, i) <= BlockOf(h, b0, dst, i + 1)
      ensures 32 * i + 32 <= len ==> Run32(u, i) == BlockOf(h, b0, dst, i + 1)
    {
      hide BlockOf;
      BlockSlice(h, b0, dst, n, i);
      StartOfRun(Blocks(h, b0, dst, n), len, i);
    }
  }

  lemma StartOfRun(b: bytes, len: nat, i: nat)
    requires 32 * i < len <= |b| && 32 * i + 32 <= |b|
    ensures Run32(b[..len], i) <= b[32 * i..32 * i + 32]
    ensures 32 * i + 32 <= len ==> Run32(b[..len], i) == b[32 * i..32 * i + 32]
  {
  }

  /** These equations have one solution: they say the whole of what is computed. */
  lemma ExpansionIsUnique(h: Hashes, msg: bytes, dst: bytes, len: nat, u: bytes, v: bytes)
    requires Expandable(dst, len) && IsExpansion(h, msg, dst, len, u) && IsExpansion(h, msg, dst, len, v)
    ensures u == v
  {
    forall j | 0 <= j < len ensures u[j] == v[j] {
      RunsAgree(h, msg, dst, len, u, v, j / 32);
      hide IsExpansion;
      assert u[j] == Run32(u, j / 32)[j % 32] && v[j] == Run32(v, j / 32)[j % 32];
    }
  }

  lemma {:induction false} RunsAgree(h: Hashes, msg: bytes, dst: bytes, len: nat, u: bytes, v: bytes, i: nat)
    requires Expandable(dst, len) && IsExpansion(h, msg, dst, len, u) && IsExpansion(h, msg, dst, len, v)
    requires 32 * i < len
    ensures Run32(u, i) == Run32(v, i)
  {
    hide XorBytes, Zeros;
    if i > 0 {
      RunsAgree(h, msg, dst, len, u, v, i - 1);
    }
    assert |Run32(u, i)| == |Run32(v, i)|;
  }

  /** The loop that fills `b[1..]` in place, each block from `b[0]` and the one before it. */
  method FillBlocks(h: Hashes, b: array<bytes>, dstPrime: bytes, ghost dst: bytes)
    requires 2 <= b.Length <= 256 && |b[0]| == B_IN_BYTES
    requires dstPrime == DstPrime(dst)
    modifies b
    ensures b[0] == old(b[0])
    ensures forall j | 1 <= j < b.Length :: b[j] == BlockOf(h, b[0], dst, j)
  {
    hide XorBytes, DstPrime, BlockOf;
    var b1Input := b[0] + [1];
    b1Input := b1Input + dstPrime;
    b[1] := h.sha256(b1Input);
    NextBlock(h, b[0], dst, 1);
    for i := 2 to b.Length
      invariant b[0] == old(b[0])
      invariant forall j | 1 <= j < i :: b[j] == BlockOf(h, b[0], dst, j)
    {
      NextBlock(h, b[0], dst, i);
      var xored := XorBytes(b[0], b[i - 1]);
      var input := xored + [i];
      input := input + dstPrime;
      b[i] := h.sha256(input);
    }
  }

  lemma NextBlock(h: Hashes, b0: bytes, dst: bytes, i: nat)
    requires 1 <= i <= 255 && |b0| == B_IN_BYTES
    ensures BlockOf(h, b0, dst, i) ==
            if i == 1 then h.sha256(b0 + [1] + DstPrime(dst))
            else h.sha256(XorBytes(b0, BlockOf(h, b0, dst, i - 1)) + [i] + DstPrime(dst))
  {
  }

  lemma BlocksGrow(h: Hashes, b0: bytes, dst: bytes, i: nat)
    requires 1 <= i <= 255 && |b0| == B_IN_BYTES
    ensures Blocks(h, b0, dst, 0) == []
    ensures Blocks(h, b0, dst, i) == Blocks(h, b0, dst, i - 1) + BlockOf(h, b0, dst, i)
  {
  }

  /** The first hash separates message, tag and length: no two triples share an input. */
  lemma {:induction false} MsgPrimeIsInjective(msg: bytes, dst: bytes, len: nat, msg': bytes, dst': bytes, len': nat)
    requires |dst| <= 255 && |dst'| <= 255 && len <= 65535 && len' <= 65535
    requires MsgPrime(msg, dst, len) == MsgPrime(msg', dst', len')
    ensures msg == msg' && dst == dst' && len == len'
  {
    hide BeBytes;
    var a := MsgPrime(msg, dst, len);
    assert a[|a| - 1] == |dst| by { LastOctet(msg, dst, len); }
    assert a[|a| - 1] == |dst'| by { LastOctet(msg', dst', len'); }
    Parts(msg, dst, len);
    Parts(msg', dst', len');
    PowersOf256();
    BeValueOfBytes(len, 2);
    BeValueOfBytes(len', 2);
  }

  lemma LastOctet(msg: bytes, dst: bytes, len: nat)
    requires |dst| <= 255 && len <= 65535
    ensures |MsgPrime(msg, dst, len)| == S_IN_BYTES + |msg| + 4 + |dst|
    ensures MsgPrime(msg, dst, len)[S_IN_BYTES + |msg| + 3 + |dst|] == |dst|
  {
  }

  /** Where the three parts lie, once the length of the tag is known. */
  lemma Parts(msg: bytes, dst: bytes, len: nat)
    requires |dst| <= 255 && len <= 65535
    ensures var a := MsgPrime(msg, dst, len);
            var n := |a| - 4 - |dst|;
            && n == S_IN_BYTES + |msg|
            && a[S_IN_BYTES..n] == msg
            && a[n..n + 2] == BeBytes(len, 2)
            && a[n + 3..n + 3 + |dst|] == dst
  {
    hide BeBytes;
    var a := MsgPrime(msg, dst, len);
    var front := Zeros(S_IN_BYTES) + msg;
    assert a == front + BeBytes(len, 2) + [0] + DstPrime(dst);
    assert a[..|front|] == front && front[S_IN_BYTES..] == msg;
    assert DstPrime(dst)[..|dst|] == dst;
  }

  // --------------------------------------------- hashing to the scalar field

  /** `hash_to_field` onto the scalars: 48 uniform octets modulo the group order. */
  function HashToScalar(h: Hashes, msg: bytes, dst: bytes): (e: nat)
    requires |dst| <= 255
    ensures e < Order()
  {
    BeValue(Expand(h, msg, dst, 48)) % Order()
  }

  /** `BigUint::to_bytes_be`: no leading zero octet, except for zero itself. */
  function MinimalBe(n: nat): (b: bytes)
    ensures |b| >= 1
  {
    if n < 256 then [n] else MinimalBe(n / 256) + [n % 256]
  }

  lemma {:induction false} MinimalBeValue(n: nat, k: nat)
    requires n < Pow256(k) && k > 0
    ensures BeValue(MinimalBe(n)) == n && |MinimalBe(n)| <= k
  {
    if n >= 256 {
      assert k > 1;
      MinimalBeValue(n / 256, k - 1);
      assert MinimalBe(n)[..|MinimalBe(n)| - 1] == MinimalBe(n / 256);
    } else {
      assert [n][..0] == [];
    }
  }

  /** Pads to 32 octets by hand; the result is always canonical, so no `expect` can fire. */
  method HashToScalarField(h: Hashes, msg: bytes, dst: bytes) returns (repr: bytes)
    requires |dst| <= 255
    ensures |repr| == 32
    ensures BeValue(repr) == HashToScalar(h, msg, dst)
  {
    hide Order;
    var uniform := ExpandMessageXmd(h, msg, dst, 48);
    var e := BeValue(uniform) % Order();
    var bytes32 := MinimalBe(e);
    OrderIsThePublishedOne();
    MinimalBeValue(e, 32);
    if |bytes32| < 32 {
      var padded := Zeros(32 - |bytes32|);
      BeLeadingZeros(32 - |bytes32|, bytes32);
      padded := padded + bytes32;
      bytes32 := padded;
    }
    repr := bytes32;
  }

  // ------------------------------------------------------- domain separation

  function DstAug(): bytes { Ascii("ARKG-ECDH.ARKG-P256") }

  /** A derivation tag with the caller's context behind its length. */
  function ContextOf(tag: bytes, ctx: bytes): bytes {
    tag + [|ctx| % 256] + ctx
  }

  function KemContext(ctx: bytes): bytes { ContextOf(Ascii("ARKG-Derive-Key-KEM."), ctx) }
  function BlContext(ctx: bytes): bytes { ContextOf(Ascii("ARKG-Derive-Key-BL."), ctx) }
  function EphemeralDst(): bytes { Ascii("ARKG-KEM-ECDH-KG.") + DstAug() }
  function BlindingDst(ctxBl: bytes): bytes { Ascii("ARKG-BL-EC.ARKG-P256") + ctxBl }

  /** Every tag reached from `derive_public_key` is far below the 255 octets the expander takes;
      the longest is reached with a 64-octet context. */
  lemma DstsAreShort(ctx: bytes)
    requires |ctx| <= CTX_MAX_LEN
    ensures |EphemeralDst()| == 36
    ensures |BlindingDst(BlContext(ctx))| == 40 + |ctx| <= 104
  {
  }

  /** Different contexts never share a KEM or blinding context string. */
  lemma ContextIsInjective(tag: bytes, ctx: bytes, ctx': bytes)
    requires ContextOf(tag, ctx) == ContextOf(tag, ctx')
    ensures ctx == ctx'
  {
    assert ContextOf(tag, ctx)[|tag| + 1..] == ctx;
    assert ContextOf(tag, ctx')[|tag| + 1..] == ctx';
  }

  // ------------------------------------------------------- platform side

  datatype Seed = Seed(pkBl: Point, pkKem: Point)

  function MacInfo(ctx: bytes): bytes { Ascii("ARKG-KEM-HMAC-mac.") + DstAug() + ctx }
  function SharedInfo(ctx: bytes): bytes { Ascii("ARKG-KEM-HMAC-shared.") + DstAug() + ctx }

  /** `kem_encaps`: the shared secret and the ciphertext `t[..16] || c'`. */
  function KemEncaps(h: Hashes, curve: Group, pkKem: Point, ikm: bytes, ctx: bytes): Result<(bytes, bytes)> {
    var sk' := HashToScalar(h, ikm, EphemeralDst());
    if sk' == 0 then Err(Crypto)
    else
      match (curve.Mul(sk', curve.g), curve.Mul(sk', pkKem))
      case (Affine(x, y), Affine(k', _)) =>
        var c' := EncodePoint(Affine(x, y));
        var macKey := h.hkdf([], k', MacInfo(ctx));
        var t := h.hmac(macKey, c');
        var k := h.hkdf([], k', SharedInfo(ctx));
        Ok((k, t[..16] + c'))
      case _ => Err(Crypto)
  }

  function BlBlindPublicKey(h: Hashes, curve: Group, pkBl: Point, tau: bytes, ctx: bytes): Result<Point>
    requires |ctx| <= 200
  {
    var tau' := HashToScalar(h, tau, BlindingDst(ctx));
    var blinded := curve.add(pkBl, curve.Mul(tau', curve.g));
    if blinded.Infinity? then Err(Crypto) else Ok(blinded)
  }

  function DerivePublicKey(h: Hashes, curve: Group, seed: Seed, ikm: bytes, ctx: bytes): Result<(Point, bytes)> {
    if |ctx| > CTX_MAX_LEN then Err(Crypto)
    else
      var encapsulated :- KemEncaps(h, curve, seed.pkKem, ikm, KemContext(ctx));
      var derived :- BlBlindPublicKey(h, curve, seed.pkBl, encapsulated.0, BlContext(ctx));
      Ok((derived, encapsulated.1))
  }

  // -------------------------------------------------- authenticator side
  // Written from the draft and from RFC 9380 alone: it shares no tag, context or hashing with the
  // platform's side above.

  /** What the authenticator recovers from a key handle: the shared point's x-coordinate and `tau`. */
  datatype Decapsulated = Decapsulated(kPrime: bytes, tau: bytes)

  /** `hash_to_field` with one element: two blocks, the second cut, as one number modulo the order. */
  function DeviceScalar(h: Hashes, msg: bytes, dst: bytes): (e: nat)
    requires |dst| <= 255
  {
    var tag := dst + [|dst|];
    var b0 := h.sha256(Zeros(64) + msg + [0, 48] + [0] + tag);
    var b1 := h.sha256(b0 + [1] + tag);
    var b2 := h.sha256(XorBytes(b0, b1) + [2] + tag);
    BeValue(b1 + b2[..16]) % Order()
  }

  function DeviceKemContext(ctx: bytes): bytes
    requires |ctx| <= 64
  {
    Ascii("ARKG-Derive-Key-KEM.") + [|ctx|] + ctx
  }

  function DeviceBlContext(ctx: bytes): bytes
    requires |ctx| <= 64
  {
    Ascii("ARKG-Derive-Key-BL.") + [|ctx|] + ctx
  }

  /** KEM decapsulation by the draft: split, multiply by the KEM secret, check the tag, expand. */
  function Decapsulate(h: Hashes, curve: Group, skKem: nat, kh: bytes, ctxKem: bytes): Result<Decapsulated> {
    if |kh| != 16 + 65 then Err(Crypto)
    else
      match DecodePoint(curve, kh[16..])
      case None => Err(Crypto)
      case Some(pk') =>
        match curve.Mul(skKem, pk')
        case Infinity => Err(Crypto)
        case Affine(x, _) =>
          var macKey := h.hkdf([], x, Ascii("ARKG-KEM-HMAC-mac.ARKG-ECDH.ARKG-P256") + ctxKem);
          if h.hmac(macKey, kh[16..])[..16] != kh[..16] then Err(Crypto)
          else Ok(Decapsulated(x, h.hkdf([], x, Ascii("ARKG-KEM-HMAC-shared.ARKG-ECDH.ARKG-P256") + ctxKem)))
  }

  /** `ARKG-derive-private-key`. */
  function DerivePrivateKey(h: Hashes, curve: Group, skBl: nat, skKem: nat, kh: bytes, ctx: bytes): Result<nat> {
    if |ctx| > 64 then Err(Crypto)
    else
      var d :- Decapsulate(h, curve, skKem, kh, DeviceKemContext(ctx));
      Ok((skBl + DeviceBlinding(h, d.tau, ctx)) % Order())
  }

  /** The blinding scalar `tau'` of a shared secret. */
  function DeviceBlinding(h: Hashes, tau: bytes, ctx: bytes): (t: nat)
    requires |ctx| <= 64
  {
    DeviceScalar(h, tau, Ascii("ARKG-BL-EC.ARKG-P256") + DeviceBlContext(ctx))
  }

  /** The scalar of the platform's ephemeral key, as the draft derives it. */
  function DraftEphemeral(h: Hashes, ikm: bytes): nat {
    DeviceScalar(h, ikm, Ascii("ARKG-KEM-ECDH-KG.ARKG-ECDH.ARKG-P256"))
  }

  // ------------------------------------------------- the two sides agree

  lemma ScalarsAgree(h: Hashes, msg: bytes, dst: bytes)
    requires |dst| <= 255
    ensures HashToScalar(h, msg, dst) == DeviceScalar(h, msg, dst)
  {
    hide Order, BeValue, Expand, XorBytes;
    ExpandIsExpansion(h, msg, dst, 48);
    var u := Expand(h, msg, dst, 48);
    var tag := dst + [|dst|];
    var b0 := h.sha256(Zeros(64) + msg + [0, 48] + [0] + tag);
    var b1 := h.sha256(b0 + [1] + tag);
    assert Run32(u, 0) == b1;
    var b2 := h.sha256(XorBytes(b0, b1) + [2] + tag);
    assert Run32(u, 1) == b2[..16];
    assert u == Run32(u, 0) + Run32(u, 1);
  }

  lemma AsciiJoins(a: string, b: string)
    ensures Ascii(a) + Ascii(b) == Ascii(a + b)
  {
  }

  lemma EphemeralTag()
    ensures EphemeralDst() == Ascii("ARKG-KEM-ECDH-KG.ARKG-ECDH.ARKG-P256")
  {
    hide Ascii;
    AsciiJoins("ARKG-KEM-ECDH-KG.", "ARKG-ECDH.ARKG-P256");
    assert "ARKG-KEM-ECDH-KG." + "ARKG-ECDH.ARKG-P256" == "ARKG-KEM-ECDH-KG.ARKG-ECDH.ARKG-P256";
  }

  lemma MacTag(c: bytes)
    ensures MacInfo(c) == Ascii("ARKG-KEM-HMAC-mac.ARKG-ECDH.ARKG-P256") + c
  {
    hide Ascii;
    AsciiJoins("ARKG-KEM-HMAC-mac.", "ARKG-ECDH.ARKG-P256");
    assert "ARKG-KEM-HMAC-mac." + "ARKG-ECDH.ARKG-P256" == "ARKG-KEM-HMAC-mac.ARKG-ECDH.ARKG-P256";
  }

  lemma SharedTag(c: bytes)
    ensures SharedInfo(c) == Ascii("ARKG-KEM-HMAC-shared.ARKG-ECDH.ARKG-P256") + c
  {
    hide Ascii;
    AsciiJoins("ARKG-KEM-HMAC-shared.", "ARKG-ECDH.ARKG-P256");
    assert "ARKG-KEM-HMAC-shared." + "ARKG-ECDH.ARKG-P256" == "ARKG-KEM-HMAC-shared.ARKG-ECDH.ARKG-P256";
  }

  lemma ContextsAgree(ctx: bytes)
    requires |ctx| <= 64
    ensures KemContext(ctx) == DeviceKemContext(ctx) && BlContext(ctx) == DeviceBlContext(ctx)
    ensures BlindingDst(BlContext(ctx)) == Ascii("ARKG-BL-EC.ARKG-P256") + DeviceBlContext(ctx)
  {
    hide Ascii;
  }

  function PublicSeed(curve: Group, skBl: nat, skKem: nat): Seed {
    Seed(curve.Mul(skBl, curve.g), curve.Mul(skKem, curve.g))
  }

  /** What every match needs: the ephemeral point is finite, so is the shared one the platform
      computed, and both sides computed the same shared point. */
  lemma {:induction false} SharedPoint(curve: Group, sk': nat, skKem: nat)
    requires curve.Valid() && PrimeOrder() && SecretKey(sk') && SecretKey(skKem)
    ensures var pk' := curve.Mul(sk', curve.g);
            && pk'.Affine? && curve.onCurve(pk')
            && curve.Mul(skKem, pk').Affine?
            && curve.Mul(skKem, pk') == curve.Mul(sk', curve.Mul(skKem, curve.g))
  {
    hide Order, Group.Mul;
    assert curve.HasOrder(sk');
    UniqueRemainder(sk', Order(), 0, sk');
    curve.MulOnCurve(sk', curve.g);
    curve.MulCommutes(sk', skKem, curve.g);
    curve.SharedPointIsFinite(skKem, sk');
  }

  /** Decapsulating an encapsulation gives back its secret and passes its own tag; the ciphertext
      carries the draft's ephemeral key. */
  lemma {:induction false} KemCorrect(h: Hashes, curve: Group, skKem: nat, ikm: bytes, ctx: bytes)
    requires curve.Valid() && PrimeOrder() && SecretKey(skKem)
    ensures var sk' := DraftEphemeral(h, ikm);
            var shared := curve.Mul(sk', curve.Mul(skKem, curve.g));
            match KemEncaps(h, curve, curve.Mul(skKem, curve.g), ikm, ctx)
            case Err(_) => sk' == 0
            case Ok((k, c)) =>
              && sk' != 0 && shared.Affine? && curve.Mul(sk', curve.g).Affine?
              && |c| == 81 && c[16..] == EncodePoint(curve.Mul(sk', curve.g))
              && k == h.hkdf([], shared.x, Ascii("ARKG-KEM-HMAC-shared.ARKG-ECDH.ARKG-P256") + ctx)
              && Decapsulate(h, curve, skKem, c, ctx) == Ok(Decapsulated(shared.x, k))
  {
    hide Order, Group.Mul, Group.Valid, HashToScalar, DeviceScalar, PrimeOrder, MacInfo, SharedInfo, EphemeralDst, Ascii;
    EphemeralTag();
    MacTag(ctx);
    SharedTag(ctx);
    ScalarsAgree(h, ikm, EphemeralDst());
    var sk' := HashToScalar(h, ikm, EphemeralDst());
    if sk' != 0 {
      SharedPoint(curve, sk', skKem);
      var pk' := curve.Mul(sk', curve.g);
      var c' := EncodePoint(pk');
      PointRoundTrip(curve, pk');
      var r := KemEncaps(h, curve, curve.Mul(skKem, curve.g), ikm, ctx);
      if r.Ok? {
        assert r.value.1[16..] == c';
        assert r.value.1[..16] == h.hmac(h.hkdf([], curve.Mul(skKem, pk').x, MacInfo(ctx)), c')[..16];
      }
    }
  }

  /** Blinding commutes with taking the public half. */
  lemma {:induction false} BlindingCorrect(curve: Group, skBl: nat, t: nat)
    requires curve.Valid()
    ensures curve.add(curve.Mul(skBl, curve.g), curve.Mul(t, curve.g)) == curve.Mul((skBl + t) % Order(), curve.g)
    ensures curve.Mul((skBl + t) % Order(), curve.g) == Infinity <==> (skBl + t) % Order() == 0
  {
    hide Order, Group.Mul;
    curve.MulAdds(skBl, t, curve.g);
    curve.MulReduces(skBl + t);
    var k := (skBl + t) % Order();
    assert curve.HasOrder(k);
    UniqueRemainder(k, Order(), 0, k);
  }

  /** The point of the module: whatever the secrets, randomness and context, the public key handed
      to the issuer is the public half of the private key the authenticator re-derives from the
      returned handle. Derivation fails for an over-long context, a zero ephemeral scalar or a
      derived key at infinity, and for nothing else. */
  lemma {:induction false} DerivationMatchesAuthenticator(h: Hashes, curve: Group, skBl: nat, skKem: nat, ikm: bytes, ctx: bytes)
    requires curve.Valid() && PrimeOrder() && SecretKey(skBl) && SecretKey(skKem)
    ensures var sk' := DraftEphemeral(h, ikm);
            match DerivePublicKey(h, curve, PublicSeed(curve, skBl, skKem), ikm, ctx)
            case Ok((pk, kh)) =>
              && |ctx| <= 64 && sk' != 0 && |kh| == 16 + 65
              && curve.Mul(sk', curve.g).Affine? && kh[16..] == EncodePoint(curve.Mul(sk', curve.g))
              && var private_ := DerivePrivateKey(h, curve, skBl, skKem, kh, ctx);
                 && private_.Ok? && SecretKey(private_.value)
                 && curve.Mul(private_.value, curve.g) == pk
            case Err(_) =>
              || |ctx| > 64
              || sk' == 0
              || var shared := curve.Mul(sk', curve.Mul(skKem, curve.g));
                 && shared.Affine?
                 && var tau := h.hkdf([], shared.x, Ascii("ARKG-KEM-HMAC-shared.ARKG-ECDH.ARKG-P256") + DeviceKemContext(ctx));
                    (skBl + DeviceBlinding(h, tau, ctx)) % Order() == 0
  {
    hide Order, Group.Mul, Group.Valid, HashToScalar, DeviceScalar, KemEncaps, Decapsulate, DraftEphemeral, Ascii,
      BlindingDst, DeviceKemContext, DeviceBlContext, KemContext, BlContext;
    if |ctx| <= 64 {
      var seed := PublicSeed(curve, skBl, skKem);
      ContextsAgree(ctx);
      KemCorrect(h, curve, skKem, ikm, KemContext(ctx));
      var enc := KemEncaps(h, curve, seed.pkKem, ikm, KemContext(ctx));
      if enc.Ok? {
        DstsAreShort(ctx);
        ScalarsAgree(h, enc.value.0, BlindingDst(BlContext(ctx)));
        BlindingCorrect(curve, skBl, DeviceBlinding(h, enc.value.0, ctx));
      }
    }
  }

  // ------------------------------------------------------ signing arguments

  function SignArgs(alg: int, kh: bytes, ctx: bytes): seq<Entry> {
    [Entry(Integer(3), Integer(alg)), Entry(Integer(-1), Octets(kh)), Entry(Integer(-2), Octets(ctx))]
  }

  /** `encode_arkg_sign_args`. */
  function EncodeSignArgs(alg: int, kh: bytes, ctx: bytes): bytes {
    Encode(Map(SignArgs(alg, kh, ctx)))
  }

  /** The authenticator reads back the algorithm, the handle and the context, from a canonical map. */
  lemma {:induction false} SignArgsReadBack(alg: int, kh: bytes, ctx: bytes)
    requires -0x8000_0000_0000_0000 <= alg < 0x8000_0000_0000_0000
    requires |kh| < ARGUMENT_LIMIT && |ctx| < ARGUMENT_LIMIT
    ensures Canonical(Map(SignArgs(alg, kh, ctx)))
    ensures FromReader(EncodeSignArgs(alg, kh, ctx)) == Some(Map(SignArgs(alg, kh, ctx)))
    ensures var m := SignArgs(alg, kh, ctx);
            && IntegerAt(m, Integer(3)) == Some(alg)
            && OctetsAt(m, Integer(-1)) == Some(kh)
            && OctetsAt(m, Integer(-2)) == Some(ctx)
  {
    hide Encode, DecodeItem;
    var m := SignArgs(alg, kh, ctx);
    SmallIntKeys(m);
    assert forall i | 0 <= i < |m| :: Encodable(m[i].key, 255) && Encodable(m[i].val, 255);
    ReadsBack(Map(m));
    LookupAt(m, 0);
    LookupAt(m, 1);
    LookupAt(m, 2);
  }

  // --------------------------------------------------------- the public seed

  const KTY_ARKG_PUB: int := -65537
  const ALG_ARKG_P256: int := -65700
  const ALG_ESP256_ARKG_DEPRECATED: int := -65539

  /** `parse_arkg_pub_seed`. */
  function ParseSeed(curve: Group, v: Value): Result<Seed> {
    var m :- Required(v.AsMap());
    if IntegerAt(m, Integer(1)) != Some(KTY_ARKG_PUB) then Err(Crypto)
    else if IntegerAt(m, Integer(3)) != Some(ALG_ARKG_P256) && IntegerAt(m, Integer(3)) != Some(ALG_ESP256_ARKG_DEPRECATED)
    then Err(Crypto)
    else
      var bl :- Required(Lookup(m, Integer(-1)));
      var kem :- Required(Lookup(m, Integer(-2)));
      var pkBl :- Cose.DecodeKey(curve, bl);
      var pkKem :- Cose.DecodeKey(curve, kem);
      Ok(Seed(pkBl, pkKem))
  }

  /** The composite key an authenticator reports. */
  function SeedValue(seed: Seed, alg: int): Value
    requires seed.pkBl.Affine? && seed.pkKem.Affine?
  {
    Map([Entry(Integer(1), Integer(-65537)), Entry(Integer(3), Integer(alg)),
         Entry(Integer(-1), Cose.EncodeKey(seed.pkBl)), Entry(Integer(-2), Cose.EncodeKey(seed.pkKem))])
  }

  /** A reported seed is read back whole exactly under the registered algorithm or its deprecated
      spelling, with blinding and KEM keys in their own places. */
  lemma {:induction false} SeedReadsBack(curve: Group, seed: Seed, alg: int)
    requires seed.pkBl.Affine? && curve.onCurve(seed.pkBl)
    requires seed.pkKem.Affine? && curve.onCurve(seed.pkKem)
    ensures ParseSeed(curve, SeedValue(seed, alg)) == Ok(seed)
            <==> alg == -65700 || alg == -65539
  {
    hide Cose.DecodeKey, Cose.EncodeKey;
    var m := SeedValue(seed, alg).entries;
    LookupAt(m, 0);
    LookupAt(m, 1);
    LookupAt(m, 2);
    LookupAt(m, 3);
    Cose.KeyRoundTrip(curve, seed.pkBl);
    Cose.KeyRoundTrip(curve, seed.pkKem);
  }
}
