/** AES-256-CBC without padding, as PinUvAuthProtocol one and two use it
    (src/ctap2_client_pin.rs), over an abstract block permutation. */
module Cbc {
  import opened Bytes
  import opened Results
  import opened Primitives

  datatype Cipher = Cipher(enc: (bytes, Block) -> Block, dec: (bytes, Block) -> Block) {
    /** Under every key, deciphering undoes enciphering. */
    ghost predicate Valid() {
      forall key: bytes, b: Block :: dec(key, enc(key, b)) == b
    }
  }

  predicate Aligned(b: bytes) {
    |b| % 16 == 0
  }

  function CbcEncrypt(c: Cipher, key: bytes, iv: Block, p: bytes): (ct: bytes)
    requires Aligned(p)
    ensures |ct| == |p|
    decreases |p|
  {
    if p == [] then []
    else
      var x := c.enc(key, XorBytes(p[..16], iv));
      x + CbcEncrypt(c, key, x, p[16..])
  }

  function CbcDecrypt(c: Cipher, key: bytes, iv: Block, ct: bytes): (p: bytes)
    requires Aligned(ct)
    ensures |p| == |ct|
    decreases |ct|
  {
    if ct == [] then []
    else XorBytes(c.dec(key, ct[..16]), iv) + CbcDecrypt(c, key, ct[..16], ct[16..])
  }

  lemma {:induction false} CbcRoundTrip(c: Cipher, key: bytes, iv: Block, p: bytes)
    requires c.Valid() && Aligned(p)
    ensures CbcDecrypt(c, key, iv, CbcEncrypt(c, key, iv, p)) == p
    decreases |p|
  {
    hide XorBytes;
    if p != [] {
      var x := c.enc(key, XorBytes(p[..16], iv));
      var ct := CbcEncrypt(c, key, iv, p);
      assert ct[..16] == x && ct[16..] == CbcEncrypt(c, key, x, p[16..]);
      CbcRoundTrip(c, key, x, p[16..]);
      XorBytesUndoes(p[..16], iv);
      assert p[..16] + p[16..] == p;
    }
  }

  /** The `i`-th block. */
  function BlockAt(b: bytes, i: nat): Block
    requires 16 * i + 16 <= |b|
  {
    b[16 * i..16 * i + 16]
  }

  /** CBC block by block: each ciphertext block enciphers the plaintext block combined with the
      ciphertext block before it, the first with the IV. */
  ghost predicate Chained(c: Cipher, key: bytes, iv: Block, p: bytes, ct: bytes) {
    && |ct| == |p|
    && forall i: nat | 16 * i + 16 <= |p| ::
         BlockAt(ct, i) == c.enc(key, XorBytes(BlockAt(p, i), if i == 0 then iv else BlockAt(ct, i - 1)))
  }

  ghost predicate Unchained(c: Cipher, key: bytes, iv: Block, ct: bytes, p: bytes) {
    && |p| == |ct|
    && forall i: nat | 16 * i + 16 <= |ct| ::
         BlockAt(p, i) == XorBytes(c.dec(key, BlockAt(ct, i)), if i == 0 then iv else BlockAt(ct, i - 1))
  }

  lemma {:induction false} EncryptChains(c: Cipher, key: bytes, iv: Block, p: bytes)
    requires Aligned(p)
    ensures Chained(c, key, iv, p, CbcEncrypt(c, key, iv, p))
    decreases |p|
  {
    hide XorBytes;
    if p != [] {
      var x: Block := c.enc(key, XorBytes(p[..16], iv));
      var ct := CbcEncrypt(c, key, iv, p);
      var rest := CbcEncrypt(c, key, x, p[16..]);
      EncryptChains(c, key, x, p[16..]);
      assert ct == x + rest;
      assert BlockAt(ct, 0) == x && BlockAt(p, 0) == p[..16];
      forall i: nat | 1 <= i && 16 * i + 16 <= |p|
        ensures BlockAt(ct, i) == c.enc(key, XorBytes(BlockAt(p, i), BlockAt(ct, i - 1)))
      {
        assert BlockAt(ct, i) == BlockAt(rest, i - 1) && BlockAt(p, i) == BlockAt(p[16..], i - 1);
        assert i > 1 ==> BlockAt(ct, i - 1) == BlockAt(rest, i - 2);
      }
    }
  }

  lemma {:induction false} DecryptUnchains(c: Cipher, key: bytes, iv: Block, ct: bytes)
    requires Aligned(ct)
    ensures Unchained(c, key, iv, ct, CbcDecrypt(c, key, iv, ct))
    decreases |ct|
  {
    hide XorBytes;
    if ct != [] {
      var first: Block := ct[..16];
      var x: Block := XorBytes(c.dec(key, first), iv);
      var p := CbcDecrypt(c, key, iv, ct);
      var rest := CbcDecrypt(c, key, first, ct[16..]);
      DecryptUnchains(c, key, first, ct[16..]);
      assert p == x + rest;
      assert BlockAt(p, 0) == x && BlockAt(ct, 0) == first;
      forall i: nat | 1 <= i && 16 * i + 16 <= |ct|
        ensures BlockAt(p, i) == XorBytes(c.dec(key, BlockAt(ct, i)), BlockAt(ct, i - 1))
      {
        assert BlockAt(p, i) == BlockAt(rest, i - 1) && BlockAt(ct, i) == BlockAt(ct[16..], i - 1);
        assert i > 1 ==> BlockAt(ct, i - 1) == BlockAt(ct[16..], i - 2);
      }
    }
  }

  /** One step of each loop: the block at `at`, then the rest chained to its ciphertext. */
  lemma EncryptStep(c: Cipher, key: bytes, prev: Block, p: bytes, at: nat, block: Block)
    requires Aligned(p) && at % 16 == 0 && at < |p| && p[at..][..16] == block
    ensures var x := c.enc(key, XorBytes(block, prev));
            CbcEncrypt(c, key, prev, p[at..]) == x + CbcEncrypt(c, key, x, p[at + 16..])
  {
    assert p[at..][16..] == p[at + 16..];
  }

  lemma DecryptStep(c: Cipher, key: bytes, prev: Block, ct: bytes, at: nat, block: Block)
    requires Aligned(ct) && at % 16 == 0 && at < |ct| && ct[at..][..16] == block
    ensures CbcDecrypt(c, key, prev, ct[at..])
              == XorBytes(c.dec(key, block), prev) + CbcDecrypt(c, key, block, ct[at + 16..])
  {
    assert ct[at..][16..] == ct[at + 16..];
  }

  /** After writing block `x` at `at`: one more block is done, and the rest is untouched. */
  lemma BlockWritten(before: bytes, now: bytes, x: Block, at: nat, rest: bytes)
    requires at + 16 <= |before| && now == before[..at] + x + before[at + 16..]
    ensures now[..at + 16] == before[..at] + x && now[at + 16..] == before[at..][16..]
    ensures before[..at] + (x + rest) == now[..at + 16] + rest
  {
    assert now == (before[..at] + x) + before[at..][16..];
  }

  /** Enciphers the buffer block by block in place. */
  method EncryptInPlace(c: Cipher, key: bytes, iv: Block, buf: array<byte>)
    requires buf.Length % 16 == 0
    modifies buf
    ensures buf[..] == CbcEncrypt(c, key, iv, old(buf[..]))
    ensures Chained(c, key, iv, old(buf[..]), buf[..])
  {
    hide XorBytes, CbcEncrypt, Chained;
    ghost var plain := buf[..];
    var prev := iv;
    var at := 0;
    while at < buf.Length
      invariant at % 16 == 0 && 0 <= at <= buf.Length
      invariant buf[..][at..] == plain[at..]
      invariant buf[..][..at] + CbcEncrypt(c, key, prev, plain[at..]) == CbcEncrypt(c, key, iv, plain)
    {
      ghost var before := buf[..];
      var block: Block := buf[at..at + 16];
      assert block == before[at..][..16] == plain[at..][..16];
      EncryptStep(c, key, prev, plain, at, block);
      var x: Block := c.enc(key, XorBytes(block, prev));
      WriteBlock(buf, x, at);
      BlockWritten(before, buf[..], x, at, CbcEncrypt(c, key, x, plain[at + 16..]));
      prev := x;
      at := at + 16;
    }
    NothingLeft(c, key, prev);
    EncryptChains(c, key, iv, plain);
  }

  /** Deciphers the buffer block by block in place, keeping each ciphertext block for the next. */
  method DecryptInPlace(c: Cipher, key: bytes, iv: Block, buf: array<byte>)
    requires buf.Length % 16 == 0
    modifies buf
    ensures buf[..] == CbcDecrypt(c, key, iv, old(buf[..]))
    ensures Unchained(c, key, iv, old(buf[..]), buf[..])
  {
    hide XorBytes, CbcDecrypt, Unchained;
    ghost var ct := buf[..];
    var prev := iv;
    var at := 0;
    while at < buf.Length
      invariant at % 16 == 0 && 0 <= at <= buf.Length
      invariant buf[..][at..] == ct[at..]
      invariant buf[..][..at] + CbcDecrypt(c, key, prev, ct[at..]) == CbcDecrypt(c, key, iv, ct)
    {
      ghost var before := buf[..];
      var block: Block := buf[at..at + 16];
      assert block == before[at..][..16] == ct[at..][..16];
      DecryptStep(c, key, prev, ct, at, block);
      var x: Block := XorBytes(c.dec(key, block), prev);
      WriteBlock(buf, x, at);
      BlockWritten(before, buf[..], x, at, CbcDecrypt(c, key, block, ct[at + 16..]));
      prev := block;
      at := at + 16;
    }
    NothingLeft(c, key, prev);
    DecryptUnchains(c, key, iv, ct);
  }

  method WriteBlock(buf: array<byte>, x: Block, at: nat)
    requires at + 16 <= buf.Length
    modifies buf
    ensures buf[..] == old(buf[..at]) + x + old(buf[at + 16..])
  {
    forall j | 0 <= j < 16 {
      buf[at + j] := x[j];
    }
  }

  lemma NothingLeft(c: Cipher, key: bytes, prev: Block)
    ensures CbcEncrypt(c, key, prev, []) == [] && CbcDecrypt(c, key, prev, []) == []
  {
  }

  // ------------------------------------------------- the two protocols

  datatype Protocol = One | Two {
    function AsInt(): int {
      if One? then 1 else 2
    }
  }

  function FromInt(n: int): Option<Protocol> {
    if n == 1 then Some(One) else if n == 2 then Some(Two) else None
  }

  /** `encrypt`: a zero IV for protocol one; `iv` prepended for protocol two. */
  function Encrypt(c: Cipher, protocol: Protocol, key: bytes, iv: Block, p: bytes): bytes
    requires Aligned(p)
  {
    match protocol
    case One => CbcEncrypt(c, key, Zeros(16), p)
    case Two => iv + CbcEncrypt(c, key, iv, p)
  }

  /** `decrypt`. */
  function Decrypt(c: Cipher, protocol: Protocol, key: bytes, ciphertext: bytes): Result<bytes> {
    match protocol
    case One => if Aligned(ciphertext) then Ok(CbcDecrypt(c, key, Zeros(16), ciphertext)) else Err(Crypto)
    case Two =>
      if |ciphertext| < 16 || !Aligned(ciphertext[16..]) then Err(Crypto)
      else Ok(CbcDecrypt(c, key, ciphertext[..16], ciphertext[16..]))
  }

  method EncryptBuffer(c: Cipher, protocol: Protocol, key: bytes, random: Block, p: bytes) returns (out: bytes)
    requires Aligned(p)
    ensures out == Encrypt(c, protocol, key, random, p)
    ensures protocol.One? ==> Chained(c, key, seq(16, _ => 0), p, out)
    ensures protocol.Two? ==> |out| == |p| + 16 && out[..16] == random && Chained(c, key, random, p, out[16..])
  {
    hide CbcEncrypt, Chained;
    var iv := if protocol.One? then Zeros(16) else random;
    var buf := new byte[|p|](i requires 0 <= i < |p| => p[i]);
    assert buf[..] == p;
    EncryptInPlace(c, key, iv, buf);
    if protocol.One? {
      out := buf[..];
      assert iv == seq(16, _ => 0);
    } else {
      out := iv;
      out := out + buf[..];
      assert out[16..] == buf[..];
    }
  }

  method DecryptBuffer(c: Cipher, protocol: Protocol, key: bytes, ciphertext: bytes) returns (r: Result<bytes>)
    ensures r == Decrypt(c, protocol, key, ciphertext)
    ensures r.Ok? && protocol.One? ==> Unchained(c, key, seq(16, _ => 0), ciphertext, r.value)
    ensures r.Ok? && protocol.Two? ==> |ciphertext| >= 16 && Unchained(c, key, ciphertext[..16], ciphertext[16..], r.value)
  {
    hide CbcDecrypt, Unchained;
    assert Zeros(16) == seq(16, _ => 0);
    var iv: Block, ct := Zeros(16), ciphertext;
    if protocol.Two? {
      if |ciphertext| < 16 {
        return Err(Crypto);
      }
      iv, ct := ciphertext[..16], ciphertext[16..];
    }
    if |ct| % 16 != 0 {
      return Err(Crypto);
    }
    var buf := new byte[|ct|](i requires 0 <= i < |ct| => ct[i]);
    assert buf[..] == ct;
    DecryptInPlace(c, key, iv, buf);
    r := Ok(buf[..]);
  }

  /** What one side enciphers the other deciphers, and the ciphertext is as long as it must be. */
  lemma {:induction false} ProtocolRoundTrip(c: Cipher, protocol: Protocol, key: bytes, iv: Block, p: bytes)
    requires c.Valid() && Aligned(p)
    ensures var ct := Encrypt(c, protocol, key, iv, p);
            && |ct| == |p| + (if protocol.One? then 0 else 16)
            && Decrypt(c, protocol, key, ct) == Ok(p)
  {
    hide CbcEncrypt, CbcDecrypt;
    match protocol
    case One => CbcRoundTrip(c, key, Zeros(16), p);
    case Two =>
      var ct := iv + CbcEncrypt(c, key, iv, p);
      assert ct[..16] == iv && ct[16..] == CbcEncrypt(c, key, iv, p);
      CbcRoundTrip(c, key, iv, p);
  }

  /** Exactly the ciphertexts that are too short or unaligned are refused. */
  lemma DecryptRefuses(c: Cipher, protocol: Protocol, key: bytes, ciphertext: bytes)
    ensures Decrypt(c, protocol, key, ciphertext).Err? <==>
            !Aligned(ciphertext) || (protocol.Two? && ciphertext == [])
  {
    hide CbcDecrypt;
  }
}
