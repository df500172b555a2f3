/** UTF-8 (RFC 3629): what `str::from_utf8` accepts and how a `String` is laid out in octets. */
module Utf8 {
  import opened Bytes
  import opened Results

  function EncodeChar(c: char): (b: bytes)
    ensures 1 <= |b| <= 4
  {
    var n := c as int;
    if n < 0x80 then [n]
    else if n < 0x800 then [0xC0 + n / 64, 0x80 + n % 64]
    else if n < 0x1_0000 then [0xE0 + n / 4096, 0x80 + n / 64 % 64, 0x80 + n % 64]
    else [0xF0 + n / 262144, 0x80 + n / 4096 % 64, 0x80 + n / 64 % 64, 0x80 + n % 64]
  }

  function Encode(s: string): bytes {
    if s == "" then [] else EncodeChar(s[0]) + Encode(s[1..])
  }

  predicate Continues(b: byte) {
    0x80 <= b < 0xC0
  }

  /** The scalar value at the front of `b` and how many octets it takes; overlong forms,
      surrogates and values past U+10FFFF are refused. */
  function DecodeChar(b: bytes): (r: Option<(char, nat)>)
    ensures r.Some? ==> 1 <= r.value.1 <= |b|
  {
    if |b| == 0 then None
    else if b[0] < 0x80 then Some((b[0] as char, 1))
    else if 0xC0 <= b[0] < 0xE0 && |b| >= 2 && Continues(b[1]) then
      var n: int := (b[0] as int - 0xC0) * 64 + (b[1] as int - 0x80);
      if 0x80 <= n then Some((n as char, 2)) else None
    else if 0xE0 <= b[0] < 0xF0 && |b| >= 3 && Continues(b[1]) && Continues(b[2]) then
      var n: int := (b[0] as int - 0xE0) * 4096 + (b[1] as int - 0x80) * 64 + (b[2] as int - 0x80);
      if 0x800 <= n < 0xD800 || 0xE000 <= n then Some((n as char, 3)) else None
    else if 0xF0 <= b[0] < 0xF8 && |b| >= 4 && Continues(b[1]) && Continues(b[2]) && Continues(b[3]) then
      var n: int := (b[0] as int - 0xF0) * 262144 + (b[1] as int - 0x80) * 4096 + (b[2] as int - 0x80) * 64 + (b[3] as int - 0x80);
      if 0x1_0000 <= n < 0x11_0000 then Some((n as char, 4)) else None
    else None
  }

  function Decode(b: bytes): Option<string> {
    if b == [] then Some("")
    else
      match DecodeChar(b)
      case None => None
      case Some((c, n)) =>
        match Decode(b[n..])
        case None => None
        case Some(s) => Some([c] + s)
  }

  /** The six-bit groups of a scalar value put back together. */
  lemma SixBitGroups(n: nat)
    ensures n == n / 64 * 64 + n % 64
    ensures n == n / 4096 * 4096 + n / 64 % 64 * 64 + n % 64
    ensures n == n / 262144 * 262144 + n / 4096 % 64 * 4096 + n / 64 % 64 * 64 + n % 64
  {
    var m := n / 64;
    var l := m / 64;
    assert n / 4096 == l && n / 262144 == l / 64;
  }

  /** Regrouping the groups gives them back. */
  lemma SixBitDigits(q: nat, a: nat, b: nat, c: nat)
    requires a < 64 && b < 64 && c < 64
    ensures var n := q * 262144 + a * 4096 + b * 64 + c;
            n / 262144 == q && n / 4096 % 64 == a && n / 64 % 64 == b && n % 64 == c
  {
    var n := q * 262144 + a * 4096 + b * 64 + c;
    var m := q * 4096 + a * 64 + b;
    var l := q * 64 + a;
    assert n == 64 * m + c;
    assert n / 64 == m;
    assert m == 64 * l + b;
    assert m / 64 == l;
    assert n / 4096 == m / 64;
    assert l / 64 == q;
    assert n / 262144 == l / 64;
  }

  lemma CharRoundTrip(c: char, rest: bytes)
    ensures DecodeChar(EncodeChar(c) + rest) == Some((c, |EncodeChar(c)|))
  {
    var n := c as int;
    var e := EncodeChar(c);
    var b := e + rest;
    assert forall i | 0 <= i < |e| :: b[i] == e[i];
    SixBitGroups(n);
  }

  /** Every string survives being written and read back. */
  lemma {:induction false} RoundTrip(s: string)
    ensures Decode(Encode(s)) == Some(s)
  {
    if s != "" {
      CharRoundTrip(s[0], Encode(s[1..]));
      RoundTrip(s[1..]);
      assert [s[0]] + s[1..] == s;
      assert Encode(s)[|EncodeChar(s[0])|..] == Encode(s[1..]);
    }
  }

  lemma {:induction false} CharRoundTripBack(b: bytes)
    requires DecodeChar(b).Some?
    ensures EncodeChar(DecodeChar(b).value.0) == b[..DecodeChar(b).value.1]
  {
    var (c, n) := DecodeChar(b).value;
    if b[0] < 0x80 {
    } else if b[0] < 0xE0 {
      SixBitDigits(0, 0, b[0] as int - 0xC0, b[1] as int - 0x80);
      assert EncodeChar(c) == [b[0], b[1]];
    } else if b[0] < 0xF0 {
      SixBitDigits(0, b[0] as int - 0xE0, b[1] as int - 0x80, b[2] as int - 0x80);
      assert EncodeChar(c) == [b[0], b[1], b[2]];
    } else {
      FourOctetsBack(b);
    }
  }

  lemma FourOctetsBack(b: bytes)
    requires DecodeChar(b).Some? && b[0] >= 0xF0
    ensures EncodeChar(DecodeChar(b).value.0) == b[..4] && DecodeChar(b).value.1 == 4
  {
    SixBitDigits(b[0] as int - 0xF0, b[1] as int - 0x80, b[2] as int - 0x80, b[3] as int - 0x80);
    assert EncodeChar(DecodeChar(b).value.0) == [b[0], b[1], b[2], b[3]];
  }

  /** Accepted octets are exactly the encoding of what was read: no two octet strings read alike. */
  lemma {:induction false} RoundTripBack(b: bytes)
    requires Decode(b).Some?
    ensures Encode(Decode(b).value) == b
  {
    hide EncodeChar, DecodeChar;
    if b != [] {
      CharRoundTripBack(b);
      var (c, n) := DecodeChar(b).value;
      RoundTripBack(b[n..]);
      assert Decode(b).value == [c] + Decode(b[n..]).value;
      assert b == b[..n] + b[n..];
    }
  }

  predicate Ascii(s: string) {
    forall i | 0 <= i < |s| :: s[i] as int < 0x80
  }

  /** On ASCII text the octets are the character codes. */
  lemma {:induction false} AsciiBytes(s: string)
    requires Ascii(s)
    ensures |Encode(s)| == |s|
    ensures forall i | 0 <= i < |s| :: Encode(s)[i] == s[i] as int
  {
    if s != "" {
      AsciiBytes(s[1..]);
    }
  }

  /** A string has at most one octet-free character: its length never exceeds its octets. */
  lemma {:induction false} NoShorterThanChars(s: string)
    ensures |s| <= |Encode(s)| <= 4 * |s|
  {
    if s != "" {
      NoShorterThanChars(s[1..]);
    }
  }

  /** A NUL octet appears exactly when a NUL character does. */
  lemma {:induction false} NulOctets(s: string)
    ensures 0 in Encode(s) <==> '\0' in s
  {
    if s != "" {
      NulOctets(s[1..]);
      assert s == [s[0]] + s[1..];
      assert 0 in EncodeChar(s[0]) <==> s[0] == '\0';
    }
  }
}
