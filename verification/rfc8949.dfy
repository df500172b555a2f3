/** Encodings published in Appendix A of RFC 8949, as the encoder writes them. */
module Rfc8949Examples {
  import opened Bytes
  import opened Cbor
  import Utf8

  /** Octets written out by their value: the most significant first. */
  lemma Octets2(a: byte, b: byte)
    ensures BeBytes(a * 0x100 + b, 2) == [a, b]
  {
    BeBytesOfValue([a, b]);
    assert [a, b][..1] == [a] && [a][..0] == [];
    assert BeValue([a]) == a && BeValue([a, b]) == a * 0x100 + b;
  }

  lemma Octets4(a: byte, b: byte, c: byte, d: byte)
    ensures BeBytes(((a * 0x100 + b) * 0x100 + c) * 0x100 + d, 4) == [a, b, c, d]
  {
    BeBytesOfValue([a, b, c, d]);
    assert [a, b, c, d][..3] == [a, b, c] && [a, b, c][..2] == [a, b] && [a, b][..1] == [a] && [a][..0] == [];
    assert BeValue([a]) == a;
    assert BeValue([a, b]) == a * 0x100 + b;
    assert BeValue([a, b, c]) == (a * 0x100 + b) * 0x100 + c;
  }

  lemma Octet(a: byte)
    ensures BeBytes(a, 1) == [a]
  {
    assert BeBytes(a / 256, 0) == [];
  }

  lemma Integers()
    ensures Encode(Integer(0)) == [0x00] && Encode(Integer(10)) == [0x0a] && Encode(Integer(23)) == [0x17]
    ensures Encode(Integer(24)) == [0x18, 0x18] && Encode(Integer(100)) == [0x18, 0x64]
    ensures Encode(Integer(1000)) == [0x19, 0x03, 0xe8]
    ensures Encode(Integer(1000000)) == [0x1a, 0x00, 0x0f, 0x42, 0x40]
    ensures Encode(Integer(-1)) == [0x20] && Encode(Integer(-10)) == [0x29]
    ensures Encode(Integer(-100)) == [0x38, 0x63]
    ensures Encode(Integer(-1000)) == [0x39, 0x03, 0xe7]
  {
    hide BeBytes;
    Octet(24);
    Octet(100);
    Octet(99);
    Octets2(0x03, 0xe8);
    Octets2(0x03, 0xe7);
    Octets4(0x00, 0x0f, 0x42, 0x40);
  }

  lemma Simples()
    ensures Encode(Bool(false)) == [0xf4] && Encode(Bool(true)) == [0xf5] && Encode(Null) == [0xf6]
    ensures Encode(Octets([])) == [0x40]
    ensures Encode(Octets([0x01, 0x02, 0x03, 0x04])) == [0x44, 0x01, 0x02, 0x03, 0x04]
  {
  }

  lemma OneChar(c: char)
    ensures Utf8.Encode([c]) == Utf8.EncodeChar(c)
  {
    assert [c][1..] == "";
    assert Utf8.Encode("") == [];
  }

  lemma ShortTextHead(s: string)
    requires |Utf8.Encode(s)| < 24
    ensures Encode(Text(s)) == [0x60 + |Utf8.Encode(s)|] + Utf8.Encode(s)
  {
    hide Utf8.Encode;
  }

  lemma AsciiTexts()
    ensures Encode(Text("")) == [0x60]
    ensures Encode(Text("IETF")) == [0x64, 0x49, 0x45, 0x54, 0x46]
  {
    hide Utf8.Encode, Encode;
    Utf8.AsciiBytes("");
    Utf8.AsciiBytes("IETF");
    ShortTextHead("");
    ShortTextHead("IETF");
  }

  lemma OtherTexts()
    ensures Encode(Text([0xfc as char])) == [0x62, 0xc3, 0xbc]
    ensures Encode(Text([0x6c34 as char])) == [0x63, 0xe6, 0xb0, 0xb4]
    ensures Encode(Text([0x10151 as char])) == [0x64, 0xf0, 0x90, 0x85, 0x91]
  {
    hide Utf8.Encode, Encode;
    OneChar(0xfc as char);
    OneChar(0x6c34 as char);
    OneChar(0x10151 as char);
    ShortTextHead([0xfc as char]);
    ShortTextHead([0x6c34 as char]);
    ShortTextHead([0x10151 as char]);
  }

  lemma Arrays()
    ensures Encode(Array([])) == [0x80]
    ensures Encode(Array([Integer(1), Integer(2), Integer(3)])) == [0x83, 0x01, 0x02, 0x03]
  {
    hide EncodeEntries;
    var a := [Integer(1), Integer(2), Integer(3)];
    assert a[1..] == [Integer(2), Integer(3)] && a[1..][1..] == [Integer(3)] && a[1..][1..][1..] == [];
    assert EncodeItems([Integer(3)]) == [0x03];
    assert EncodeItems([Integer(2), Integer(3)]) == [0x02, 0x03];
  }

  lemma Maps()
    ensures Encode(Map([])) == [0xa0]
    ensures Encode(Map([Entry(Integer(1), Integer(2)), Entry(Integer(3), Integer(4))])) == [0xa2, 0x01, 0x02, 0x03, 0x04]
  {
    hide EncodeItems;
    var m := [Entry(Integer(1), Integer(2)), Entry(Integer(3), Integer(4))];
    assert m[1..] == [Entry(Integer(3), Integer(4))] && m[1..][1..] == [];
    assert EncodeEntry(m[0]) == [0x01, 0x02] && EncodeEntry(m[1]) == [0x03, 0x04];
    assert EncodeEntries(m[1..]) == [0x03, 0x04];
  }
}
