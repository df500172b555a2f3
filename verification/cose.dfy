/** EC2 COSE keys carried as CBOR values (src/ctap2_client_pin.rs). */
module Cose {
  import opened Results
  import opened Cbor
  import opened Curve

  /** `encode_platform_cose_key`. */
  function EncodeKey(p: Point): Value
    requires p.Affine?
  {
    Map([Entry(Integer(1), Integer(2)), Entry(Integer(3), Integer(-25)), Entry(Integer(-1), Integer(1)),
         Entry(Integer(-2), Octets(p.x)), Entry(Integer(-3), Octets(p.y))])
  }

  /** `decode_cose_ec2_public_key`. */
  function DecodeKey(curve: Group, v: Value): Result<Point> {
    var m :- Required(v.AsMap());
    var x :- Required(FindOctets(m, Integer(-2)));
    var y :- Required(FindOctets(m, Integer(-3)));
    if |x| != 32 || |y| != 32 then Err(Crypto)
    else Required(DecodePoint(curve, [0x04] + x + y))
  }

  lemma {:induction false} KeyRoundTrip(curve: Group, p: Point)
    requires p.Affine? && curve.onCurve(p)
    ensures DecodeKey(curve, EncodeKey(p)) == Ok(p)
    ensures Canonical(EncodeKey(p))
    ensures Encodable(EncodeKey(p), 1)
  {
    hide Encode;
    var m := EncodeKey(p).entries;
    FindOctetsAt(m, 3);
    FindOctetsAt(m, 4);
    PointRoundTrip(curve, p);
    assert [0x04] + p.x + p.y == EncodePoint(p);
    SmallIntKeys(m);
  }

  /** A key is read exactly when its coordinates, under labels -2 and -3, are 32 octets each and
      make a point of the curve. */
  lemma ReadExactly(curve: Group, v: Value, p: Point)
    requires p.Affine?
    ensures DecodeKey(curve, v) == Ok(p) <==>
            && v.Map? && curve.onCurve(p)
            && FindOctets(v.entries, Integer(-2)) == Some(p.x) && FindOctets(v.entries, Integer(-3)) == Some(p.y)
  {
    hide FindOctets;
    if curve.onCurve(p) {
      PointRoundTrip(curve, p);
    }
    assert EncodePoint(p) == [0x04] + p.x + p.y;
    if v.Map? && DecodeKey(curve, v).Ok? {
      var x, y := FindOctets(v.entries, Integer(-2)).value, FindOctets(v.entries, Integer(-3)).value;
      PointRoundTripBack(curve, [0x04] + x + y);
      assert ([0x04] + x + y)[1..33] == x && ([0x04] + x + y)[33..65] == y;
    }
  }
}
