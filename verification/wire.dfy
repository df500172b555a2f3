/** What the messages hold, read off their own octets: literal command and status octets, labels
    and values (src/preview_sign_protocol.rs, src/ctap2_client_pin.rs). */
module Wire {
  import opened Bytes
  import opened Results
  import opened Cbor
  import opened Ctap2
  import opened Factors
  import opened PreviewSign
  import opened PreviewSignResponses
  import opened Curve
  import Utf8
  import Cose

  // ---------------------------------------------------------------- requests

  const OUTER_ALGORITHMS: seq<int> := [-7, -8, -35, -36, -37, -257, -47, -48, -49, -50]

  predicate ListsOuterAlgorithms(v: Option<Value>) {
    && v.Some? && v.value.Array? && |v.value.items| == 10
    && forall i | 0 <= i < 10 :: v.value.items[i] ==
         Map([Entry(Text("alg"), Integer(OUTER_ALGORITHMS[i])), Entry(Text("type"), Text("public-key"))])
  }

  /** The extension's inputs: the generated key's algorithms, and flags that ask for presence and
      verification both. */
  predicate AsksForKey(v: Option<Value>, algorithms: seq<i64>) {
    && v.Some? && v.value.Map? && |v.value.entries| == 1 && v.value.entries[0].key == Text("previewSign")
    && v.value.entries[0].val.Map?
    && var inputs := v.value.entries[0].val.entries;
       && |inputs| == 2
       && inputs[0].key == Integer(3) && inputs[0].val.Array? && |inputs[0].val.items| == |algorithms|
       && (forall i | 0 <= i < |algorithms| :: inputs[0].val.items[i] == Integer(algorithms[i]))
       && inputs[1] == Entry(Integer(4), Integer(5))
  }

  /** A token's parameter and protocol under two labels, or neither. */
  predicate CarriesProof(m: seq<Entry>, label_: int, auth: Option<PinUvAuth>) {
    match auth
    case Some(a) =>
      Lookup(m, Integer(label_)) == Some(Octets(a.param)) && Lookup(m, Integer(label_ + 1)) == Some(Integer(a.protocol))
    case None => Lookup(m, Integer(label_)) == None && Lookup(m, Integer(label_ + 1)) == None
  }

  predicate Holds(command: bytes, code: byte, size: nat) {
    |command| >= 1 && command[0] == code && ReadMap(command[1..]).Ok? && |ReadMap(command[1..]).value| == size
  }

  /** The whole content of a makeCredential command. */
  lemma {:induction false} MakeCredentialCommandReads(rpId: string, userId: bytes, clientDataHash: bytes, algorithms: seq<i64>,
                                                      auth: Option<PinUvAuth>)
    requires InMemory(Utf8.Encode(rpId)) && InMemory(userId) && InMemory(clientDataHash)
    requires |algorithms| < 0x8000_0000_0000_0000 && AuthInMemory(auth)
    ensures var command := MakeCredentialRequestBytes(rpId, userId, clientDataHash, algorithms, auth);
            && Holds(command, 0x01, if auth.Some? then 7 else 5)
            && var m := ReadMap(command[1..]).value;
               && Lookup(m, Integer(1)) == Some(Octets(clientDataHash))
               && Lookup(m, Integer(2)) == Some(Map([Entry(Text("id"), Text(rpId)), Entry(Text("name"), Text(rpId))]))
               && Lookup(m, Integer(3)) == Some(Map([Entry(Text("id"), Octets(userId)), Entry(Text("name"), Text("wscd-user")),
                                                     Entry(Text("displayName"), Text("WSCD User"))]))
               && ListsOuterAlgorithms(Lookup(m, Integer(4)))
               && AsksForKey(Lookup(m, Integer(6)), algorithms)
               && CarriesProof(m, 8, auth)
  {
    hide Utf8.Encode, Encode, DecodeItem, Encodable;
    var m := MakeCredentialParams(rpId, userId, clientDataHash, algorithms, auth);
    MakeCredentialParamsEncodable(rpId, userId, clientDataHash, algorithms, auth);
    CommandReads(0x01, m);
    LookupAt(m, 0);
    LookupAt(m, 1);
    LookupAt(m, 2);
    LookupAt(m, 3);
    LookupAt(m, 4);
    if auth.Some? {
      LookupAt(m, 5);
      LookupAt(m, 6);
    } else {
      LookupAbsent(m, Integer(8));
      LookupAbsent(m, Integer(9));
    }
  }

  lemma {:induction false} CommandReads(code: byte, params: seq<Entry>)
    requires Encodable(Map(params), NESTING_LIMIT)
    ensures var command := EncodeCommand(code, params);
            |command| >= 1 && command[0] == code && ReadMap(command[1..]) == Ok(params)
  {
    hide Encode, DecodeItem, Encodable;
    ReadsBack(Map(params));
    assert EncodeCommand(code, params)[1..] == Encode(Map(params));
  }

  /** The whole content of a getAssertion command. */
  lemma {:induction false} GetAssertionCommandReads(rpId: string, challenge: bytes, credentialId: bytes, sign: SignInput,
                                                    auth: Option<PinUvAuth>)
    requires InMemory(Utf8.Encode(rpId)) && InMemory(challenge) && InMemory(credentialId)
    requires SignInMemory(sign) && AuthInMemory(auth)
    ensures var command := GetAssertionRequestBytes(rpId, challenge, credentialId, sign, auth);
            && Holds(command, 0x02, if auth.Some? then 6 else 4)
            && var m := ReadMap(command[1..]).value;
               && Lookup(m, Integer(1)) == Some(Text(rpId))
               && Lookup(m, Integer(2)) == Some(Octets(challenge))
               && Lookup(m, Integer(3)) == Some(Array([Map([Entry(Text("id"), Octets(credentialId)),
                                                            Entry(Text("type"), Text("public-key"))])]))
               && Lookup(m, Integer(4)) == Some(Map([Entry(Text("previewSign"), Map(
                    [Entry(Integer(2), Octets(sign.keyHandle)), Entry(Integer(6), Octets(sign.tbs))]
                    + match sign.additionalArgs case Some(args) => [Entry(Integer(7), Octets(args))] case None => []))]))
               && CarriesProof(m, 6, auth)
  {
    hide Utf8.Encode, Encode, DecodeItem, Encodable;
    var m := GetAssertionParams(rpId, challenge, credentialId, sign, auth);
    GetAssertionParamsEncodable(rpId, challenge, credentialId, sign, auth);
    CommandReads(0x02, m);
    LookupAt(m, 0);
    LookupAt(m, 1);
    LookupAt(m, 2);
    LookupAt(m, 3);
    if auth.Some? {
      LookupAt(m, 4);
      LookupAt(m, 5);
    } else {
      LookupAbsent(m, Integer(6));
      LookupAbsent(m, Integer(7));
    }
  }

  // --------------------------------------------------------------- responses

  /** The layout of attested authenticator data, octet by octet. */
  lemma AttestedOctets(aaguid: bytes, credentialId: bytes, cose: bytes, extensions: Option<Value>)
    requires |aaguid| == 16 && |credentialId| < 0x1_0000
    ensures AttestedAuthData(aaguid, credentialId, cose, extensions)
         == seq(32, _ => 0) + [if extensions.Some? then 0xC0 else 0x40] + [0, 0, 0, 1] + aaguid
            + [|credentialId| / 256, |credentialId| % 256] + credentialId + cose
            + (match extensions case Some(e) => Encode(e) case None => [])
  {
    hide Encode, BeBytes, Zeros;
    TwoOctets(|credentialId|);
    assert Zeros(32) == seq(32, _ => 0) by { NoughtsAre(); }
    assert BeBytes(|credentialId|, 2) == [|credentialId| / 256, |credentialId| % 256];
  }

  lemma NoughtsAre()
    ensures Zeros(32) == seq(32, _ => 0)
  {
  }

  /** And of an assertion's: the UV bit is set exactly when the user was verified. */
  lemma AssertionOctets(result: SignResult)
    ensures AssertionAuthData(result)
         == seq(32, _ => 0) + [if result.userVerified then 0x84 else 0x80] + [0, 0, 0, 1]
            + Encode(Map([Entry(Text("previewSign"), Map([Entry(Integer(6), Octets(result.signature))]))]
                         + match result.verifiedFactor
                           case Some(f) => [Entry(Text("x-ts12-verified-factor"),
                                                  Map([Entry(Text("category"), Text(CategoryName(f.category))),
                                                       Entry(Text("method"), Text(f.method_))]))]
                           case None => []))
  {
    hide Encode;
  }

  function CategoryName(c: FactorCategory): string {
    match c
    case Knowledge => "knowledge"
    case Possession => "possession"
    case Inherence => "inherence"
  }

  lemma {:induction false} GetAssertionResponseReads(result: SignResult)
    requires InMemory(result.signature)
    requires result.verifiedFactor.Some? ==> InVocabulary(result.verifiedFactor.value)
    ensures var response := GetAssertionResponse(result);
            && Holds(response, 0x00, 1)
            && Lookup(ReadMap(response[1..]).value, Integer(2)) == Some(Octets(AssertionAuthData(result)))
  {
    hide Encode, DecodeItem, Encodable, AssertionAuthData;
    AssertionExtensionsFit(result);
    AssertionObjectFits(result);
    CommandReads(0x00, AssertionObject(result));
    LookupAt(AssertionObject(result), 0);
  }

  /** The synthetic makeCredential response: format none, the outer credential with the signed
      algorithm, an empty statement, and the key's object under label 7. */
  lemma {:induction false} MakeCredentialResponseHolds(result: MakeCredentialResult)
    requires |result.credentialId| < 0x1_0000
    requires |InnerObject(result.generatedKey)| < ARGUMENT_LIMIT
    ensures var response := EncodeMakeCredentialResponse(result);
            && Holds(response, 0x00, 4)
            && var m := ReadMap(response[1..]).value;
               && Lookup(m, Integer(1)) == Some(Text("none"))
               && Lookup(m, Integer(2)) == Some(Octets(OuterAuthData(result.credentialId, result.generatedKey.algorithm)))
               && Lookup(m, Integer(3)) == Some(Map([]))
               && Lookup(m, Integer(7)) == Some(Octets(
                    if result.generatedKey.attestationObject != [] then result.generatedKey.attestationObject
                    else NoneObject(result.generatedKey)))
  {
    hide Encode, DecodeItem, Encodable, AttestedAuthData, Utf8.Encode;
    var m := OuterObject(result);
    OuterObjectEncodable(result);
    CommandReads(0x00, m);
    LookupAt(m, 0);
    LookupAt(m, 1);
    LookupAt(m, 2);
    LookupAt(m, 3);
    assert AAGUID == seq(16, _ => 0) && Zeros(32) == seq(32, _ => 0);
  }

  function OuterAuthData(credentialId: bytes, algorithm: i64): bytes {
    AttestedAuthData(
      seq(16, _ => 0), credentialId,
      Encode(Map([Entry(Integer(1), Integer(2)), Entry(Integer(3), Integer(-7)), Entry(Integer(-1), Integer(1)),
                  Entry(Integer(-2), Octets(seq(32, _ => 0))), Entry(Integer(-3), Octets(seq(32, _ => 0)))])),
      Some(Map([Entry(Text("previewSign"), Map([Entry(Integer(3), Integer(algorithm))]))])))
  }

  function NoneObject(key: GeneratedKey): bytes {
    Encode(Map([Entry(Integer(1), Text("none")),
                Entry(Integer(2), Octets(AttestedAuthData(seq(16, _ => 0), key.keyHandle, key.publicKeyCose, None))),
                Entry(Integer(3), Map([]))]))
  }

  // ----------------------------------------------------- what is read at all

  /** An assertion's extensions are read when there is more than a header, the extensions bit is set
      and the attested-credential bit is clear: then all of what follows the header. */
  lemma AssertionExtensionsReadExactly(a: bytes, m: seq<Entry>)
    ensures AssertionExtensionMap(a) == Some(m) <==>
              |a| > 37 && (a[32] as int / 128) % 2 == 1 && (a[32] as int / 64) % 2 == 0 && FromReader(a[37..]) == Some(Map(m))
  {
    hide FromReader;
  }

  /** The signature is octets under label 6 of previewSign, in those extensions. */
  lemma SignatureReads(a: bytes, m: seq<Entry>, inner: seq<Entry>)
    requires AssertionExtensionMap(a) == Some(m) && Lookup(m, Text("previewSign")) == Some(Map(inner))
    ensures PreviewSignSignature(a) == Required(FindOctets(inner, Integer(6)))
  {
    hide FromReader, AssertionExtensionMap;
  }

  /** Without an attested credential the signed algorithm is read right after the header. */
  lemma {:induction false} UnattestedAlgorithmReads(algorithm: i64)
    ensures SignedAlgorithm(UnattestedAuthData(Some(Map([Entry(Text("previewSign"), Map([Entry(Integer(3), Integer(algorithm))]))]))))
         == Some(algorithm)
  {
    hide Encode, ExtensionAlgorithm;
    SignedAlgorithmReadsBack(algorithm);
    var a := UnattestedAuthData(Some(AlgorithmExtension(algorithm)));
    assert a[37..] == Encode(AlgorithmExtension(algorithm));
  }

  // -------------------------------------------------------------------- keys

  /** The platform's own key, by label. */
  lemma {:induction false} CoseKeyReads(p: Point)
    requires p.Affine?
    ensures Cose.EncodeKey(p) == Map([
              Entry(Integer(1), Integer(2)), Entry(Integer(3), Integer(-25)), Entry(Integer(-1), Integer(1)),
              Entry(Integer(-2), Octets(p.x)), Entry(Integer(-3), Octets(p.y))])
  {
  }
}
