/** The previewSign requests and responses (src/preview_sign_protocol.rs): what the native side
    builds and parses, and what the browser transport parses and encodes on the other end. */
module PreviewSign {
  import opened Bytes
  import opened Results
  import opened Cbor
  import opened Ctap2
  import opened Factors
  import Utf8

  type i64 = x: int | -0x8000_0000_0000_0000 <= x < 0x8000_0000_0000_0000

  datatype GeneratedKey = GeneratedKey(
    keyHandle: bytes, publicKeyCose: bytes, algorithm: i64, attestationObject: bytes)
  datatype MakeCredentialResult = MakeCredentialResult(credentialId: bytes, generatedKey: GeneratedKey)
  datatype SignInput = SignInput(keyHandle: bytes, tbs: bytes, additionalArgs: Option<bytes>)
  datatype SignResult = SignResult(signature: bytes, userVerified: bool, verifiedFactor: Option<AuthFactor>)
  datatype PinUvAuth = PinUvAuth(param: bytes, protocol: i64)

  const MAKE_CREDENTIAL: byte := 0x01
  const GET_ASSERTION: byte := 0x02
  const AT_FLAG: byte := 0x40
  const ED_FLAG: byte := 0x80
  const UV_FLAG: byte := 0x04
  const HEADER_LEN: nat := 37

  const DEFAULT_PUB_KEY_CRED_ALGS: seq<i64> := [-7, -8, -35, -36, -37, -257, -47, -48, -49, -50]

  function IntegerItems(ns: seq<i64>): (items: seq<Value>)
    ensures |items| == |ns|
  {
    seq(|ns|, i requires 0 <= i < |ns| => Integer(ns[i]))
  }

  // -------------------------------------------------------------- requests

  function GenerateKeyInputs(algorithms: seq<i64>, requireUv: bool): seq<Entry> {
    [Entry(Integer(3), Array(IntegerItems(algorithms))), Entry(Integer(4), Integer(if requireUv then 5 else 1))]
  }

  function SignInputs(sign: SignInput): seq<Entry> {
    [Entry(Integer(2), Octets(sign.keyHandle)), Entry(Integer(6), Octets(sign.tbs))]
    + match sign.additionalArgs
      case Some(args) => [Entry(Integer(7), Octets(args))]
      case None => []
  }

  function Extension(inputs: seq<Entry>): Value {
    Map([Entry(Text("previewSign"), Map(inputs))])
  }

  function RelyingParty(rpId: string): seq<Entry> {
    [Entry(Text("id"), Text(rpId)), Entry(Text("name"), Text(rpId))]
  }

  function User(userId: bytes): seq<Entry> {
    [Entry(Text("id"), Octets(userId)), Entry(Text("name"), Text("wscd-user")),
     Entry(Text("displayName"), Text("WSCD User"))]
  }

  function CredentialParameter(alg: i64): seq<Entry> {
    [Entry(Text("alg"), Integer(alg)), Entry(Text("type"), Text("public-key"))]
  }

  function CredentialParameters(algs: seq<i64>): (items: seq<Value>)
    ensures |items| == |algs|
  {
    seq(|algs|, i requires 0 <= i < |algs| => Map(CredentialParameter(algs[i])))
  }

  function PinEntries(paramKey: int, auth: Option<PinUvAuth>): seq<Entry> {
    match auth
    case Some(a) => [Entry(Integer(paramKey), Octets(a.param)), Entry(Integer(paramKey + 1), Integer(a.protocol))]
    case None => []
  }

  function MakeCredentialParams(rpId: string, userId: bytes, clientDataHash: bytes, algorithms: seq<i64>,
                                auth: Option<PinUvAuth>): seq<Entry>
  {
    [Entry(Integer(1), Octets(clientDataHash)),
     Entry(Integer(2), Map(RelyingParty(rpId))),
     Entry(Integer(3), Map(User(userId))),
     Entry(Integer(4), Array(CredentialParameters(DEFAULT_PUB_KEY_CRED_ALGS))),
     Entry(Integer(6), Extension(GenerateKeyInputs(algorithms, true)))]
    + PinEntries(8, auth)
  }

  function Descriptor(credentialId: bytes): seq<Entry> {
    [Entry(Text("id"), Octets(credentialId)), Entry(Text("type"), Text("public-key"))]
  }

  function GetAssertionParams(rpId: string, challenge: bytes, credentialId: bytes, sign: SignInput,
                              auth: Option<PinUvAuth>): seq<Entry>
  {
    [Entry(Integer(1), Text(rpId)),
     Entry(Integer(2), Octets(challenge)),
     Entry(Integer(3), Array([Map(Descriptor(credentialId))])),
     Entry(Integer(4), Extension(SignInputs(sign)))]
    + PinEntries(6, auth)
  }

  function MakeCredentialRequestBytes(rpId: string, userId: bytes, clientDataHash: bytes, algorithms: seq<i64>,
                                      auth: Option<PinUvAuth>): bytes
  {
    EncodeCommand(MAKE_CREDENTIAL, MakeCredentialParams(rpId, userId, clientDataHash, algorithms, auth))
  }

  function GetAssertionRequestBytes(rpId: string, challenge: bytes, credentialId: bytes, sign: SignInput,
                                    auth: Option<PinUvAuth>): bytes
  {
    EncodeCommand(GET_ASSERTION, GetAssertionParams(rpId, challenge, credentialId, sign, auth))
  }

  method BuildMakeCredentialRequest(rpId: string, userId: bytes, clientDataHash: bytes, algorithms: seq<i64>,
                                    auth: Option<PinUvAuth>)
    returns (command: bytes)
    ensures command == MakeCredentialRequestBytes(rpId, userId, clientDataHash, algorithms, auth)
  {
    var params := [
      Entry(Integer(1), Octets(clientDataHash)),
      Entry(Integer(2), Map(RelyingParty(rpId))),
      Entry(Integer(3), Map(User(userId))),
      Entry(Integer(4), Array(CredentialParameters(DEFAULT_PUB_KEY_CRED_ALGS))),
      Entry(Integer(6), Extension(GenerateKeyInputs(algorithms, true)))];
    if auth.Some? {
      params := params + [Entry(Integer(8), Octets(auth.value.param))];
      params := params + [Entry(Integer(9), Integer(auth.value.protocol))];
    }
    assert params == MakeCredentialParams(rpId, userId, clientDataHash, algorithms, auth);
    command := EncodeCommand(MAKE_CREDENTIAL, params);
  }

  method BuildGetAssertionRequest(rpId: string, challenge: bytes, credentialId: bytes, sign: SignInput,
                                  auth: Option<PinUvAuth>)
    returns (command: bytes)
    ensures command == GetAssertionRequestBytes(rpId, challenge, credentialId, sign, auth)
  {
    var inner := [Entry(Integer(2), Octets(sign.keyHandle)), Entry(Integer(6), Octets(sign.tbs))];
    if sign.additionalArgs.Some? {
      inner := inner + [Entry(Integer(7), Octets(sign.additionalArgs.value))];
    }
    assert inner == SignInputs(sign);
    var params := [
      Entry(Integer(1), Text(rpId)),
      Entry(Integer(2), Octets(challenge)),
      Entry(Integer(3), Array([Map(Descriptor(credentialId))])),
      Entry(Integer(4), Extension(inner))];
    if auth.Some? {
      params := params + [Entry(Integer(6), Octets(auth.value.param))];
      params := params + [Entry(Integer(7), Integer(auth.value.protocol))];
    }
    assert params == GetAssertionParams(rpId, challenge, credentialId, sign, auth);
    command := EncodeCommand(GET_ASSERTION, params);
  }

  datatype MakeCredentialRequest = MakeCredentialRequest(
    rpId: string, userId: bytes, clientDataHash: bytes, algorithms: seq<i64>)
  datatype GetAssertionRequest = GetAssertionRequest(
    rpId: string, challenge: bytes, credentialId: bytes, sign: SignInput)

  function ToI64(i: int): Option<i64> {
    if -0x8000_0000_0000_0000 <= i < 0x8000_0000_0000_0000 then Some(i) else None
  }

  /** `filter_map` to the items that are 64-bit integers. */
  function I64Items(items: seq<Value>): seq<i64> {
    if items == [] then []
    else
      (if items[0].Integer? && ToI64(items[0].i).Some? then [ToI64(items[0].i).value] else [])
      + I64Items(items[1..])
  }

  function Params(command: bytes, code: byte): Result<seq<Entry>> {
    if |command| == 0 || command[0] != code then Err(Crypto) else ReadMap(command[1..])
  }

  function ParseMakeCredentialRequest(command: bytes): Result<MakeCredentialRequest> {
    var m :- Params(command, MAKE_CREDENTIAL);
    var clientDataHash :- Required(OctetsAt(m, Integer(1)));
    var rp :- Required(MapAt(m, Integer(2)));
    var rpId :- Required(TextAt(rp, Text("id")));
    var user :- Required(MapAt(m, Integer(3)));
    var userId :- Required(OctetsAt(user, Text("id")));
    var extensions :- Required(MapAt(m, Integer(6)));
    var previewSign :- Required(MapAt(extensions, Text("previewSign")));
    var algorithms :- Required(ArrayAt(previewSign, Integer(3)));
    Ok(MakeCredentialRequest(rpId, userId, clientDataHash, I64Items(algorithms)))
  }

  function ParseGetAssertionRequest(command: bytes): Result<GetAssertionRequest> {
    var m :- Params(command, GET_ASSERTION);
    var rpId :- Required(TextAt(m, Integer(1)));
    var challenge :- Required(OctetsAt(m, Integer(2)));
    var allowList :- Required(ArrayAt(m, Integer(3)));
    var first :- Required(if allowList == [] then None else allowList[0].AsMap());
    var credentialId :- Required(OctetsAt(first, Text("id")));
    var extensions :- Required(MapAt(m, Integer(4)));
    var previewSign :- Required(MapAt(extensions, Text("previewSign")));
    var keyHandle :- Required(OctetsAt(previewSign, Integer(2)));
    var tbs :- Required(OctetsAt(previewSign, Integer(6)));
    Ok(GetAssertionRequest(rpId, challenge, credentialId,
                           SignInput(keyHandle, tbs, OctetsAt(previewSign, Integer(7)))))
  }

  lemma {:induction false} I64ItemsOfIntegers(ns: seq<i64>)
    ensures I64Items(IntegerItems(ns)) == ns
  {
    if ns != [] {
      I64ItemsOfIntegers(ns[1..]);
      assert IntegerItems(ns)[1..] == IntegerItems(ns[1..]);
    }
  }

  predicate AuthInMemory(auth: Option<PinUvAuth>) {
    auth.Some? ==> InMemory(auth.value.param)
  }

  predicate SignInMemory(sign: SignInput) {
    && InMemory(sign.keyHandle) && InMemory(sign.tbs)
    && (sign.additionalArgs.Some? ==> InMemory(sign.additionalArgs.value))
  }

  /** The literal texts of the messages are short. */
  lemma ShortText(s: string, d: nat)
    requires |s| <= 30
    ensures Encodable(Text(s), d)
  {
    Utf8.NoShorterThanChars(s);
  }

  predicate EntryEncodable(e: Entry, d: nat) {
    Encodable(e.key, d) && Encodable(e.val, d)
  }

  lemma {:induction false} MapEncodable(entries: seq<Entry>, d: nat)
    requires |entries| < 0x1_0000_0000 && forall k | 0 <= k < |entries| :: EntryEncodable(entries[k], d)
    ensures Encodable(Map(entries), d + 1)
  {
    forall k | 0 <= k < |entries|
      ensures Encodable(entries[k].key, d) && Encodable(entries[k].val, d)
    {
      assert EntryEncodable(entries[k], d);
    }
  }

  lemma {:induction false} CredentialParametersEncodable(algs: seq<i64>)
    requires |algs| < 100
    ensures Encodable(Array(CredentialParameters(algs)), 2)
  {
    hide Utf8.Encode;
    forall i | 0 <= i < |algs|
      ensures Encodable(CredentialParameters(algs)[i], 1)
    {
      ShortText("alg", 0);
      ShortText("type", 0);
      ShortText("public-key", 0);
      MapEncodable(CredentialParameter(algs[i]), 0);
    }
  }

  /** A smaller nesting allowance is enough for a larger one. */
  lemma {:induction false} EncodableDeeper(v: Value, d: nat, e: nat)
    requires Encodable(v, d) && d <= e
    ensures Encodable(v, e)
    decreases v
  {
    match v
    case Array(items) =>
      forall i | 0 <= i < |items| ensures Encodable(items[i], e - 1) {
        EncodableDeeper(items[i], d - 1, e - 1);
      }
    case Map(entries) =>
      forall i | 0 <= i < |entries| ensures Encodable(entries[i].key, e - 1) && Encodable(entries[i].val, e - 1) {
        EncodableDeeper(entries[i].key, d - 1, e - 1);
        EncodableDeeper(entries[i].val, d - 1, e - 1);
      }
    case _ =>
  }

  lemma {:induction false} MakeCredentialParamsEncodable(
    rpId: string, userId: bytes, clientDataHash: bytes, algorithms: seq<i64>, auth: Option<PinUvAuth>)
    requires InMemory(Utf8.Encode(rpId)) && InMemory(userId) && InMemory(clientDataHash)
    requires |algorithms| < 0x8000_0000_0000_0000 && AuthInMemory(auth)
    ensures Encodable(Map(MakeCredentialParams(rpId, userId, clientDataHash, algorithms, auth)), NESTING_LIMIT)
  {
    hide Utf8.Encode, Encodable;
    IdentitiesEncodable(rpId, userId);
    CredentialParametersEncodable(DEFAULT_PUB_KEY_CRED_ALGS);
    AlgorithmsEncodable(algorithms);
    ExtensionEncodable(GenerateKeyInputs(algorithms, true));
    var m := MakeCredentialParams(rpId, userId, clientDataHash, algorithms, auth);
    EncodableDeeper(m[1].val, 1, 3);
    EncodableDeeper(m[2].val, 1, 3);
    EncodableDeeper(m[3].val, 2, 3);
    PinEntriesEncodable(8, auth);
    FixedLengthLeaves(clientDataHash);
    MapEncodable(m, 3);
    EncodableDeeper(Map(m), 4, NESTING_LIMIT);
  }

  lemma {:induction false} IdentitiesEncodable(rpId: string, userId: bytes)
    requires InMemory(Utf8.Encode(rpId)) && InMemory(userId)
    ensures Encodable(Map(RelyingParty(rpId)), 1) && Encodable(Map(User(userId)), 1)
  {
    hide Utf8.Encode;
    ShortText("id", 0);
    ShortText("name", 0);
    MapEncodable(RelyingParty(rpId), 0);
    ShortText("displayName", 0);
    ShortText("wscd-user", 0);
    ShortText("WSCD User", 0);
    MapEncodable(User(userId), 0);
  }

  lemma {:induction false} AlgorithmsEncodable(algorithms: seq<i64>)
    requires |algorithms| < 0x8000_0000_0000_0000
    ensures Encodable(Map(GenerateKeyInputs(algorithms, true)), 2)
  {
    assert Encodable(Array(IntegerItems(algorithms)), 1);
    MapEncodable(GenerateKeyInputs(algorithms, true), 1);
  }

  lemma {:induction false} PinEntriesEncodable(paramKey: int, auth: Option<PinUvAuth>)
    requires 0 <= paramKey < 10 && AuthInMemory(auth)
    ensures forall e | e in PinEntries(paramKey, auth) :: EntryEncodable(e, 3)
  {
  }

  /** A small label or an octet string fits anywhere. */
  lemma {:induction false} FixedLengthLeaves(b: bytes)
    requires InMemory(b)
    ensures Encodable(Octets(b), 3)
    ensures forall n {:trigger Integer(n)} | -24 <= n < 24 :: Encodable(Integer(n), 3)
  {
  }

  lemma {:induction false} ExtensionEncodable(inputs: seq<Entry>)
    requires Encodable(Map(inputs), 2)
    ensures Encodable(Extension(inputs), 3)
  {
    hide Utf8.Encode;
    ShortText("previewSign", 2);
    MapEncodable([Entry(Text("previewSign"), Map(inputs))], 2);
  }

  /** The browser side reads from a built request exactly what the native side put in. */
  lemma {:induction false} MakeCredentialRequestRoundTrip(rpId: string, userId: bytes, clientDataHash: bytes, algorithms: seq<i64>,
                                       auth: Option<PinUvAuth>)
    requires InMemory(Utf8.Encode(rpId)) && InMemory(userId) && InMemory(clientDataHash)
    requires |algorithms| < 0x8000_0000_0000_0000 && AuthInMemory(auth)
    ensures var command := MakeCredentialRequestBytes(rpId, userId, clientDataHash, algorithms, auth);
            && ParseMakeCredentialRequest(command) == Ok(MakeCredentialRequest(rpId, userId, clientDataHash, algorithms))
            && ParseGetAssertionRequest(command) == Err(Crypto)
  {
    hide Utf8.Encode, Encode, DecodeItem, Encodable;
    var m := MakeCredentialParams(rpId, userId, clientDataHash, algorithms, auth);
    var command := MakeCredentialRequestBytes(rpId, userId, clientDataHash, algorithms, auth);
    MakeCredentialParamsEncodable(rpId, userId, clientDataHash, algorithms, auth);
    ReadsBack(Map(m));
    assert command[1..] == Encode(Map(m));
    LookupAt(m, 0);
    LookupAt(m, 1);
    LookupAt(m, 2);
    LookupAt(m, 4);
    I64ItemsOfIntegers(algorithms);
  }

  lemma {:induction false} GetAssertionParamsEncodable(
    rpId: string, challenge: bytes, credentialId: bytes, sign: SignInput, auth: Option<PinUvAuth>)
    requires InMemory(Utf8.Encode(rpId)) && InMemory(challenge) && InMemory(credentialId)
    requires SignInMemory(sign) && AuthInMemory(auth)
    ensures Encodable(Map(GetAssertionParams(rpId, challenge, credentialId, sign, auth)), NESTING_LIMIT)
  {
    hide Utf8.Encode;
    ShortText("id", 1);
    ShortText("type", 1);
    ShortText("public-key", 1);
    MapEncodable(Descriptor(credentialId), 1);
    assert Encodable(Array([Map(Descriptor(credentialId))]), 3);
    MapEncodable(SignInputs(sign), 1);
    ExtensionEncodable(SignInputs(sign));
    var m := GetAssertionParams(rpId, challenge, credentialId, sign, auth);
    MapEncodable(m, 3);
    EncodableDeeper(Map(m), 4, NESTING_LIMIT);
  }

  lemma SignInputsReadBack(sign: SignInput)
    ensures OctetsAt(SignInputs(sign), Integer(2)) == Some(sign.keyHandle)
    ensures OctetsAt(SignInputs(sign), Integer(6)) == Some(sign.tbs)
    ensures OctetsAt(SignInputs(sign), Integer(7)) == sign.additionalArgs
  {
    var m := SignInputs(sign);
    LookupAt(m, 0);
    LookupAt(m, 1);
    if sign.additionalArgs.Some? {
      LookupAt(m, 2);
    } else {
      LookupAbsent(m, Integer(7));
    }
  }

  lemma {:induction false} GetAssertionRequestRoundTrip(rpId: string, challenge: bytes, credentialId: bytes, sign: SignInput,
                                     auth: Option<PinUvAuth>)
    requires InMemory(Utf8.Encode(rpId)) && InMemory(challenge) && InMemory(credentialId)
    requires SignInMemory(sign) && AuthInMemory(auth)
    ensures var command := GetAssertionRequestBytes(rpId, challenge, credentialId, sign, auth);
            && ParseGetAssertionRequest(command) == Ok(GetAssertionRequest(rpId, challenge, credentialId, sign))
            && ParseMakeCredentialRequest(command) == Err(Crypto)
  {
    hide Utf8.Encode, Encode, DecodeItem, Encodable;
    var m := GetAssertionParams(rpId, challenge, credentialId, sign, auth);
    var command := GetAssertionRequestBytes(rpId, challenge, credentialId, sign, auth);
    GetAssertionParamsEncodable(rpId, challenge, credentialId, sign, auth);
    ReadsBack(Map(m));
    assert command[1..] == Encode(Map(m));
    LookupAt(m, 0);
    LookupAt(m, 1);
    LookupAt(m, 2);
    LookupAt(m, 3);
    LookupAt(Descriptor(credentialId), 0);
    LookupAt([Entry(Text("previewSign"), Map(SignInputs(sign)))], 0);
    SignInputsReadBack(sign);
  }

  // ------------------------------------------------- canonical key order

  lemma {:induction false} TextKeysCanonical(entries: seq<Entry>)
    requires forall k | 0 <= k < |entries| ::
               && entries[k].key.Text? && Utf8.Ascii(entries[k].key.s) && |entries[k].key.s| < 24
               && Canonical(entries[k].val)
    requires forall k, l | 0 <= k < l < |entries| :: |entries[k].key.s| < |entries[l].key.s|
    ensures Canonical(Map(entries))
  {
    hide Utf8.Encode;
    forall k, l | 0 <= k < l < |entries|
      ensures KeyBefore(entries[k].key, entries[l].key)
    {
      ShorterTextBefore(entries[k].key.s, entries[l].key.s);
    }
  }

  /** A makeCredential command lists every map's keys, at every depth, in CTAP2 canonical order. */
  lemma {:induction false} MakeCredentialIsCanonical(
    rpId: string, userId: bytes, clientDataHash: bytes, algorithms: seq<i64>, auth: Option<PinUvAuth>)
    ensures Canonical(Map(MakeCredentialParams(rpId, userId, clientDataHash, algorithms, auth)))
  {
    hide Utf8.Encode, Encode, KeyBefore;
    IdentitiesCanonical(rpId, userId);
    ParametersCanonical();
    ExtensionCanonical(GenerateKeyInputs(algorithms, true));
    hide RelyingParty, User, CredentialParameters, Extension;
    SmallIntKeys(MakeCredentialParams(rpId, userId, clientDataHash, algorithms, auth));
  }

  lemma {:induction false} IdentitiesCanonical(rpId: string, userId: bytes)
    ensures Canonical(Map(RelyingParty(rpId))) && Canonical(Map(User(userId)))
  {
    hide Utf8.Encode, Encode, KeyBefore;
    TextKeysCanonical(RelyingParty(rpId));
    TextKeysCanonical(User(userId));
  }

  lemma {:induction false} ParametersCanonical()
    ensures Canonical(Array(CredentialParameters(DEFAULT_PUB_KEY_CRED_ALGS)))
  {
    hide Utf8.Encode, Encode, KeyBefore;
    var algs := DEFAULT_PUB_KEY_CRED_ALGS;
    forall i | 0 <= i < |algs|
      ensures Canonical(CredentialParameters(algs)[i])
    {
      TextKeysCanonical(CredentialParameter(algs[i]));
    }
  }

  /** So does a getAssertion command. */
  lemma {:induction false} GetAssertionIsCanonical(
    rpId: string, challenge: bytes, credentialId: bytes, sign: SignInput, auth: Option<PinUvAuth>)
    ensures Canonical(Map(GetAssertionParams(rpId, challenge, credentialId, sign, auth)))
  {
    hide Utf8.Encode, Encode, KeyBefore;
    TextKeysCanonical(Descriptor(credentialId));
    ExtensionCanonical(SignInputs(sign));
    hide Extension, Descriptor;
    SmallIntKeys(GetAssertionParams(rpId, challenge, credentialId, sign, auth));
  }

  lemma {:induction false} ExtensionCanonical(inputs: seq<Entry>)
    requires forall i | 0 <= i < |inputs| ::
               inputs[i].key.Integer? && 0 <= inputs[i].key.i < 24 && Canonical(inputs[i].val)
    requires forall i, j | 0 <= i < j < |inputs| :: inputs[i].key.i < inputs[j].key.i
    ensures Canonical(Extension(inputs))
  {
    hide Utf8.Encode, Encode, KeyBefore;
    SmallIntKeys(inputs);
    TextKeysCanonical([Entry(Text("previewSign"), Map(inputs))]);
  }
}
