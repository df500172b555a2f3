/** previewSign responses (src/preview_sign_protocol.rs): authenticator data with its
    length-prefixed credential, the synthetic encoders of the browser transport, and the native
    parsers that must read them back. */
module PreviewSignResponses {
  import opened Bytes
  import opened Results
  import opened Cbor
  import opened Ctap2
  import opened Factors
  import opened PreviewSign
  import Utf8

  const VERIFIED_FACTOR_KEY := "x-ts12-verified-factor"

  // ------------------------------------------------------ authenticator data

  function Header(flags: byte): (b: bytes)
    ensures |b| == HEADER_LEN
  {
    Zeros(32) + [flags] + [0, 0, 0, 1]
  }

  /** `aaguid || credIdLen || credId`, the length taken modulo 2^16 as the cast to u16 does. */
  function CredentialPrefix(aaguid: bytes, credentialId: bytes): bytes {
    aaguid + BeBytes(|credentialId|, 2) + credentialId
  }

  function ExtensionBytes(extensions: Option<Value>): bytes {
    match extensions case Some(e) => Encode(e) case None => []
  }

  function AttestedAuthData(aaguid: bytes, credentialId: bytes, cose: bytes, extensions: Option<Value>): bytes
    requires |aaguid| == 16
  {
    Header(if extensions.Some? then AT_FLAG + ED_FLAG else AT_FLAG)
    + CredentialPrefix(aaguid, credentialId) + cose + ExtensionBytes(extensions)
  }

  function UnattestedAuthData(extensions: Option<Value>): bytes {
    Header(if extensions.Some? then ED_FLAG else 0) + ExtensionBytes(extensions)
  }

  lemma {:induction false} LowHalf(n: nat)
    ensures n % 0x1_0000 / 256 == n / 256 % 256
    ensures n % 0x1_0000 % 256 == n % 256
  {
    var q, r := n / 0x1_0000, n % 0x1_0000;
    assert n == 256 * (256 * q) + r;
    assert n / 256 == 256 * q + r / 256;
  }

  /** A u16 length field. */
  lemma {:induction false} TwoOctets(n: nat)
    ensures BeBytes(n, 2) == [n % 0x1_0000 / 256, n % 0x1_0000 % 256]
  {
    LowHalf(n);
    assert BeBytes(n / 256, 1) == BeBytes(n / 256 / 256, 0) + [n / 256 % 256];
  }

  method BuildAttestedAuthData(aaguid: bytes, credentialId: bytes, cose: bytes, extensions: Option<Value>)
    returns (buf: bytes)
    requires |aaguid| == 16
    ensures buf == AttestedAuthData(aaguid, credentialId, cose, extensions)
  {
    hide Encode;
    buf := Zeros(32);
    var flags: byte := 0x40;
    if extensions.Some? {
      flags := 0xC0;
    }
    buf := buf + [flags];
    buf := buf + [0, 0, 0, 1];
    buf := buf + aaguid;
    var len := |credentialId| % 0x1_0000;
    buf := buf + [len / 256];
    buf := buf + [len % 256];
    TwoOctets(|credentialId|);
    buf := buf + credentialId;
    buf := buf + cose;
    if extensions.Some? {
      buf := buf + Encode(extensions.value);
    }
  }

  /** The attested block of some authenticator data: the credential id, the key item, and the
      offset just past it. */
  datatype AttestedBlock = AttestedBlock(credentialId: bytes, key: Value, end: nat)

  function Attested(a: bytes): (r: Option<AttestedBlock>)
    ensures r.Some? ==> 55 <= r.value.end <= |a|
  {
    if |a| < 55 || !HasFlag(a[32], AT_FLAG) then None
    else
      var n := a[53] as int * 256 + a[54] as int;
      if |a| < 55 + n then None
      else
        match DecodeItem(a[55 + n..], NESTING_LIMIT)
        case None => None
        case Some(p) => Some(AttestedBlock(a[55..55 + n], p.value, |a| - |p.rest|))
  }

  function KeyAlgorithm(key: Value): Option<i64> {
    match key
    case Map(m) => (match IntegerAt(m, Integer(3)) case Some(i) => ToI64(i) case None => None)
    case _ => None
  }

  datatype AttestedCredential = AttestedCredential(credentialId: bytes, cose: bytes, algorithm: Option<i64>)

  function AttestedCredentialData(a: bytes): Result<AttestedCredential> {
    match Attested(a)
    case None => Err(Crypto)
    case Some(block) => Ok(AttestedCredential(block.credentialId, Encode(block.key), KeyAlgorithm(block.key)))
  }

  /** `parse_attested_credential_data`: an offset walks the fixed part, a cursor takes one item. */
  method ParseAttestedCredentialData(authData: bytes) returns (r: Result<AttestedCredential>)
    ensures r == AttestedCredentialData(authData)
  {
    if |authData| < 37 {
      return Err(Crypto);
    }
    if !HasFlag(authData[32], AT_FLAG) {
      return Err(Crypto);
    }
    var offset := 37 + 16;
    if |authData| < offset + 2 {
      return Err(Crypto);
    }
    var credIdLen := authData[offset] as int * 256 + authData[offset + 1] as int;
    offset := offset + 2;
    if |authData| < offset + credIdLen {
      return Err(Crypto);
    }
    var credId := authData[offset..offset + credIdLen];
    offset := offset + credIdLen;
    var cursor := authData[offset..];
    var item := DecodeItem(cursor, NESTING_LIMIT);
    if item.None? {
      return Err(Crypto);
    }
    r := Ok(AttestedCredential(credId, Encode(item.value.value), KeyAlgorithm(item.value.value)));
  }

  function ExtensionAlgorithm(extensions: bytes): Option<i64> {
    var v :- FromReader(extensions);
    var m :- v.AsMap();
    var previewSign :- MapAt(m, Text("previewSign"));
    var alg :- IntegerAt(previewSign, Integer(3));
    ToI64(alg)
  }

  /** The signed previewSign algorithm: from right after the header, or, when a credential is
      attested, from exactly where its block ends. */
  function SignedAlgorithm(a: bytes): Option<i64> {
    if |a| <= HEADER_LEN || !HasFlag(a[32], ED_FLAG) then None
    else if !HasFlag(a[32], AT_FLAG) then ExtensionAlgorithm(a[HEADER_LEN..])
    else
      match Attested(a)
      case None => None
      case Some(block) => ExtensionAlgorithm(a[block.end..])
  }

  /** `extract_signed_previewsign_algorithm`. It walks to the end of the attested block by its own
      arithmetic and stops at the same octet as `ParseAttestedCredentialData` does. */
  method ExtractSignedAlgorithm(authData: bytes) returns (r: Option<i64>)
    ensures r == SignedAlgorithm(authData)
  {
    hide DecodeItem;
    if |authData| <= 37 {
      return None;
    }
    var flags := authData[32];
    if !HasFlag(flags, ED_FLAG) {
      return None;
    }
    var offset := 37;
    if HasFlag(flags, AT_FLAG) {
      offset := offset + 16;
      if |authData| < offset + 2 {
        return None;
      }
      var credIdLen := authData[offset] as int * 256 + authData[offset + 1] as int;
      offset := offset + 2 + credIdLen;
      if |authData| <= offset {
        EmptyHasNoItem(NESTING_LIMIT);
        assert |authData| == offset ==> authData[offset..] == [];
        return None;
      }
      var cursor := authData[offset..];
      var before := |cursor|;
      var item := DecodeItem(cursor, NESTING_LIMIT);
      if item.None? {
        return None;
      }
      cursor := item.value.rest;
      offset := offset + (before - |cursor|);
    }
    r := ExtensionAlgorithm(authData[offset..]);
  }

  lemma EmptyHasNoItem(depth: nat)
    ensures DecodeItem([], depth) == None
  {
  }

  /** What `Attested` accepts, said without offsets: the octets fall into a header, an aaguid, a
      length-prefixed id, one CBOR item and whatever is left. */
  ghost predicate LaidOut(a: bytes, header: bytes, aaguid: bytes, credentialId: bytes, keyBytes: bytes,
                          key: Value, rest: bytes)
  {
    && |header| == HEADER_LEN && HasFlag(header[32], AT_FLAG) && |aaguid| == 16 && |credentialId| < 0x1_0000
    && a == header + CredentialPrefix(aaguid, credentialId) + keyBytes + rest
    && DecodeItem(keyBytes + rest, NESTING_LIMIT) == Some(Parsed(key, rest))
  }

  /** Any data laid out so is accepted, with the end of the block right before what is left. */
  lemma {:induction false} LaidOutIsAttested(a: bytes, header: bytes, aaguid: bytes, credentialId: bytes,
                                             keyBytes: bytes, key: Value, rest: bytes)
    requires LaidOut(a, header, aaguid, credentialId, keyBytes, key, rest)
    ensures Attested(a) == Some(AttestedBlock(credentialId, key, |a| - |rest|))
    ensures a[|a| - |rest|..] == rest
  {
    hide DecodeItem;
    var n := |credentialId|;
    TwoOctets(n);
    var prefix := CredentialPrefix(aaguid, credentialId);
    assert |prefix| == 18 + n;
    assert a[32] == header[32];
    assert a[53] == prefix[16] && a[54] == prefix[17];
    assert a[55..55 + n] == credentialId;
    assert a[55 + n..] == keyBytes + rest;
  }

  /** And only such data is accepted: the layout can be read off every accepted string. */
  lemma {:induction false} AttestedIsLaidOut(a: bytes)
    requires Attested(a).Some?
    ensures var block := Attested(a).value;
            var n := |block.credentialId|;
            LaidOut(a, a[..37], a[37..53], block.credentialId, a[55 + n..block.end], block.key, a[block.end..])
  {
    hide DecodeItem, CredentialPrefix;
    var block := Attested(a).value;
    var n := |block.credentialId|;
    var tail := a[55 + n..];
    var p := DecodeItem(tail, NESTING_LIMIT).value;
    LeavesASuffix(tail, NESTING_LIMIT);
    assert p.rest == a[block.end..];
    assert a[55 + n..block.end] + p.rest == tail;
    PrefixIsSlice(a, n);
    assert a == a[..37] + a[37..55 + n] + a[55 + n..block.end] + a[block.end..];
  }

  lemma {:induction false} PrefixIsSlice(a: bytes, n: nat)
    requires 55 + n <= |a| && n == a[53] as int * 256 + a[54] as int
    ensures n < 0x1_0000 && CredentialPrefix(a[37..53], a[55..55 + n]) == a[37..55 + n]
  {
    TwoOctets(n);
    assert a[37..55 + n] == a[37..53] + [a[53], a[54]] + a[55..55 + n];
  }

  /** From built authenticator data both walkers recover what went in, whatever extensions follow. */
  lemma {:induction false} BuiltAuthDataReadsBack(aaguid: bytes, credentialId: bytes, key: Value, extensions: Option<Value>)
    requires |aaguid| == 16 && |credentialId| < 0x1_0000
    requires Encodable(key, NESTING_LIMIT)
    requires extensions.Some? ==> Encodable(extensions.value, NESTING_LIMIT)
    ensures var a := AttestedAuthData(aaguid, credentialId, Encode(key), extensions);
            && AttestedCredentialData(a) == Ok(AttestedCredential(credentialId, Encode(key), KeyAlgorithm(key)))
            && SignedAlgorithm(a) == match extensions
                                     case Some(e) => ExtensionAlgorithm(Encode(e))
                                     case None => None
  {
    hide DecodeItem, Encodable, Encode;
    var rest := ExtensionBytes(extensions);
    var a := AttestedAuthData(aaguid, credentialId, Encode(key), extensions);
    var header := Header(if extensions.Some? then AT_FLAG + ED_FLAG else AT_FLAG);
    SelfDelimiting(key, rest, NESTING_LIMIT);
    assert a[32] == header[32];
    LaidOutIsAttested(a, header, aaguid, credentialId, Encode(key), key, rest);
  }

  // -------------------------------------------------- makeCredential response

  const AAGUID: bytes := Zeros(16)

  function PlaceholderKey(): seq<Entry> {
    [Entry(Integer(1), Integer(2)), Entry(Integer(3), Integer(-7)), Entry(Integer(-1), Integer(1)),
     Entry(Integer(-2), Octets(Zeros(32))), Entry(Integer(-3), Octets(Zeros(32)))]
  }

  /** The `none`-format object made up when the browser reported no attestation object. */
  function SyntheticObject(key: GeneratedKey): seq<Entry> {
    [Entry(Integer(1), Text("none")),
     Entry(Integer(2), Octets(AttestedAuthData(AAGUID, key.keyHandle, key.publicKeyCose, None))),
     Entry(Integer(3), Map([]))]
  }

  function InnerObject(key: GeneratedKey): bytes {
    if key.attestationObject == [] then Encode(Map(SyntheticObject(key))) else key.attestationObject
  }

  function AlgorithmExtension(algorithm: i64): Value {
    Extension([Entry(Integer(3), Integer(algorithm))])
  }

  function OuterObject(result: MakeCredentialResult): seq<Entry> {
    [Entry(Integer(1), Text("none")),
     Entry(Integer(2), Octets(AttestedAuthData(AAGUID, result.credentialId, Encode(Map(PlaceholderKey())),
                                         Some(AlgorithmExtension(result.generatedKey.algorithm))))),
     Entry(Integer(3), Map([])),
     Entry(Integer(7), Octets(InnerObject(result.generatedKey)))]
  }

  function EncodeMakeCredentialResponse(result: MakeCredentialResult): bytes {
    [0x00] + Encode(Map(OuterObject(result)))
  }

  /** The generated key's attestation object: unsigned extension outputs first, flat key 7 second. */
  function GeneratedKeyObject(m: seq<Entry>): Option<bytes> {
    var unsigned := match MapAt(m, Integer(6))
                    case None => None
                    case Some(outputs) =>
                      match MapAt(outputs, Text("previewSign"))
                      case None => None
                      case Some(previewSign) => OctetsAt(previewSign, Integer(7));
    unsigned.OrElse(OctetsAt(m, Integer(7)))
  }

  /** Key handle, COSE octets and COSE algorithm out of a generated key's attestation object. */
  function ReadGeneratedKey(attObj: bytes): Result<AttestedCredential> {
    var m :- ReadMap(attObj);
    var authData :- Required(OctetsAt(m, Integer(2)));
    AttestedCredentialData(authData)
  }

  function ParseMakeCredentialResponse(response: bytes): Result<MakeCredentialResult> {
    var body :- SplitStatus(response);
    var m :- ReadMap(body);
    var authData :- Required(OctetsAt(m, Integer(2)));
    var outer :- AttestedCredentialData(authData);
    var attObj :- Required(GeneratedKeyObject(m));
    var inner :- ReadGeneratedKey(attObj);
    Ok(MakeCredentialResult(
         outer.credentialId,
         GeneratedKey(inner.credentialId, inner.cose,
                      SignedAlgorithm(authData).OrElse(inner.algorithm).GetOr(-7), attObj)))
  }

  lemma {:induction false} PlaceholderFits()
    ensures Encodable(Map(PlaceholderKey()), NESTING_LIMIT)
    ensures |Encode(Map(PlaceholderKey()))| < 1000
  {
    var m := PlaceholderKey();
    MapEncodable(m, 0);
    EncodableDeeper(Map(m), 1, NESTING_LIMIT);
    forall i | 0 <= i < |m|
      ensures |Encode(m[i].key)| + |Encode(m[i].val)| <= 60
    {
      LeafSize(m[i].key);
      LeafSize(m[i].val);
    }
    EntriesSize(m, 60);
  }

  lemma {:induction false} AlgorithmExtensionFits(algorithm: i64)
    ensures Encodable(AlgorithmExtension(algorithm), NESTING_LIMIT)
    ensures |Encode(AlgorithmExtension(algorithm))| < 1000
  {
    hide Utf8.Encode;
    var inputs := [Entry(Integer(3), Integer(algorithm))];
    MapEncodable(inputs, 1);
    ExtensionEncodable(inputs);
    EncodableDeeper(AlgorithmExtension(algorithm), 3, NESTING_LIMIT);
    LeafSize(Integer(3));
    LeafSize(Integer(algorithm));
    EntriesSize(inputs, 60);
    Utf8.NoShorterThanChars("previewSign");
    EntriesSize([Entry(Text("previewSign"), Map(inputs))], 150);
  }

  lemma LeafSize(v: Value)
    requires v.Integer? || v.Octets?
    ensures |Encode(v)| <= 9 + if v.Octets? then |v.b| else 0
  {
  }

  /** A coarse bound on how long a small map is. */
  lemma {:induction false} EntriesSize(entries: seq<Entry>, each: nat)
    requires forall i | 0 <= i < |entries| :: |Encode(entries[i].key)| + |Encode(entries[i].val)| <= each
    ensures |EncodeEntries(entries)| <= |entries| * each
    ensures |Encode(Map(entries))| <= 9 + |entries| * each
  {
    if entries != [] {
      EntriesSize(entries[1..], each);
      assert |EncodeEntries(entries)| == |EncodeEntry(entries[0])| + |EncodeEntries(entries[1..])|;
      assert (|entries| - 1) * each + each == |entries| * each;
    }
  }

  // ------------------------------------ makeCredential response, read back

  /** Octets that are the encoding of the item they start with. */
  predicate EncoderForm(b: bytes) {
    FromReader(b).Some? && Encode(FromReader(b).value) == b
  }

  lemma {:induction false} SignedAlgorithmReadsBack(algorithm: i64)
    ensures ExtensionAlgorithm(Encode(AlgorithmExtension(algorithm))) == Some(algorithm)
  {
    hide Encode, Encodable, DecodeItem, Utf8.Encode;
    AlgorithmExtensionFits(algorithm);
    ReadsBack(AlgorithmExtension(algorithm));
    var inputs := [Entry(Integer(3), Integer(algorithm))];
    LookupAt([Entry(Text("previewSign"), Map(inputs))], 0);
    LookupAt(inputs, 0);
  }

  lemma {:induction false} OuterObjectEncodable(result: MakeCredentialResult)
    requires InMemory(result.credentialId) && |InnerObject(result.generatedKey)| < ARGUMENT_LIMIT
    ensures Encodable(Map(OuterObject(result)), NESTING_LIMIT)
  {
    hide Utf8.Encode, Encode, AlgorithmExtension, PlaceholderKey, InnerObject;
    PlaceholderFits();
    AlgorithmExtensionFits(result.generatedKey.algorithm);
    ShortText("none", 1);
    MapEncodable([], 0);
    MapEncodable(OuterObject(result), 1);
    EncodableDeeper(Map(OuterObject(result)), 2, NESTING_LIMIT);
  }

  lemma {:induction false} OuterObjectReadsBack(result: MakeCredentialResult)
    ensures var m := OuterObject(result);
            && OctetsAt(m, Integer(2)) == m[1].val.AsOctets()
            && GeneratedKeyObject(m) == Some(InnerObject(result.generatedKey))
  {
    hide Encode, InnerObject, AttestedAuthData;
    var m := OuterObject(result);
    LookupAt(m, 1);
    LookupAt(m, 3);
    LookupAbsent(m, Integer(6));
  }

  /** The native parser's answer to any synthetic response: the outer id and algorithm it was given,
      and whatever the inner object itself says. */
  lemma {:induction false} MakeCredentialResponseReads(result: MakeCredentialResult)
    requires |result.credentialId| < 0x1_0000
    requires |InnerObject(result.generatedKey)| < ARGUMENT_LIMIT
    ensures ParseMakeCredentialResponse(EncodeMakeCredentialResponse(result)) ==
            match ReadGeneratedKey(InnerObject(result.generatedKey))
            case Err(e) => Err(e)
            case Ok(inner) =>
              Ok(MakeCredentialResult(
                   result.credentialId,
                   GeneratedKey(inner.credentialId, inner.cose, result.generatedKey.algorithm,
                                InnerObject(result.generatedKey))))
  {
    hide Encode, Encodable, DecodeItem, InnerObject, AttestedAuthData, AttestedCredentialData, SignedAlgorithm,
      ReadGeneratedKey, ExtensionAlgorithm, AlgorithmExtension;
    var m := OuterObject(result);
    OuterObjectEncodable(result);
    ReadsBack(Map(m));
    assert EncodeMakeCredentialResponse(result)[1..] == Encode(Map(m));
    OuterObjectReadsBack(result);
    PlaceholderFits();
    AlgorithmExtensionFits(result.generatedKey.algorithm);
    BuiltAuthDataReadsBack(AAGUID, result.credentialId, Map(PlaceholderKey()),
                           Some(AlgorithmExtension(result.generatedKey.algorithm)));
    SignedAlgorithmReadsBack(result.generatedKey.algorithm);
  }

  lemma {:induction false} ThreeEntries(a: Entry, b: Entry, c: Entry)
    ensures |Encode(Map([a, b, c]))| <= 9 + |EncodeEntry(a)| + |EncodeEntry(b)| + |EncodeEntry(c)|
  {
    hide Encode;
    EncodeMap([a, b, c]);
    assert [a, b, c][1..] == [b, c] && [b, c][1..] == [c] && [c][1..] == [];
    assert EncodeEntries([c]) == EncodeEntry(c) + EncodeEntries([]);
    assert EncodeEntries([b, c]) == EncodeEntry(b) + EncodeEntries([c]);
    assert EncodeEntries([a, b, c]) == EncodeEntry(a) + EncodeEntries([b, c]);
  }

  lemma EncodeMap(entries: seq<Entry>)
    ensures Encode(Map(entries)) == EncodeHead(5, |entries|) + EncodeEntries(entries)
  {
  }

  lemma {:induction false} SyntheticObjectEncodable(key: GeneratedKey)
    requires InMemory(key.keyHandle + key.publicKeyCose)
    ensures Encodable(Map(SyntheticObject(key)), NESTING_LIMIT)
    ensures |Encode(Map(SyntheticObject(key)))| < ARGUMENT_LIMIT
  {
    hide Utf8.Encode;
    var m := SyntheticObject(key);
    ShortText("none", 1);
    MapEncodable([], 0);
    MapEncodable(m, 1);
    EncodableDeeper(Map(m), 2, NESTING_LIMIT);
    ThreeEntries(m[0], m[1], m[2]);
    TextSize("none");
    LeafSize(Integer(1));
    LeafSize(Integer(2));
    LeafSize(Integer(3));
    LeafSize(m[1].val);
    assert |m[1].val.b| == 55 + |key.keyHandle + key.publicKeyCose|;
    EncodeMap([]);
    assert |EncodeEntry(m[0])| <= 40 && |EncodeEntry(m[2])| <= 40;
    assert |EncodeEntry(m[1])| <= 0x8000_0000_0000_0000 + 100;
  }

  /** The made-up object gives back the key handle, and the key as the encoder would write it. */
  lemma {:induction false} SyntheticObjectReads(key: GeneratedKey)
    requires |key.keyHandle| < 0x1_0000 && InMemory(key.keyHandle + key.publicKeyCose)
    ensures ReadGeneratedKey(Encode(Map(SyntheticObject(key)))) ==
            match FromReader(key.publicKeyCose)
            case None => Err(Crypto)
            case Some(v) => Ok(AttestedCredential(key.keyHandle, Encode(v), KeyAlgorithm(v)))
  {
    hide Encode, Encodable, DecodeItem;
    var m := SyntheticObject(key);
    SyntheticObjectEncodable(key);
    ReadsBack(Map(m));
    LookupAt(m, 1);
    KeyAtTheEnd(key.keyHandle, key.publicKeyCose);
  }

  /** With no extensions the key item is everything after the id. */
  lemma {:induction false} KeyAtTheEnd(credentialId: bytes, cose: bytes)
    requires |credentialId| < 0x1_0000
    ensures AttestedCredentialData(AttestedAuthData(AAGUID, credentialId, cose, None)) ==
            match FromReader(cose)
            case None => Err(Crypto)
            case Some(v) => Ok(AttestedCredential(credentialId, Encode(v), KeyAlgorithm(v)))
  {
    hide DecodeItem, Encode;
    var n := |credentialId|;
    var a := AttestedAuthData(AAGUID, credentialId, cose, None);
    TwoOctets(n);
    assert a[32] == AT_FLAG;
    var prefix := CredentialPrefix(AAGUID, credentialId);
    assert a == Header(AT_FLAG) + prefix + cose;
    assert a[53] == prefix[16] && a[54] == prefix[17];
    assert a[55..55 + n] == credentialId;
    assert a[55 + n..] == cose;
  }

  /** Without an attestation object the whole result survives exactly when both ids fit the u16
      field and the COSE octets are in encoder form; the object made up for it is handed back. */
  lemma {:induction false} MakeCredentialRoundTripWithoutObject(result: MakeCredentialResult)
    requires result.generatedKey.attestationObject == []
    requires InMemory(result.credentialId)
    requires InMemory(result.generatedKey.keyHandle + result.generatedKey.publicKeyCose)
    ensures var key := result.generatedKey;
            ParseMakeCredentialResponse(EncodeMakeCredentialResponse(result))
              == Ok(result.(generatedKey := key.(attestationObject := InnerObject(key))))
            <==> |result.credentialId| < 0x1_0000 && |key.keyHandle| < 0x1_0000 && EncoderForm(key.publicKeyCose)
  {
    hide Encode, Encodable, DecodeItem, Attested, OuterObject, SignedAlgorithm, SyntheticObject;
    var key := result.generatedKey;
    SyntheticObjectEncodable(key);
    if ParseMakeCredentialResponse(EncodeMakeCredentialResponse(result)).Ok? {
      ParsedIdsAreShort(EncodeMakeCredentialResponse(result));
    }
    if |result.credentialId| < 0x1_0000 && |key.keyHandle| < 0x1_0000 {
      MakeCredentialResponseReads(result);
      SyntheticObjectReads(key);
    }
  }

  lemma {:induction false} ParsedIdsAreShort(response: bytes)
    requires ParseMakeCredentialResponse(response).Ok?
    ensures var r := ParseMakeCredentialResponse(response).value;
            |r.credentialId| < 0x1_0000 && |r.generatedKey.keyHandle| < 0x1_0000
  {
    hide FromReader, SignedAlgorithm;
  }

  /** A reported attestation object comes back octet for octet, with the outer id and algorithm,
      exactly when the id fits and the object holds a readable generated key; handle and key are
      then the object's own. */
  lemma {:induction false} MakeCredentialRoundTripWithObject(result: MakeCredentialResult)
    requires result.generatedKey.attestationObject != []
    requires InMemory(result.credentialId) && InMemory(result.generatedKey.attestationObject)
    ensures var key := result.generatedKey;
            var r := ParseMakeCredentialResponse(EncodeMakeCredentialResponse(result));
            var inner := ReadGeneratedKey(key.attestationObject);
            && ((r.Ok? && r.value.credentialId == result.credentialId)
                <==> |result.credentialId| < 0x1_0000 && inner.Ok?)
            && (|result.credentialId| < 0x1_0000 && inner.Ok? ==>
                 r.value.generatedKey == key.(keyHandle := inner.value.credentialId, publicKeyCose := inner.value.cose))
  {
    hide Encode, Encodable, DecodeItem, Attested, OuterObject, SignedAlgorithm;
    var r := ParseMakeCredentialResponse(EncodeMakeCredentialResponse(result));
    if r.Ok? {
      ParsedIdsAreShort(EncodeMakeCredentialResponse(result));
    }
    if |result.credentialId| < 0x1_0000 {
      MakeCredentialResponseReads(result);
    }
  }

  /** What an authenticator itself answers: format, authenticator data and statement, the generated
      key's object among the unsigned extension outputs, and perhaps another under the flat label. */
  function HardwareObject(fmt: Value, authData: bytes, statement: Value, attObj: bytes, flat: Option<bytes>): seq<Entry> {
    [Entry(Integer(1), fmt), Entry(Integer(2), Octets(authData)), Entry(Integer(3), statement),
     Entry(Integer(6), Map([Entry(Text("previewSign"), Map([Entry(Integer(7), Octets(attObj))]))]))]
    + match flat case Some(f) => [Entry(Integer(7), Octets(f))] case None => []
  }

  /** The older shape: the object under the flat label alone. */
  function FlatObject(fmt: Value, authData: bytes, statement: Value, attObj: bytes): seq<Entry> {
    [Entry(Integer(1), fmt), Entry(Integer(2), Octets(authData)), Entry(Integer(3), statement), Entry(Integer(7), Octets(attObj))]
  }

  /** The generated key read off `attObj`, under the signed algorithm, else the key's own, else
      ES256. */
  predicate ReadOff(r: Result<MakeCredentialResult>, authData: bytes, attObj: bytes) {
    var outer := AttestedCredentialData(authData);
    var inner := ReadGeneratedKey(attObj);
    && (r.Ok? <==> outer.Ok? && inner.Ok?)
    && (r.Ok? ==>
          && r.value.credentialId == outer.value.credentialId
          && r.value.generatedKey.attestationObject == attObj
          && r.value.generatedKey.keyHandle == inner.value.credentialId
          && r.value.generatedKey.publicKeyCose == inner.value.cose
          && r.value.generatedKey.algorithm ==
               if SignedAlgorithm(authData).Some? then SignedAlgorithm(authData).value
               else if inner.value.algorithm.Some? then inner.value.algorithm.value
               else -7)
  }

  /** A hardware response is read from the object in the unsigned outputs, whatever the flat label
      holds: it parses exactly when both objects hold a readable credential. */
  lemma {:induction false} HardwareResponseReads(fmt: Value, authData: bytes, statement: Value, attObj: bytes, flat: Option<bytes>)
    requires Encodable(Map(HardwareObject(fmt, authData, statement, attObj, flat)), NESTING_LIMIT)
    ensures ReadOff(ParseMakeCredentialResponse([0x00] + Encode(Map(HardwareObject(fmt, authData, statement, attObj, flat)))),
                    authData, attObj)
  {
    hide Encode, Encodable, DecodeItem, AttestedCredentialData, SignedAlgorithm, ReadGeneratedKey;
    var m := HardwareObject(fmt, authData, statement, attObj, flat);
    ReadsBack(Map(m));
    assert ([0x00] + Encode(Map(m)))[1..] == Encode(Map(m));
    LookupAt(m, 1);
    LookupAt(m, 3);
    LookupAt([Entry(Text("previewSign"), Map([Entry(Integer(7), Octets(attObj))]))], 0);
    LookupAt([Entry(Integer(7), Octets(attObj))], 0);
  }

  /** Without unsigned outputs the flat label is read. */
  lemma {:induction false} FlatResponseReads(fmt: Value, authData: bytes, statement: Value, attObj: bytes)
    requires Encodable(Map(FlatObject(fmt, authData, statement, attObj)), NESTING_LIMIT)
    ensures ReadOff(ParseMakeCredentialResponse([0x00] + Encode(Map(FlatObject(fmt, authData, statement, attObj)))),
                    authData, attObj)
  {
    hide Encode, Encodable, DecodeItem, AttestedCredentialData, SignedAlgorithm, ReadGeneratedKey;
    var m := FlatObject(fmt, authData, statement, attObj);
    ReadsBack(Map(m));
    assert ([0x00] + Encode(Map(m)))[1..] == Encode(Map(m));
    LookupAt(m, 1);
    LookupAt(m, 3);
    LookupAbsent(m, Integer(6));
  }

  /** The generated key's object holds its authenticator data under label 2. */
  lemma {:induction false} GeneratedKeyReads(entries: seq<Entry>, authData: bytes)
    requires Encodable(Map(entries), NESTING_LIMIT) && Lookup(entries, Integer(2)) == Some(Octets(authData))
    ensures ReadGeneratedKey(Encode(Map(entries))) == AttestedCredentialData(authData)
  {
    hide Encode, Encodable, DecodeItem, AttestedCredentialData;
    ReadsBack(Map(entries));
  }

  // ---------------------------------------------------- getAssertion response

  function FactorEntries(factor: AuthFactor): seq<Entry> {
    [Entry(Text("category"), Text(factor.category.AsStr())), Entry(Text("method"), Text(factor.method_))]
  }

  function AssertionExtensions(result: SignResult): seq<Entry> {
    [Entry(Text("previewSign"), Map([Entry(Integer(6), Octets(result.signature))]))]
    + match result.verifiedFactor
      case Some(f) => [Entry(Text(VERIFIED_FACTOR_KEY), Map(FactorEntries(f)))]
      case None => []
  }

  /** The header's flags once UV has been or-ed into them. */
  function AssertionAuthData(result: SignResult): bytes {
    Header(if result.userVerified then ED_FLAG + UV_FLAG else ED_FLAG) + Encode(Map(AssertionExtensions(result)))
  }

  function AssertionObject(result: SignResult): seq<Entry> {
    [Entry(Integer(2), Octets(AssertionAuthData(result)))]
  }

  function GetAssertionResponse(result: SignResult): bytes {
    [0x00] + Encode(Map(AssertionObject(result)))
  }

  method EncodeGetAssertionResponse(result: SignResult) returns (response: bytes)
    ensures response == GetAssertionResponse(result)
  {
    hide Encode;
    var extensions := [Entry(Text("previewSign"), Map([Entry(Integer(6), Octets(result.signature))]))];
    if result.verifiedFactor.Some? {
      extensions := extensions + [Entry(Text(VERIFIED_FACTOR_KEY), Map(FactorEntries(result.verifiedFactor.value)))];
    }
    assert extensions == AssertionExtensions(result);
    var authData := UnattestedAuthData(Some(Map(extensions)));
    if result.userVerified {
      authData := authData[32 := authData[32] + UV_FLAG];
    }
    assert authData == AssertionAuthData(result);
    response := [0x00];
    response := response + Encode(Map([Entry(Integer(2), Octets(authData))]));
  }

  /** The extensions of an assertion: only when ED is set and no credential is attested. */
  function AssertionExtensionMap(a: bytes): Option<seq<Entry>> {
    if |a| <= HEADER_LEN || HasFlag(a[32], AT_FLAG) || !HasFlag(a[32], ED_FLAG) then None
    else
      match FromReader(a[HEADER_LEN..])
      case None => None
      case Some(v) => v.AsMap()
  }

  /** `extract_previewsign_signature`. */
  function PreviewSignSignature(a: bytes): Result<bytes> {
    var m :- Required(AssertionExtensionMap(a));
    var inner :- Required(MapAt(m, Text("previewSign")));
    Required(FindOctets(inner, Integer(6)))
  }

  /** `extract_verified_factor_extension`: anything unexpected is no factor. */
  function VerifiedFactorExtension(a: bytes): Option<AuthFactor> {
    var m :- AssertionExtensionMap(a);
    var entry :- MapAt(m, Text(VERIFIED_FACTOR_KEY));
    var category :- TextAt(entry, Text("category"));
    var method_ :- TextAt(entry, Text("method"));
    if category == "knowledge" then CheckedFactor(Knowledge, method_)
    else if category == "inherence" then CheckedFactor(Inherence, method_)
    else None
  }

  function CheckedFactor(category: FactorCategory, method_: string): Option<AuthFactor> {
    match NewFactor(category, method_) case Ok(f) => Some(f) case Err(_) => None
  }

  function ParseGetAssertionResponse(response: bytes): Result<SignResult> {
    var body :- SplitStatus(response);
    var m :- ReadMap(body);
    var authData :- Required(OctetsAt(m, Integer(2)));
    var signature :- PreviewSignSignature(authData);
    Ok(SignResult(signature, |authData| > 32 && HasFlag(authData[32], UV_FLAG), VerifiedFactorExtension(authData)))
  }

  /** The factor an assertion may report on: any but a possession factor. */
  function Reportable(factor: Option<AuthFactor>): Option<AuthFactor> {
    if factor.Some? && factor.value.category != Possession then factor else None
  }

  lemma {:induction false} MethodIsShort(f: AuthFactor)
    requires InVocabulary(f)
    ensures |f.method_| <= 30 && |f.category.AsStr()| <= 30
  {
  }

  lemma {:induction false} AssertionExtensionsFit(result: SignResult)
    requires InMemory(result.signature)
    requires result.verifiedFactor.Some? ==> InVocabulary(result.verifiedFactor.value)
    ensures Encodable(Map(AssertionExtensions(result)), NESTING_LIMIT)
    ensures |Encode(Map(AssertionExtensions(result)))| < |result.signature| + 1000
  {
    hide Utf8.Encode, InVocabulary;
    var m := AssertionExtensions(result);
    var signed := [Entry(Integer(6), Octets(result.signature))];
    ShortText("previewSign", 1);
    MapEncodable(signed, 0);
    LeafSize(Integer(6));
    LeafSize(Octets(result.signature));
    EncodeMap(signed);
    assert signed[1..] == [];
    TextSize("previewSign");
    assert |EncodeEntry(m[0])| <= |result.signature| + 300;
    if result.verifiedFactor.Some? {
      var f := result.verifiedFactor.value;
      FactorEntriesFit(f);
      assert |EncodeEntry(m[1])| <= 500;
      assert m[1..] == [m[1]] && m[1..][1..] == [];
    } else {
      assert m[1..] == [];
    }
    MapEncodable(m, 1);
    EncodableDeeper(Map(m), 2, NESTING_LIMIT);
    EncodeMap(m);
  }

  lemma {:induction false} TextSize(s: string)
    ensures |Encode(Text(s))| <= 9 + 4 * |s|
  {
    Utf8.NoShorterThanChars(s);
  }

  lemma {:induction false} FactorEntriesFit(f: AuthFactor)
    requires InVocabulary(f)
    ensures Encodable(Text(VERIFIED_FACTOR_KEY), 1) && Encodable(Map(FactorEntries(f)), 1)
    ensures |Encode(Text(VERIFIED_FACTOR_KEY))| + |Encode(Map(FactorEntries(f)))| <= 500
  {
    hide Utf8.Encode, InVocabulary;
    MethodIsShort(f);
    var m := FactorEntries(f);
    ShortText(VERIFIED_FACTOR_KEY, 1);
    ShortText("category", 0);
    ShortText("method", 0);
    ShortText(f.method_, 0);
    ShortText(f.category.AsStr(), 0);
    MapEncodable(m, 0);
    TextSize(VERIFIED_FACTOR_KEY);
    TextSize("category");
    TextSize("method");
    TextSize(f.method_);
    TextSize(f.category.AsStr());
    EntriesSize(m, 170);
  }

  lemma {:induction false} AssertionExtensionsReadBack(result: SignResult)
    requires result.verifiedFactor.Some? ==> InVocabulary(result.verifiedFactor.value)
    ensures var m := AssertionExtensions(result);
            && MapAt(m, Text("previewSign")) == Some([Entry(Integer(6), Octets(result.signature))])
            && FindOctets([Entry(Integer(6), Octets(result.signature))], Integer(6)) == Some(result.signature)
            && MapAt(m, Text(VERIFIED_FACTOR_KEY)) ==
               match result.verifiedFactor case Some(f) => Some(FactorEntries(f)) case None => None
    ensures result.verifiedFactor.Some? ==>
              var f := result.verifiedFactor.value;
              && TextAt(FactorEntries(f), Text("category")) == Some(f.category.AsStr())
              && TextAt(FactorEntries(f), Text("method")) == Some(f.method_)
  {
    hide InVocabulary;
    var m := AssertionExtensions(result);
    LookupAt(m, 0);
    FindOctetsAt([Entry(Integer(6), Octets(result.signature))], 0);
    if result.verifiedFactor.Some? {
      LookupAt(m, 1);
      LookupAt(FactorEntries(result.verifiedFactor.value), 0);
      LookupAt(FactorEntries(result.verifiedFactor.value), 1);
    } else {
      LookupAbsent(m, Text(VERIFIED_FACTOR_KEY));
    }
  }

  /** Signature, UV flag and any knowledge or inherence factor survive the response; a possession
      factor never does. */
  lemma {:induction false} GetAssertionRoundTrip(result: SignResult)
    requires InMemory(result.signature)
    requires result.verifiedFactor.Some? ==> InVocabulary(result.verifiedFactor.value)
    ensures ParseGetAssertionResponse(GetAssertionResponse(result))
         == Ok(result.(verifiedFactor := Reportable(result.verifiedFactor)))
  {
    hide Encode, Encodable, DecodeItem, AssertionExtensions, FactorEntries;
    var a := AssertionAuthData(result);
    var m := AssertionObject(result);
    AssertionExtensionsFit(result);
    AssertionObjectFits(result);
    ReadsBack(Map(m));
    assert GetAssertionResponse(result)[1..] == Encode(Map(m));
    LookupAt(m, 0);
    ReadsBack(Map(AssertionExtensions(result)));
    assert a[HEADER_LEN..] == Encode(Map(AssertionExtensions(result)));
    assert a[32] == if result.userVerified then 0x84 else 0x80;
    AssertionExtensionsReadBack(result);
  }

  lemma {:induction false} AssertionObjectFits(result: SignResult)
    requires InMemory(result.signature)
    requires |Encode(Map(AssertionExtensions(result)))| < |result.signature| + 1000
    ensures Encodable(Map(AssertionObject(result)), NESTING_LIMIT)
  {
    hide Encode;
    MapEncodable(AssertionObject(result), 0);
    EncodableDeeper(Map(AssertionObject(result)), 1, NESTING_LIMIT);
  }
}
