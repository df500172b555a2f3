/** The same exchange against an authenticator that follows section 6.5 of CTAP 2.1: a PIN set
    through the platform is stored exactly, and can be used through it ever after. */
module ClientPinHonest {
  import opened Bytes
  import opened Results
  import opened Cbor
  import opened Ctap2
  import opened Primitives
  import opened Curve
  import opened Cbc
  import opened PinText
  import opened ClientPin
  import opened ClientPinTrace
  import Cose
  import Utf8

  // -------------------------------------------------------- authenticator
  // Written from section 6.5 of CTAP 2.1 alone: command octets, labels, key derivation, truncation
  // and PIN hash are its own, shared with the platform's side in nothing but CBC and the COSE key.

  datatype Authenticator = Authenticator(
    protocols: seq<Protocol>, minPin: nat, pin: Option<bytes>, secret: nat, token: Octets32, iv: Block)

  predicate WellFormed(s: Authenticator) {
    s.protocols != [] && |s.protocols| < 10 && s.minPin < 0x1_0000_0000 && SecretKey(s.secret)
  }

  function ProtocolItems(protocols: seq<Protocol>): (items: seq<Value>)
    ensures |items| == |protocols|
  {
    seq(|protocols|, i requires 0 <= i < |protocols| => Integer(if protocols[i] == One then 1 else 2))
  }

  function InfoEntries(s: Authenticator): seq<Entry> {
    [Entry(Integer(4), Map([Entry(Text("clientPin"), Bool(s.pin.Some?))])),
     Entry(Integer(6), Array(ProtocolItems(s.protocols))),
     Entry(Integer(13), Integer(s.minPin))]
  }

  function Success(entries: seq<Entry>): bytes {
    [0x00] + Encode(Map(entries))
  }

  /** Sections 6.5.6 and 6.5.7: SHA-256 of the shared x-coordinate, or HKDF with 32 zero octets. */
  function DeviceAesKey(k: Suite, protocol: Protocol, z: bytes): bytes {
    match protocol
    case One => k.hashes.sha256(z)
    case Two => k.hashes.hkdf(seq(32, _ => 0), z, Ascii("CTAP2 AES key"))
  }

  function DeviceHmacKey(k: Suite, protocol: Protocol, z: bytes): bytes {
    match protocol
    case One => k.hashes.sha256(z)
    case Two => k.hashes.hkdf(seq(32, _ => 0), z, Ascii("CTAP2 HMAC key"))
  }

  /** The first 16 octets of the HMAC under protocol one, all of it under two. */
  predicate Verifies(k: Suite, protocol: Protocol, key: bytes, message: bytes, param: bytes) {
    var full := k.hashes.hmac(key, message);
    if protocol == One then |param| == 16 && param <= full else param == full
  }

  /** The first half of the PIN's SHA-256. */
  function DevicePinHash(k: Suite, pin: bytes): (hash: bytes)
    ensures hash == k.hashes.sha256(pin)[..16]
  {
    k.hashes.sha256(pin)[..16]
  }

  function DeviceShared(k: Suite, secret: nat, peer: Point): Option<bytes> {
    var p := k.curve.Mul(secret, peer);
    if p.Affine? then Some(p.x) else None
  }

  /** The stored PIN is the padded block without its trailing zero octets. */
  function StripZeros(b: bytes): bytes {
    if b != [] && b[|b| - 1] == 0 then StripZeros(b[..|b| - 1]) else b
  }

  function StorePin(k: Suite, s: Authenticator, protocol: Protocol, m: seq<Entry>): (Authenticator, bytes) {
    match (Lookup(m, Integer(3)), OctetsAt(m, Integer(4)), OctetsAt(m, Integer(5)))
    case (Some(key), Some(param), Some(newPinEnc)) =>
      (match Cose.DecodeKey(k.curve, key)
       case Err(_) => (s, [0x02])
       case Ok(peer) =>
         match DeviceShared(k, s.secret, peer)
         case None => (s, [0x02])
         case Some(z) => StoreDecrypted(k, s, protocol, z, param, newPinEnc))
    case _ => (s, [0x14])
  }

  function StoreDecrypted(k: Suite, s: Authenticator, protocol: Protocol, z: bytes, param: bytes, newPinEnc: bytes)
    : (Authenticator, bytes)
  {
    if s.pin.Some? || !Verifies(k, protocol, DeviceHmacKey(k, protocol, z), newPinEnc, param) then (s, [0x33])
    else
      match Decrypt(k.cipher, protocol, DeviceAesKey(k, protocol, z), newPinEnc)
      case Err(_) => (s, [0x33])
      case Ok(padded) =>
        if |padded| != 64 then (s, [0x02])
        else
          var stored := StripZeros(padded);
          match Utf8.Decode(stored)
          case None => (s, [0x37])
          case Some(text) => if |text| < s.minPin then (s, [0x37]) else (s.(pin := Some(stored)), [0x00])
  }

  function IssueToken(k: Suite, s: Authenticator, protocol: Protocol, m: seq<Entry>): bytes {
    match (Lookup(m, Integer(3)), OctetsAt(m, Integer(6)), IntegerAt(m, Integer(9)))
    case (Some(key), Some(pinHashEnc), Some(_)) =>
      (match Cose.DecodeKey(k.curve, key)
       case Err(_) => [0x02]
       case Ok(peer) =>
         match DeviceShared(k, s.secret, peer)
         case None => [0x02]
         case Some(z) => IssueDecrypted(k, s, protocol, z, pinHashEnc))
    case _ => [0x14]
  }

  function IssueDecrypted(k: Suite, s: Authenticator, protocol: Protocol, z: bytes, pinHashEnc: bytes): bytes {
    var aesKey := DeviceAesKey(k, protocol, z);
    if s.pin.None? then [0x35]
    else if Decrypt(k.cipher, protocol, aesKey, pinHashEnc) != Ok(DevicePinHash(k, s.pin.value)) then [0x31]
    else TokenResponse(k, s, protocol, aesKey)
  }

  function TokenResponse(k: Suite, s: Authenticator, protocol: Protocol, aesKey: bytes): bytes {
    Success([Entry(Integer(2), Octets(Encrypt(k.cipher, protocol, aesKey, s.iv, s.token + [])))])
  }

  function Respond(k: Suite, s: Authenticator, command: bytes): (Authenticator, bytes) {
    if command == [0x04] then (s, Success(InfoEntries(s)))
    else if |command| == 0 || command[0] != 0x06 then (s, [0x01])
    else
      match FromReader(command[1..])
      case Some(Map(m)) => RespondClientPin(k, s, m)
      case _ => (s, [0x12])
  }

  function RespondClientPin(k: Suite, s: Authenticator, m: seq<Entry>): (Authenticator, bytes) {
    match (IntegerAt(m, Integer(1)), IntegerAt(m, Integer(2)))
    case (Some(n), Some(sub)) =>
      if n != 1 && n != 2 then (s, [0x02])
      else
        var protocol := if n == 1 then One else Two;
        if sub == 0x02 then
          (s, match k.curve.Mul(s.secret, k.curve.g)
              case Infinity => [0x7F]
              case Affine(x, y) => Success([Entry(Integer(1), Cose.EncodeKey(Affine(x, y)))]))
        else if sub == 0x03 then StorePin(k, s, protocol, m)
        else if sub == 0x09 then (s, IssueToken(k, s, protocol, m))
        else (s, [0x3E])
    case _ => (s, [0x02])
  }

  /** What the platform computes is what the specification has the authenticator compute. */
  lemma DerivationsAgree(k: Suite, protocol: Protocol, z: bytes)
    ensures DeriveAesKey(k, protocol, z) == DeviceAesKey(k, protocol, z)
    ensures DeriveHmacKey(k, protocol, z) == DeviceHmacKey(k, protocol, z)
  {
    hide Ascii;
    assert Zeros(32) == seq(32, _ => 0);
  }

  lemma ParamVerifies(k: Suite, protocol: Protocol, key: bytes, message: bytes)
    ensures Verifies(k, protocol, key, message, Authenticate(k, protocol, key, message))
  {
  }

  lemma SharedAgrees(k: Suite, secret: nat, peer: Point)
    requires SharedX(k, secret, peer).Ok?
    ensures DeviceShared(k, secret, peer) == Some(SharedX(k, secret, peer).value)
  {
    hide Group.Mul;
  }

  /** The authenticator's state after a history of commands. */
  function StateAfter(k: Suite, s: Authenticator, history: seq<bytes>): Authenticator {
    if history == [] then s
    else Respond(k, StateAfter(k, s, history[..|history| - 1]), history[|history| - 1]).0
  }

  /** The honest authenticator as an answer to histories. */
  function HonestAnswer(k: Suite, s: Authenticator): Answer {
    (history: seq<bytes>) =>
      if history == [] then Err(Callback)
      else Ok(Respond(k, StateAfter(k, s, history[..|history| - 1]), history[|history| - 1]).1)
  }

  // -------------------------------------------------------- single steps

  lemma SendHonest(k: Suite, s: Authenticator, t: Trace, command: bytes)
    ensures var now := StateAfter(k, s, t.sent);
            var r := Send(HonestAnswer(k, s), t, command);
            && r.result == Ok(Respond(k, now, command).1)
            && StateAfter(k, s, r.trace.sent) == Respond(k, now, command).0
            && r.trace == t.(sent := t.sent + [command])
  {
    hide Respond;
    assert (t.sent + [command])[..|t.sent|] == t.sent;
  }

  /** Both ends reach one shared x-coordinate. */
  lemma Agreement(k: Suite, a: nat, b: nat)
    requires k.Valid() && SecretKey(a) && SecretKey(b)
    ensures PublicOf(k, a).Affine? && k.curve.onCurve(PublicOf(k, a))
    ensures PublicOf(k, b).Affine? && k.curve.onCurve(PublicOf(k, b))
    ensures SharedX(k, a, PublicOf(k, b)).Ok?
    ensures SharedX(k, a, PublicOf(k, b)) == SharedX(k, b, PublicOf(k, a))
  {
    hide Order, Group.Mul, PrimeOrder;
    k.curve.SharedPointIsFinite(a, b);
    k.curve.MulCommutes(a, b, k.curve.g);
    k.curve.MulOnCurve(a, k.curve.g);
    k.curve.MulOnCurve(b, k.curve.g);
    assert k.curve.HasOrder(a) && k.curve.HasOrder(b);
    UniqueRemainder(a, Order(), 0, a);
    UniqueRemainder(b, Order(), 0, b);
  }

  lemma {:induction false} SuccessReadsBack(entries: seq<Entry>)
    requires Encodable(Map(entries), NESTING_LIMIT)
    ensures SplitStatus(Success(entries)) == Ok(Encode(Map(entries)))
    ensures SplitClientPinStatus(Success(entries)) == Ok(Encode(Map(entries)))
    ensures ReadMap(Encode(Map(entries))) == Ok(entries)
  {
    hide Encode, DecodeItem, Encodable;
    ReadsBack(Map(entries));
    assert Success(entries)[1..] == Encode(Map(entries));
  }

  lemma {:induction false} CommandReadsBack(k: Suite, s: Authenticator, params: seq<Entry>)
    requires Encodable(Map(params), NESTING_LIMIT)
    ensures Respond(k, s, EncodeCommand(CLIENT_PIN, params)) == RespondClientPin(k, s, params)
  {
    hide Encode, DecodeItem, Encodable, RespondClientPin;
    ReadsBack(Map(params));
    assert EncodeCommand(CLIENT_PIN, params)[1..] == Encode(Map(params));
  }

  /** getInfo tells the platform the first protocol, whether a PIN is set, and the minimum length. */
  lemma {:induction false} InfoHonest(k: Suite, s: Authenticator)
    requires WellFormed(s)
    ensures ReadPinInfo(HonestAnswer(k, s), Start())
         == Run(Trace([[GET_INFO]], []),
                Ok(PinInfo(s.protocols[0], if s.pin.Some? then PinSet else PinNotSet, s.minPin)))
    ensures StateAfter(k, s, [[GET_INFO]]) == s
  {
    hide Encode, Respond, ParsePinInfo;
    SendHonest(k, s, Start(), [GET_INFO]);
    assert [] + [[GET_INFO]] == [[GET_INFO]];
    assert StateAfter(k, s, []) == s;
    InfoAnswer(k, s);
    InfoReadsBack(s);
  }

  lemma {:induction false} InfoAnswer(k: Suite, s: Authenticator)
    requires WellFormed(s)
    ensures Respond(k, s, [GET_INFO]) == (s, Success(InfoEntries(s)))
    ensures SplitStatus(Success(InfoEntries(s))) == Ok(Encode(Map(InfoEntries(s))))
  {
    hide Encode;
    assert Success(InfoEntries(s))[1..] == Encode(Map(InfoEntries(s)));
  }

  lemma {:induction false} InfoReadsBack(s: Authenticator)
    requires WellFormed(s)
    ensures ParsePinInfo(Encode(Map(InfoEntries(s))))
         == Ok(PinInfo(s.protocols[0], if s.pin.Some? then PinSet else PinNotSet, s.minPin))
  {
    hide Encode, DecodeItem, Encodable, Utf8.Encode;
    var m := InfoEntries(s);
    InfoEncodable(s);
    SuccessReadsBack(m);
    LookupAt(m, 0);
    LookupAt(m, 1);
    LookupAt(m, 2);
    LookupAt([Entry(Text("clientPin"), Bool(s.pin.Some?))], 0);
    assert ProtocolItems(s.protocols)[0] == Integer(s.protocols[0].AsInt());
  }

  lemma {:induction false} InfoEncodable(s: Authenticator)
    requires WellFormed(s)
    ensures Encodable(Map(InfoEntries(s)), NESTING_LIMIT)
  {
    hide Utf8.Encode;
    var option := [Entry(Text("clientPin"), Bool(s.pin.Some?))];
    Utf8.NoShorterThanChars("clientPin");
    assert Encodable(option[0].key, 254);
    assert Encodable(Map(option), 255);
    assert Encodable(Array(ProtocolItems(s.protocols)), 255);
    var m := InfoEntries(s);
    assert forall i | 0 <= i < |m| :: Encodable(m[i].key, 255) && Encodable(m[i].val, 255);
  }

  /** A key agreement gives the platform the authenticator's point and changes nothing. */
  lemma {:induction false} AgreementHonest(k: Suite, s: Authenticator, t: Trace, protocol: Protocol)
    requires k.Valid() && SecretKey(StateAfter(k, s, t.sent).secret)
    ensures var run := GetKeyAgreement(k, HonestAnswer(k, s), t, protocol);
            && run.result == Ok(PublicOf(k, StateAfter(k, s, t.sent).secret))
            && StateAfter(k, s, run.trace.sent) == StateAfter(k, s, t.sent)
  {
    hide Encode, KeyAgreementKey, PublicOf, StateAfter, Respond, Suite.Valid, SecretKey;
    var now := StateAfter(k, s, t.sent);
    SendHonest(k, s, t, EncodeCommand(CLIENT_PIN, KeyAgreementParams(protocol)));
    Agreement(k, now.secret, now.secret);
    AgreementAnswer(k, now, protocol);
    AgreementReadsBack(k, PublicOf(k, now.secret));
  }

  lemma {:induction false} AgreementAnswer(k: Suite, s: Authenticator, protocol: Protocol)
    requires PublicOf(k, s.secret).Affine?
    ensures Respond(k, s, EncodeCommand(CLIENT_PIN, KeyAgreementParams(protocol)))
         == (s, Success([Entry(Integer(1), Cose.EncodeKey(PublicOf(k, s.secret)))]))
  {
    hide Encode, Encodable, Cose.EncodeKey, Group.Mul, Respond, StorePin, IssueToken;
    var params := KeyAgreementParams(protocol);
    KeyAgreementEncodable(protocol);
    CommandReadsBack(k, s, params);
    LookupAt(params, 0);
    LookupAt(params, 1);
  }

  lemma {:induction false} AgreementReadsBack(k: Suite, pub: Point)
    requires pub.Affine? && k.curve.onCurve(pub)
    ensures KeyAgreementKey(k, Success([Entry(Integer(1), Cose.EncodeKey(pub))])) == Ok(pub)
  {
    hide Encode, Encodable, FromReader, Cose.EncodeKey, Cose.DecodeKey;
    var reply := [Entry(Integer(1), Cose.EncodeKey(pub))];
    KeyEncodable(pub, 255);
    ReplyEncodable(Integer(1), Cose.EncodeKey(pub));
    SuccessReadsBack(reply);
    LookupAt(reply, 0);
    Cose.KeyRoundTrip(k.curve, pub);
  }

  lemma {:induction false} ReplyEncodable(key: Value, v: Value)
    requires Encodable(key, 255) && Encodable(v, 255)
    ensures Encodable(Map([Entry(key, v)]), NESTING_LIMIT)
  {
  }

  lemma {:induction false} StripPadding(pin: bytes, n: nat)
    requires 0 !in pin
    ensures StripZeros(pin + Zeros(n)) == pin
  {
    if n > 0 {
      assert (pin + Zeros(n))[..|pin| + n - 1] == pin + Zeros(n - 1);
      StripPadding(pin, n - 1);
    } else {
      assert pin + Zeros(0) == pin;
      assert pin != [] ==> pin[|pin| - 1] in pin;
    }
  }

  // ------------------------------------------------------ set and use

  /** An authenticator without a PIN stores exactly the octets the platform enciphered. */
  lemma {:induction false} StoreHonest(k: Suite, s: Authenticator, protocol: Protocol, x: bytes, pin: bytes, iv: Block)
    requires k.Valid() && s.pin == None
    requires |pin| <= MAX_PIN_BYTES && 0 !in pin && Utf8.Decode(pin).Some? && s.minPin <= |Utf8.Decode(pin).value|
    ensures var payload := SetPinFields(k, protocol, x, pin, iv);
            StoreDecrypted(k, s, protocol, x, payload.param, payload.newPinEnc) == (s.(pin := Some(pin)), [0x00])
  {
    hide Encrypt, Decrypt, DeriveAesKey, DeriveHmacKey, DeviceAesKey, DeviceHmacKey, Authenticate, Verifies, Group.Valid, PrimeOrder,
      Utf8.Decode;
    DerivationsAgree(k, protocol, x);
    ParamVerifies(k, protocol, DeriveHmacKey(k, protocol, x), SetPinFields(k, protocol, x, pin, iv).newPinEnc);
    ProtocolRoundTrip(k.cipher, protocol, DeriveAesKey(k, protocol, x), iv, Padded(pin));
    StripPadding(pin, PADDED_PIN_BYTES - |pin|);
  }

  lemma {:induction false} SetParamsReadBack(protocol: Protocol, key: Point, payload: SetPinPayload)
    requires key.Affine?
    ensures var m := SetPinParams(protocol, key, payload);
            && IntegerAt(m, Integer(1)) == Some(if protocol == One then 1 else 2)
            && IntegerAt(m, Integer(2)) == Some(0x03)
            && Lookup(m, Integer(3)) == Some(Cose.EncodeKey(key))
            && OctetsAt(m, Integer(4)) == Some(payload.param)
            && OctetsAt(m, Integer(5)) == Some(payload.newPinEnc)
  {
    hide Cose.EncodeKey;
    var m := SetPinParams(protocol, key, payload);
    LookupAt(m, 0);
    LookupAt(m, 1);
    LookupAt(m, 2);
    LookupAt(m, 3);
    LookupAt(m, 4);
  }

  lemma {:induction false} TokenParamsReadBack(protocol: Protocol, key: Point, pinHashEnc: bytes, permissions: byte, rpId: Option<string>)
    requires key.Affine?
    ensures var m := TokenParams(protocol, key, pinHashEnc, permissions, rpId);
            && IntegerAt(m, Integer(1)) == Some(if protocol == One then 1 else 2)
            && IntegerAt(m, Integer(2)) == Some(0x09)
            && Lookup(m, Integer(3)) == Some(Cose.EncodeKey(key))
            && OctetsAt(m, Integer(6)) == Some(pinHashEnc)
            && IntegerAt(m, Integer(9)) == Some(permissions as int)
            && TextAt(m, Integer(10)) == rpId
  {
    hide Cose.EncodeKey;
    var m := TokenParams(protocol, key, pinHashEnc, permissions, rpId);
    LookupAt(m, 0);
    LookupAt(m, 1);
    LookupAt(m, 2);
    LookupAt(m, 3);
    LookupAt(m, 4);
    if rpId.Some? {
      LookupAt(m, 5);
    } else {
      LookupAbsent(m, Integer(10));
    }
  }

  /** The authenticator's reply to a set command, with the platform's key read off the wire. */
  lemma {:induction false} SetReply(k: Suite, s: Authenticator, protocol: Protocol, secret: nat, payload: SetPinPayload)
    requires k.Valid() && SecretKey(secret) && SecretKey(s.secret)
    requires PublicOf(k, secret).Affine? && |payload.newPinEnc| < 1000 && |payload.param| < 1000
    ensures SharedX(k, s.secret, PublicOf(k, secret)).Ok?
    ensures Respond(k, s, EncodeCommand(CLIENT_PIN, SetPinParams(protocol, PublicOf(k, secret), payload)))
         == StoreDecrypted(k, s, protocol, SharedX(k, s.secret, PublicOf(k, secret)).value, payload.param, payload.newPinEnc)
  {
    hide Cose.EncodeKey, Cose.DecodeKey, SharedX, DeviceShared, StoreDecrypted, Respond, Encodable, Group.Valid, PrimeOrder, PublicOf,
      SetPinParams, IssueToken;
    var pub := PublicOf(k, secret);
    Agreement(k, s.secret, secret);
    SharedAgrees(k, s.secret, pub);
    SetPinEncodable(protocol, pub, payload);
    CommandReadsBack(k, s, SetPinParams(protocol, pub, payload));
    SetParamsReadBack(protocol, pub, payload);
    Cose.KeyRoundTrip(k.curve, pub);
  }

  lemma {:induction false} TokenReply(k: Suite, s: Authenticator, protocol: Protocol, secret: nat, pinHashEnc: bytes,
                                      permissions: byte, rpId: Option<string>)
    requires k.Valid() && SecretKey(secret) && SecretKey(s.secret)
    requires PublicOf(k, secret).Affine? && |pinHashEnc| < 1000 && RpInMemory(rpId)
    ensures SharedX(k, s.secret, PublicOf(k, secret)).Ok?
    ensures Respond(k, s, EncodeCommand(CLIENT_PIN, TokenParams(protocol, PublicOf(k, secret), pinHashEnc, permissions, rpId)))
         == (s, IssueDecrypted(k, s, protocol, SharedX(k, s.secret, PublicOf(k, secret)).value, pinHashEnc))
  {
    hide Cose.EncodeKey, Cose.DecodeKey, SharedX, DeviceShared, IssueDecrypted, Respond, Encodable, Group.Valid, PrimeOrder, PublicOf,
      TokenParams, StorePin;
    var pub := PublicOf(k, secret);
    Agreement(k, s.secret, secret);
    SharedAgrees(k, s.secret, pub);
    TokenEncodable(protocol, pub, pinHashEnc, permissions, rpId);
    CommandReadsBack(k, s, TokenParams(protocol, pub, pinHashEnc, permissions, rpId));
    TokenParamsReadBack(protocol, pub, pinHashEnc, permissions, rpId);
    Cose.KeyRoundTrip(k.curve, pub);
  }

  /** Setting a PIN on an authenticator that has none succeeds and stores exactly those octets. */
  lemma {:induction false} SetPinHonest(k: Suite, s: Authenticator, t: Trace, protocol: Protocol, pin: bytes, secret: nat, iv: Block)
    requires k.Valid() && SecretKey(secret) && PublicOf(k, secret).Affine?
    requires SecretKey(StateAfter(k, s, t.sent).secret) && StateAfter(k, s, t.sent).pin == None
    requires |pin| <= MAX_PIN_BYTES && 0 !in pin && Utf8.Decode(pin).Some?
    requires StateAfter(k, s, t.sent).minPin <= |Utf8.Decode(pin).value|
    ensures var run := SetPin(k, HonestAnswer(k, s), t, protocol, pin, secret, iv);
            && run.result == Ok(())
            && StateAfter(k, s, run.trace.sent) == StateAfter(k, s, t.sent).(pin := Some(pin))
  {
    hide GetKeyAgreement, SetPinFields, PublicOf, Respond, StateAfter, Encode, SharedX, Suite.Valid, SecretKey, Utf8.Decode,
      StoreDecrypted;
    var now := StateAfter(k, s, t.sent);
    AgreementHonest(k, s, t, protocol);
    Agreement(k, secret, now.secret);
    var agreed := GetKeyAgreement(k, HonestAnswer(k, s), t, protocol);
    var x := SharedX(k, secret, PublicOf(k, now.secret)).value;
    var payload := SetPinFields(k, protocol, x, pin, iv);
    PayloadIsShort(k, protocol, x, pin, iv);
    SendHonest(k, s, agreed.trace, EncodeCommand(CLIENT_PIN, SetPinParams(protocol, PublicOf(k, secret), payload)));
    SetReply(k, now, protocol, secret, payload);
    StoreHonest(k, now, protocol, x, pin, iv);
  }

  /** What the authenticator makes of an entered PIN's enciphered hash. */
  lemma {:induction false} IssueHonest(k: Suite, s: Authenticator, protocol: Protocol, x: bytes, pin: bytes, iv: Block)
    requires k.Valid()
    ensures var aesKey := DeriveAesKey(k, protocol, x);
            var reply := IssueDecrypted(k, s, protocol, x, Encrypt(k.cipher, protocol, aesKey, iv, PinHash(k, pin)));
            OpenToken(k, protocol, aesKey, reply) ==
            if s.pin == None then Err(Pin(NotSet))
            else if PinHash(k, s.pin.value) != PinHash(k, pin) then Err(Pin(Invalid))
            else Ok(Session(protocol, s.token))
  {
    hide Encrypt, Decrypt, DeriveAesKey, DeviceAesKey, Group.Valid, PrimeOrder, Encode, Encodable, FromReader;
    DerivationsAgree(k, protocol, x);
    var aesKey := DeriveAesKey(k, protocol, x);
    ProtocolRoundTrip(k.cipher, protocol, aesKey, iv, PinHash(k, pin));
    if s.pin.Some? && PinHash(k, s.pin.value) == PinHash(k, pin) {
      assert s.token + [] == s.token;
      ProtocolRoundTrip(k.cipher, protocol, aesKey, s.iv, s.token);
      var reply := [Entry(Integer(2), Octets(Encrypt(k.cipher, protocol, aesKey, s.iv, s.token)))];
      OctetsReplyEncodable(Encrypt(k.cipher, protocol, aesKey, s.iv, s.token));
      SuccessReadsBack(reply);
      LookupAt(reply, 0);
    }
  }

  lemma {:induction false} OctetsReplyEncodable(b: bytes)
    requires |b| < 1000
    ensures Encodable(Map([Entry(Integer(2), Octets(b))]), NESTING_LIMIT)
  {
    ReplyEncodable(Integer(2), Octets(b));
  }

  /** Using a PIN opens a session on the authenticator's own token exactly when the hashes agree. */
  lemma {:induction false} TokenHonest(k: Suite, s: Authenticator, t: Trace, protocol: Protocol, pin: bytes, permissions: byte,
                                       rpId: Option<string>, secret: nat, iv: Block)
    requires k.Valid() && SecretKey(secret) && PublicOf(k, secret).Affine? && RpInMemory(rpId)
    requires SecretKey(StateAfter(k, s, t.sent).secret)
    ensures var now := StateAfter(k, s, t.sent);
            var run := TokenWithPin(k, HonestAnswer(k, s), t, protocol, pin, permissions, rpId, secret, iv);
            && StateAfter(k, s, run.trace.sent) == now
            && run.result == if now.pin == None then Err(Pin(NotSet))
                             else if PinHash(k, now.pin.value) != PinHash(k, pin) then Err(Pin(Invalid))
                             else Ok(Session(protocol, now.token))
  {
    hide GetKeyAgreement, PublicOf, Respond, StateAfter, Encode, SharedX, Suite.Valid, SecretKey, IssueDecrypted, Encrypt,
      OpenToken, DeriveAesKey, PinHash, RpInMemory;
    var now := StateAfter(k, s, t.sent);
    AgreementHonest(k, s, t, protocol);
    Agreement(k, secret, now.secret);
    var agreed := GetKeyAgreement(k, HonestAnswer(k, s), t, protocol);
    var x := SharedX(k, secret, PublicOf(k, now.secret)).value;
    var aesKey := DeriveAesKey(k, protocol, x);
    var enc := Encrypt(k.cipher, protocol, aesKey, iv, PinHash(k, pin));
    HashEncIsShort(k, protocol, aesKey, iv, pin);
    SendHonest(k, s, agreed.trace, EncodeCommand(CLIENT_PIN, TokenParams(protocol, PublicOf(k, secret), enc, permissions, rpId)));
    TokenReply(k, now, protocol, secret, enc, permissions, rpId);
    IssueHonest(k, now, protocol, x, pin, iv);
  }

  predicate FreshSecrets(rand: Randomness) {
    SecretKey(rand.setSecret) && SecretKey(rand.tokenSecret)
  }

  lemma FreshSecretsAreUsable(k: Suite, rand: Randomness)
    requires k.Valid() && FreshSecrets(rand)
    ensures UsableSecrets(k, rand)
  {
    hide Group.Mul, PrimeOrder, Order;
    Agreement(k, rand.setSecret, rand.tokenSecret);
  }

  /** Setting through the platform: the authenticator ends up with exactly the normalised octets,
      and both ends hold its token. */
  lemma {:induction false} SetStoresAndOpens(k: Suite, s: Authenticator, prompt: Prompt, permissions: byte, rpId: Option<string>,
                                             rand: Randomness, raw: bytes)
    requires k.Valid() && FreshSecrets(rand) && RpInMemory(rpId)
    requires WellFormed(s) && s.pin == None
    requires prompt(SetNewPin(s.minPin)) == Ok(raw) && ValidateNewPin(k.nfc, raw, s.minPin).Ok?
    ensures UsableSecrets(k, rand)
    ensures var run := Acquire(k, HonestAnswer(k, s), prompt, permissions, rpId, rand, Start());
            && StateAfter(k, s, run.trace.sent) == s.(pin := Some(NormalizePin(k.nfc, raw)))
            && run.result == Ok(Session(s.protocols[0], s.token))
  {
    hide ReadPinInfo, SetPin, TokenWithPin, StateAfter, Utf8.Decode, Utf8.Encode, NormalizePin, PublicOf, Suite.Valid, SecretKey,
      PinHash;
    FreshSecretsAreUsable(k, rand);
    var answer := HonestAnswer(k, s);
    InfoHonest(k, s);
    AcceptedPinIsTheEnteredPin(k.nfc, raw, s.minPin);
    var pin := NormalizePin(k.nfc, raw);
    var t := Trace([[GET_INFO]], [] + [SetNewPin(s.minPin)]);
    SetPinHonest(k, s, t, s.protocols[0], pin, rand.setSecret, rand.setIv);
    var set_ := SetPin(k, answer, t, s.protocols[0], pin, rand.setSecret, rand.setIv);
    TokenHonest(k, s, set_.trace, s.protocols[0], pin, permissions, rpId, rand.tokenSecret, rand.tokenIv);
  }

  /** Entering through the platform: a session opens on the authenticator's token exactly when the
      entry's hash is the stored PIN's; an entry with a NUL is refused unsent. */
  lemma {:induction false} EnteringAuthenticatesExactly(k: Suite, s: Authenticator, prompt: Prompt, permissions: byte,
                                                        rpId: Option<string>, rand: Randomness, raw: bytes)
    requires k.Valid() && FreshSecrets(rand) && RpInMemory(rpId)
    requires WellFormed(s) && s.pin.Some? && prompt(EnterPin) == Ok(raw)
    ensures UsableSecrets(k, rand)
    ensures var run := Acquire(k, HonestAnswer(k, s), prompt, permissions, rpId, rand, Start());
            var pin := NormalizePin(k.nfc, raw);
            && StateAfter(k, s, run.trace.sent) == s
            && run.result == if 0 in pin then Err(Pin(InvalidEncoding))
                             else if DevicePinHash(k, s.pin.value) != DevicePinHash(k, pin) then Err(Pin(Invalid))
                             else Ok(Session(s.protocols[0], s.token))
  {
    hide ReadPinInfo, TokenWithPin, StateAfter, NormalizePin, PublicOf, Suite.Valid, SecretKey, SetThenUse;
    FreshSecretsAreUsable(k, rand);
    InfoHonest(k, s);
    var t := Trace([[GET_INFO]], [] + [EnterPin]);
    TokenHonest(k, s, t, s.protocols[0], NormalizePin(k.nfc, raw), permissions, rpId, rand.tokenSecret, rand.tokenIv);
  }

  /** A PIN set through the platform can always be used through it: whatever key pair, token and IV
      the authenticator has by then, entering the same octets again opens a session on its token. */
  lemma {:induction false} SetPinIsUsable(k: Suite, s: Authenticator, prompt: Prompt, permissions: byte, rpId: Option<string>,
                                          rand: Randomness, rand': Randomness, raw: bytes)
    requires k.Valid() && FreshSecrets(rand) && FreshSecrets(rand') && RpInMemory(rpId)
    requires WellFormed(s) && s.pin == None
    requires prompt(SetNewPin(s.minPin)) == Ok(raw) && prompt(EnterPin) == Ok(raw)
    requires ValidateNewPin(k.nfc, raw, s.minPin).Ok?
    ensures UsableSecrets(k, rand) && UsableSecrets(k, rand')
    ensures var run := Acquire(k, HonestAnswer(k, s), prompt, permissions, rpId, rand, Start());
            var after := StateAfter(k, s, run.trace.sent);
            forall later: Authenticator | WellFormed(later) && later.pin == after.pin ::
              Acquire(k, HonestAnswer(k, later), prompt, permissions, rpId, rand', Start()).result
                == Ok(Session(later.protocols[0], later.token))
  {
    hide Acquire, StateAfter, NormalizePin, Suite.Valid, PinHash, UsableSecrets, Utf8.Decode, Utf8.Encode;
    FreshSecretsAreUsable(k, rand);
    FreshSecretsAreUsable(k, rand');
    SetStoresAndOpens(k, s, prompt, permissions, rpId, rand, raw);
    AcceptedPinIsTheEnteredPin(k.nfc, raw, s.minPin);
    forall later: Authenticator | WellFormed(later) && later.pin == Some(NormalizePin(k.nfc, raw))
      ensures Acquire(k, HonestAnswer(k, later), prompt, permissions, rpId, rand', Start()).result
           == Ok(Session(later.protocols[0], later.token))
    {
      EnteringAuthenticatesExactly(k, later, prompt, permissions, rpId, rand', raw);
    }
  }
}
