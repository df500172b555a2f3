/** The platform's half of authenticatorClientPIN (src/ctap2_client_pin.rs). The authenticator is
    an answer to the commands sent so far; it may be any such function at all. */
module ClientPin {
  import opened Bytes
  import opened Results
  import opened Cbor
  import opened Ctap2
  import opened Primitives
  import opened Curve
  import opened Cbc
  import opened PinText
  import Cose
  import Factors
  import Utf8

  const PLUGIN_ID := "fido2"
  const GET_INFO: byte := 0x04
  const CLIENT_PIN: byte := 0x06
  const GET_KEY_AGREEMENT: int := 0x02
  const SET_PIN: int := 0x03
  const GET_TOKEN: int := 0x09
  const DEFAULT_MIN_PIN_LENGTH: nat := 4
  const PADDED_PIN_BYTES: nat := 64

  /** Everything the exchange computes with. */
  datatype Suite = Suite(hashes: Hashes, cipher: Cipher, curve: Group, nfc: string -> string) {
    ghost predicate Valid() {
      cipher.Valid() && curve.Valid() && PrimeOrder()
    }
  }

  // ---------------------------------------------------------- derivations

  function DeriveAesKey(k: Suite, protocol: Protocol, sharedX: bytes): bytes {
    match protocol
    case One => k.hashes.sha256(sharedX)
    case Two => k.hashes.hkdf(Zeros(32), sharedX, Ascii("CTAP2 AES key"))
  }

  function DeriveHmacKey(k: Suite, protocol: Protocol, sharedX: bytes): bytes {
    match protocol
    case One => k.hashes.sha256(sharedX)
    case Two => k.hashes.hkdf(Zeros(32), sharedX, Ascii("CTAP2 HMAC key"))
  }

  /** `authenticate(key, message)`: 16 octets under protocol one, 32 under two. */
  function Authenticate(k: Suite, protocol: Protocol, key: bytes, message: bytes): bytes {
    match protocol
    case One => k.hashes.hmac(key, message)[..16]
    case Two => k.hashes.hmac(key, message)
  }

  function PinHash(k: Suite, pin: bytes): (h: Block) {
    k.hashes.sha256(pin)[..16]
  }

  /** The x-coordinate of the Diffie-Hellman point. */
  function SharedX(k: Suite, secret: nat, peer: Point): Result<bytes> {
    match k.curve.Mul(secret, peer)
    case Affine(x, _) => Ok(x)
    case Infinity => Err(Crypto)
  }

  function Padded(pin: bytes): (p: bytes)
    requires |pin| <= PADDED_PIN_BYTES
    ensures |p| == PADDED_PIN_BYTES
  {
    pin + Zeros(PADDED_PIN_BYTES - |pin|)
  }

  datatype SetPinPayload = SetPinPayload(newPinEnc: bytes, param: bytes)

  function SetPinFields(k: Suite, protocol: Protocol, sharedX: bytes, pin: bytes, iv: Block): SetPinPayload
    requires |pin| <= PADDED_PIN_BYTES
  {
    var newPinEnc := Encrypt(k.cipher, protocol, DeriveAesKey(k, protocol, sharedX), iv, Padded(pin));
    SetPinPayload(newPinEnc, Authenticate(k, protocol, DeriveHmacKey(k, protocol, sharedX), newPinEnc))
  }

  /** `set_pin_fields`: the PIN copied into a zeroed 64-octet array and enciphered in place. */
  method ComputeSetPinFields(k: Suite, protocol: Protocol, sharedX: bytes, pin: bytes, random: Block)
    returns (r: SetPinPayload)
    requires |pin| <= PADDED_PIN_BYTES
    ensures r == SetPinFields(k, protocol, sharedX, pin, random)
  {
    hide CbcEncrypt;
    var iv := if protocol.One? then Zeros(16) else random;
    var padded := new byte[PADDED_PIN_BYTES](_ => 0);
    forall i | 0 <= i < |pin| {
      padded[i] := pin[i];
    }
    assert padded[..] == Padded(pin);
    EncryptInPlace(k.cipher, DeriveAesKey(k, protocol, sharedX), iv, padded);
    var newPinEnc := padded[..];
    if protocol.Two? {
      newPinEnc := iv + newPinEnc;
    }
    r := SetPinPayload(newPinEnc, Authenticate(k, protocol, DeriveHmacKey(k, protocol, sharedX), newPinEnc));
  }

  // ------------------------------------------------------------- messages

  function KeyAgreementParams(protocol: Protocol): seq<Entry> {
    [Entry(Integer(1), Integer(protocol.AsInt())), Entry(Integer(2), Integer(GET_KEY_AGREEMENT))]
  }

  function SetPinParams(protocol: Protocol, platformKey: Point, payload: SetPinPayload): seq<Entry>
    requires platformKey.Affine?
  {
    [Entry(Integer(1), Integer(protocol.AsInt())), Entry(Integer(2), Integer(SET_PIN)),
     Entry(Integer(3), Cose.EncodeKey(platformKey)), Entry(Integer(4), Octets(payload.param)),
     Entry(Integer(5), Octets(payload.newPinEnc))]
  }

  function TokenParams(protocol: Protocol, platformKey: Point, pinHashEnc: bytes, permissions: byte,
                       rpId: Option<string>): seq<Entry>
    requires platformKey.Affine?
  {
    [Entry(Integer(1), Integer(protocol.AsInt())), Entry(Integer(2), Integer(GET_TOKEN)),
     Entry(Integer(3), Cose.EncodeKey(platformKey)), Entry(Integer(6), Octets(pinHashEnc)),
     Entry(Integer(9), Integer(permissions as int))]
    + match rpId
      case Some(id) => [Entry(Integer(10), Text(id))]
      case None => []
  }

  /** `split_client_pin_status`: PIN-related status codes become typed failures. */
  function SplitClientPinStatus(response: bytes): Result<bytes> {
    if |response| > 0 && response[0] == 0x31 then Err(Pin(Invalid))
    else if |response| > 0 && response[0] == 0x32 then Err(Pin(Blocked))
    else if |response| > 0 && response[0] == 0x34 then Err(Pin(AuthBlocked))
    else if |response| > 0 && response[0] == 0x35 then Err(Pin(NotSet))
    else if |response| > 0 && response[0] == 0x37 then Err(Pin(PolicyViolation))
    else SplitStatus(response)
  }

  /** The statuses that name a PIN failure; any other but success is an error, and success leaves
      the body. */
  lemma StatusesAreTyped(response: bytes)
    ensures response == [] ==> SplitClientPinStatus(response) == Err(Crypto)
    ensures response != [] ==>
              var r := SplitClientPinStatus(response);
              && (response[0] == 0x00 <==> r.Ok?) && (r.Ok? ==> r.value == response[1..])
              && (response[0] == 0x31 <==> r == Err(Pin(Invalid)))
              && (response[0] == 0x32 <==> r == Err(Pin(Blocked)))
              && (response[0] == 0x34 <==> r == Err(Pin(AuthBlocked)))
              && (response[0] == 0x35 <==> r == Err(Pin(NotSet)))
              && (response[0] == 0x37 <==> r == Err(Pin(PolicyViolation)))
              && (r.Err? && !r.error.Pin? ==> r.error == Crypto)
  {
  }

  datatype PinState = PinSet | PinNotSet | PinUnsupported
  datatype PinInfo = PinInfo(protocol: Protocol, pinState: PinState, minPinLength: nat)

  /** The first listed protocol this platform knows. */
  function FirstProtocol(items: seq<Value>): Option<Protocol> {
    if items == [] then None
    else if items[0] == Integer(1) then Some(One)
    else if items[0] == Integer(2) then Some(Two)
    else FirstProtocol(items[1..])
  }

  function ParsePinInfo(body: bytes): Result<PinInfo> {
    var m :- ReadMap(body);
    var protocol := match ArrayAt(m, Integer(6))
                    case Some(items) => FirstProtocol(items).GetOr(One)
                    case None => One;
    var clientPin := match MapAt(m, Integer(4))
                     case Some(options) => (match Lookup(options, Text("clientPin")) case Some(v) => v.AsBool() case None => None)
                     case None => None;
    var pinState := match clientPin
                    case Some(on) => if on then PinSet else PinNotSet
                    case None => PinUnsupported;
    var minPinLength := match IntegerAt(m, Integer(13))
                        case Some(n) => if 0 <= n < 0x1_0000_0000 then n else DEFAULT_MIN_PIN_LENGTH
                        case None => DEFAULT_MIN_PIN_LENGTH;
    Ok(PinInfo(protocol, pinState, minPinLength))
  }

  /** What getInfo says, label by label: whether a PIN is set, the first protocol this platform
      knows, and the least length, with a default for each. */
  lemma PinInfoReads(body: bytes, m: seq<Entry>)
    requires ReadMap(body) == Ok(m)
    ensures ParsePinInfo(body).Ok?
    ensures var i := ParsePinInfo(body).value;
            var option := match MapAt(m, Integer(4)) case Some(options) => Lookup(options, Text("clientPin")) case None => None;
            && (i.pinState == PinSet <==> option == Some(Bool(true)))
            && (i.pinState == PinNotSet <==> option == Some(Bool(false)))
            && (forall n: nat | n < 0x1_0000_0000 :: Lookup(m, Integer(13)) == Some(Integer(n)) ==> i.minPinLength == n)
            && (Lookup(m, Integer(13)) == None ==> i.minPinLength == 4)
            && (Lookup(m, Integer(6)) == None ==> i.protocol == One)
  {
    hide FromReader, Lookup;
  }

  lemma {:induction false} FirstKnownProtocol(items: seq<Value>, at: nat)
    requires at < |items| && (items[at] == Integer(1) || items[at] == Integer(2))
    requires forall i | 0 <= i < at :: items[i] != Integer(1) && items[i] != Integer(2)
    ensures FirstProtocol(items) == Some(if items[at] == Integer(1) then One else Two)
  {
    if at > 0 {
      FirstKnownProtocol(items[1..], at - 1);
    }
  }

  // -------------------------------------------------------- the exchange

  /** The answer to the last command sent, given every command sent so far; the transport may
      also fail. */
  type Answer = seq<bytes> -> Result<bytes>

  datatype PromptKind = EnterPin | SetNewPin(minLength: nat)
  type Prompt = PromptKind -> Result<bytes>

  datatype Trace = Trace(sent: seq<bytes>, prompts: seq<PromptKind>)

  /** What one step did, and what came of it. */
  datatype Run<T> = Run(trace: Trace, result: Result<T>)

  datatype Session = Session(protocol: Protocol, token: bytes)

  /** Fresh secrets of one acquisition: a platform key pair and an IV for each sub-exchange. */
  datatype Randomness = Randomness(setSecret: nat, setIv: Block, tokenSecret: nat, tokenIv: Block)

  function Send(answer: Answer, t: Trace, command: bytes): Run<bytes> {
    var sent := t.sent + [command];
    Run(t.(sent := sent), answer(sent))
  }

  function ReadPinInfo(answer: Answer, t: Trace): Run<PinInfo> {
    var r := Send(answer, t, [GET_INFO]);
    Run(r.trace, match r.result
                 case Err(e) => Err(e)
                 case Ok(response) =>
                   (match SplitStatus(response) case Err(e) => Err(e) case Ok(body) => ParsePinInfo(body)))
  }

  function KeyAgreementKey(k: Suite, response: bytes): Result<Point> {
    var body :- SplitClientPinStatus(response);
    var m :- ReadMap(body);
    var key :- Required(Lookup(m, Integer(1)));
    Cose.DecodeKey(k.curve, key)
  }

  function GetKeyAgreement(k: Suite, answer: Answer, t: Trace, protocol: Protocol): Run<Point> {
    var r := Send(answer, t, EncodeCommand(CLIENT_PIN, KeyAgreementParams(protocol)));
    Run(r.trace, match r.result case Err(e) => Err(e) case Ok(response) => KeyAgreementKey(k, response))
  }

  /** The platform's ephemeral public key; `SecretKey::generate` never yields the zero scalar. */
  function PublicOf(k: Suite, secret: nat): Point {
    k.curve.Mul(secret, k.curve.g)
  }

  function TokenOf(response: bytes): Result<bytes> {
    var body :- SplitClientPinStatus(response);
    var m :- ReadMap(body);
    Required(OctetsAt(m, Integer(2)))
  }

  function TokenWithPin(k: Suite, answer: Answer, t: Trace, protocol: Protocol, pin: bytes, permissions: byte,
                        rpId: Option<string>, secret: nat, iv: Block): Run<Session>
    requires PublicOf(k, secret).Affine?
  {
    var agreed := GetKeyAgreement(k, answer, t, protocol);
    match agreed.result
    case Err(e) => Run(agreed.trace, Err(e))
    case Ok(peer) =>
      match SharedX(k, secret, peer)
      case Err(e) => Run(agreed.trace, Err(e))
      case Ok(x) =>
        var aesKey := DeriveAesKey(k, protocol, x);
        var pinHashEnc := Encrypt(k.cipher, protocol, aesKey, iv, PinHash(k, pin));
        var r := Send(answer, agreed.trace,
                      EncodeCommand(CLIENT_PIN, TokenParams(protocol, PublicOf(k, secret), pinHashEnc, permissions, rpId)));
        Run(r.trace, match r.result
                     case Err(e) => Err(e)
                     case Ok(response) => OpenToken(k, protocol, aesKey, response))
  }

  function OpenToken(k: Suite, protocol: Protocol, aesKey: bytes, response: bytes): Result<Session> {
    var enc :- TokenOf(response);
    var token :- Decrypt(k.cipher, protocol, aesKey, enc);
    Ok(Session(protocol, token))
  }

  function SetPin(k: Suite, answer: Answer, t: Trace, protocol: Protocol, pin: bytes, secret: nat, iv: Block): Run<()>
    requires PublicOf(k, secret).Affine? && |pin| <= PADDED_PIN_BYTES
  {
    var agreed := GetKeyAgreement(k, answer, t, protocol);
    match agreed.result
    case Err(e) => Run(agreed.trace, Err(e))
    case Ok(peer) =>
      match SharedX(k, secret, peer)
      case Err(e) => Run(agreed.trace, Err(e))
      case Ok(x) =>
        var r := Send(answer, agreed.trace,
                      EncodeCommand(CLIENT_PIN, SetPinParams(protocol, PublicOf(k, secret), SetPinFields(k, protocol, x, pin, iv))));
        Run(r.trace, match r.result
                     case Err(e) => Err(e)
                     case Ok(response) =>
                       (match SplitClientPinStatus(response) case Err(e) => Err(e) case Ok(_) => Ok(())))
  }

  predicate UsableSecrets(k: Suite, rand: Randomness) {
    PublicOf(k, rand.setSecret).Affine? && PublicOf(k, rand.tokenSecret).Affine?
  }

  /** `acquire_pin_uv_auth_token`. */
  function Acquire(k: Suite, answer: Answer, prompt: Prompt, permissions: byte, rpId: Option<string>,
                   rand: Randomness, t: Trace): Run<Session>
    requires UsableSecrets(k, rand)
  {
    var info := ReadPinInfo(answer, t);
    match info.result
    case Err(e) => Run(info.trace, Err(e))
    case Ok(i) =>
      if i.pinState == PinNotSet then SetThenUse(k, answer, prompt, permissions, rpId, rand, info.trace, i)
      else EnterAndUse(k, answer, prompt, permissions, rpId, rand, info.trace, i)
  }

  function SetThenUse(k: Suite, answer: Answer, prompt: Prompt, permissions: byte, rpId: Option<string>,
                      rand: Randomness, t: Trace, info: PinInfo): Run<Session>
    requires UsableSecrets(k, rand)
  {
    var kind := SetNewPin(info.minPinLength);
    var prompted := t.(prompts := t.prompts + [kind]);
    match prompt(kind)
    case Err(e) => Run(prompted, Err(e))
    case Ok(raw) =>
      match ValidateNewPin(k.nfc, raw, info.minPinLength)
      case Err(e) => Run(prompted, Err(e))
      case Ok(text) =>
        var pin := Utf8.Encode(text);
        AcceptedPinIsTheEnteredPin(k.nfc, raw, info.minPinLength);
        var set_ := SetPin(k, answer, prompted, info.protocol, pin, rand.setSecret, rand.setIv);
        match set_.result
        case Err(e) => Run(set_.trace, Err(e))
        case Ok(_) =>
          TokenWithPin(k, answer, set_.trace, info.protocol, pin, permissions, rpId, rand.tokenSecret, rand.tokenIv)
  }

  function EnterAndUse(k: Suite, answer: Answer, prompt: Prompt, permissions: byte, rpId: Option<string>,
                       rand: Randomness, t: Trace, info: PinInfo): Run<Session>
    requires UsableSecrets(k, rand)
  {
    var prompted := t.(prompts := t.prompts + [EnterPin]);
    match prompt(EnterPin)
    case Err(e) => Run(prompted, Err(e))
    case Ok(raw) =>
      var pin := NormalizePin(k.nfc, raw);
      if 0 in pin then Run(prompted, Err(Pin(InvalidEncoding)))
      else TokenWithPin(k, answer, prompted, info.protocol, pin, permissions, rpId, rand.tokenSecret, rand.tokenIv)
  }

  /** What a sign's recorder remembers of these prompts: the class of each PIN that was returned. */
  function Recorded(k: Suite, prompt: Prompt, prompts: seq<PromptKind>): seq<Option<string>> {
    if prompts == [] then []
    else
      var answer := prompt(prompts[|prompts| - 1]);
      Recorded(k, prompt, prompts[..|prompts| - 1])
      + if answer.Ok? then [Factors.ClassifyPin(k.nfc, PLUGIN_ID, answer.value)] else []
  }

  // ------------------------------------------- the exchange, step by step

  /** The host's transport and the user, as the platform code drives them. Prompts go through a
      recorder, as they do while signing. */
  class Platform {
    const k: Suite
    const answer: Answer
    const prompt: Prompt
    var sent: seq<bytes>
    var prompts: seq<PromptKind>
    const recorder: Factors.RecordingAuth

    constructor (k: Suite, answer: Answer, prompt: Prompt)
      ensures this.k == k && this.answer == answer && this.prompt == prompt
      ensures sent == [] && prompts == [] && fresh(recorder) && Recording()
    {
      this.k, this.answer, this.prompt := k, answer, prompt;
      sent, prompts := [], [];
      recorder := new Factors.RecordingAuth(k.nfc);
    }

    ghost predicate Recording()
      reads this, recorder
    {
      recorder.nfc == k.nfc && recorder.pins == Recorded(k, prompt, prompts)
    }

    function Now(): Trace
      reads this
    {
      Trace(sent, prompts)
    }

    method SendCommand(command: bytes) returns (r: Result<bytes>)
      modifies this`sent
      ensures Run(Now(), r) == Send(answer, old(Now()), command)
    {
      sent := sent + [command];
      r := answer(sent);
    }

    method RequestPin(kind: PromptKind) returns (r: Result<bytes>)
      requires Recording()
      modifies this, recorder
      ensures Recording()
      ensures Now() == old(Now()).(prompts := old(prompts) + [kind]) && r == prompt(kind)
    {
      hide Factors.ClassifyPin;
      assert (prompts + [kind])[..|prompts|] == prompts;
      prompts := prompts + [kind];
      r := recorder.RequestPin(PLUGIN_ID, prompt(kind));
    }

    method DoReadPinInfo() returns (r: Result<PinInfo>)
      modifies this`sent
      ensures Run(Now(), r) == ReadPinInfo(answer, old(Now()))
    {
      hide FromReader;
      var response := SendCommand([GET_INFO]);
      if response.Err? {
        return Err(response.error);
      }
      var body := SplitStatus(response.value);
      if body.Err? {
        return Err(body.error);
      }
      r := ParsePinInfo(body.value);
    }

    method DoGetKeyAgreement(protocol: Protocol) returns (r: Result<Point>)
      modifies this`sent
      ensures Run(Now(), r) == GetKeyAgreement(k, answer, old(Now()), protocol)
    {
      hide Encode;
      var response := SendCommand(EncodeCommand(CLIENT_PIN, KeyAgreementParams(protocol)));
      if response.Err? {
        return Err(response.error);
      }
      r := KeyAgreementKey(k, response.value);
    }

    method DoTokenWithPin(protocol: Protocol, pin: bytes, permissions: byte, rpId: Option<string>, secret: nat, iv: Block)
      returns (r: Result<Session>)
      requires PublicOf(k, secret).Affine?
      modifies this`sent
      ensures Run(Now(), r) == TokenWithPin(k, answer, old(Now()), protocol, pin, permissions, rpId, secret, iv)
    {
      hide Encode, CbcEncrypt, KeyAgreementKey, OpenToken, GetKeyAgreement, Group.Mul;
      var peer := DoGetKeyAgreement(protocol);
      if peer.Err? {
        return Err(peer.error);
      }
      var x := SharedX(k, secret, peer.value);
      if x.Err? {
        return Err(x.error);
      }
      var aesKey := DeriveAesKey(k, protocol, x.value);
      var pinHashEnc := EncryptBuffer(k.cipher, protocol, aesKey, iv, PinHash(k, pin));
      var response := SendCommand(
        EncodeCommand(CLIENT_PIN, TokenParams(protocol, PublicOf(k, secret), pinHashEnc, permissions, rpId)));
      if response.Err? {
        return Err(response.error);
      }
      r := OpenToken(k, protocol, aesKey, response.value);
    }

    method DoSetPin(protocol: Protocol, pin: bytes, secret: nat, iv: Block) returns (r: Result<()>)
      requires PublicOf(k, secret).Affine? && |pin| <= PADDED_PIN_BYTES
      modifies this`sent
      ensures Run(Now(), r) == SetPin(k, answer, old(Now()), protocol, pin, secret, iv)
    {
      hide Encode, CbcEncrypt, KeyAgreementKey, GetKeyAgreement, SetPinFields, Group.Mul;
      var peer := DoGetKeyAgreement(protocol);
      if peer.Err? {
        return Err(peer.error);
      }
      var x := SharedX(k, secret, peer.value);
      if x.Err? {
        return Err(x.error);
      }
      var payload := ComputeSetPinFields(k, protocol, x.value, pin, iv);
      var response := SendCommand(EncodeCommand(CLIENT_PIN, SetPinParams(protocol, PublicOf(k, secret), payload)));
      if response.Err? {
        return Err(response.error);
      }
      var body := SplitClientPinStatus(response.value);
      r := if body.Err? then Err(body.error) else Ok(());
    }

    method AcquirePinUvAuthToken(permissions: byte, rpId: Option<string>, rand: Randomness) returns (r: Result<Session>)
      requires UsableSecrets(k, rand)
      requires Recording()
      modifies this, recorder
      ensures Recording()
      ensures Run(Now(), r) == Acquire(k, answer, prompt, permissions, rpId, rand, old(Now()))
    {
      hide ReadPinInfo, SetPin, TokenWithPin, Utf8.Encode, Utf8.Decode, PublicOf;
      var info := DoReadPinInfo();
      if info.Err? {
        return Err(info.error);
      }
      if info.value.pinState == PinNotSet {
        var raw := RequestPin(SetNewPin(info.value.minPinLength));
        if raw.Err? {
          return Err(raw.error);
        }
        var text := ValidateNewPin(k.nfc, raw.value, info.value.minPinLength);
        if text.Err? {
          return Err(text.error);
        }
        AcceptedPinIsTheEnteredPin(k.nfc, raw.value, info.value.minPinLength);
        var pin := Utf8.Encode(text.value);
        var done := DoSetPin(info.value.protocol, pin, rand.setSecret, rand.setIv);
        if done.Err? {
          return Err(done.error);
        }
        r := DoTokenWithPin(info.value.protocol, pin, permissions, rpId, rand.tokenSecret, rand.tokenIv);
      } else {
        var raw := RequestPin(EnterPin);
        if raw.Err? {
          return Err(raw.error);
        }
        var pin := NormalizePin(k.nfc, raw.value);
        if 0 in pin {
          return Err(Pin(InvalidEncoding));
        }
        r := DoTokenWithPin(info.value.protocol, pin, permissions, rpId, rand.tokenSecret, rand.tokenIv);
      }
    }
  }
}
