/** What the platform can be made to send, whatever the authenticator answers
    (src/ctap2_client_pin.rs). Commands are recognised from their octets on the wire. */
module ClientPinTrace {
  import opened Bytes
  import opened Results
  import opened Cbor
  import opened Ctap2
  import opened Primitives
  import opened Curve
  import opened Cbc
  import opened PinText
  import opened ClientPin
  import Cose
  import Utf8

  datatype Kind = AsksInfo | AgreesKey | SetsPin | AsksToken | Unknown

  function KindOf(command: bytes): Kind {
    if command == [GET_INFO] then AsksInfo
    else if |command| == 0 || command[0] != CLIENT_PIN then Unknown
    else
      match FromReader(command[1..])
      case Some(Map(m)) =>
        (match IntegerAt(m, Integer(2))
         case Some(sub) =>
           if sub == GET_KEY_AGREEMENT then AgreesKey
           else if sub == SET_PIN then SetsPin
           else if sub == GET_TOKEN then AsksToken
           else Unknown
         case None => Unknown)
      case _ => Unknown
  }

  function KindsOf(sent: seq<bytes>): (kinds: seq<Kind>)
    ensures |kinds| == |sent|
  {
    seq(|sent|, i requires 0 <= i < |sent| => KindOf(sent[i]))
  }

  lemma {:induction false} CommandKind(params: seq<Entry>, sub: int)
    requires Encodable(Map(params), NESTING_LIMIT)
    requires |params| >= 2 && params[0].key == Integer(1) && params[1] == Entry(Integer(2), Integer(sub))
    ensures var kind := KindOf(EncodeCommand(CLIENT_PIN, params));
            && (sub == GET_KEY_AGREEMENT ==> kind == AgreesKey)
            && (sub == SET_PIN ==> kind == SetsPin)
            && (sub == GET_TOKEN ==> kind == AsksToken)
  {
    hide Encode, Encodable, DecodeItem;
    ReadsBack(Map(params));
    assert EncodeCommand(CLIENT_PIN, params)[1..] == Encode(Map(params));
    LookupAt(params, 1);
  }

  lemma {:induction false} KeyAgreementEncodable(protocol: Protocol)
    ensures Encodable(Map(KeyAgreementParams(protocol)), NESTING_LIMIT)
  {
    var m := KeyAgreementParams(protocol);
    assert forall i | 0 <= i < |m| :: Encodable(m[i].key, 255) && Encodable(m[i].val, 255);
  }

  lemma {:induction false} KeyEncodable(p: Point, depth: nat)
    requires p.Affine? && depth > 0
    ensures Encodable(Cose.EncodeKey(p), depth)
  {
    var m := Cose.EncodeKey(p).entries;
    assert forall i | 0 <= i < |m| :: Encodable(m[i].key, depth - 1) && Encodable(m[i].val, depth - 1);
  }

  lemma {:induction false} SetPinEncodable(protocol: Protocol, key: Point, payload: SetPinPayload)
    requires key.Affine? && |payload.newPinEnc| < 1000 && |payload.param| < 1000
    ensures Encodable(Map(SetPinParams(protocol, key, payload)), NESTING_LIMIT)
  {
    hide Cose.EncodeKey;
    var m := SetPinParams(protocol, key, payload);
    KeyEncodable(key, 255);
    assert forall i | 0 <= i < |m| :: Encodable(m[i].key, 255) && Encodable(m[i].val, 255);
  }

  predicate RpInMemory(rpId: Option<string>) {
    rpId.Some? ==> InMemory(Utf8.Encode(rpId.value))
  }

  lemma {:induction false} TokenEncodable(protocol: Protocol, key: Point, pinHashEnc: bytes, permissions: byte, rpId: Option<string>)
    requires key.Affine? && |pinHashEnc| < 1000 && RpInMemory(rpId)
    ensures Encodable(Map(TokenParams(protocol, key, pinHashEnc, permissions, rpId)), NESTING_LIMIT)
  {
    hide Cose.EncodeKey, Utf8.Encode;
    var m := TokenParams(protocol, key, pinHashEnc, permissions, rpId);
    KeyEncodable(key, 255);
    assert forall i | 0 <= i < |m| :: Encodable(m[i].key, 255) && Encodable(m[i].val, 255);
  }

  lemma PayloadIsShort(k: Suite, protocol: Protocol, x: bytes, pin: bytes, iv: Block)
    requires |pin| <= PADDED_PIN_BYTES
    ensures |SetPinFields(k, protocol, x, pin, iv).newPinEnc| <= 80
    ensures |SetPinFields(k, protocol, x, pin, iv).param| <= 32
  {
    hide CbcEncrypt;
  }

  lemma HashEncIsShort(k: Suite, protocol: Protocol, key: bytes, iv: Block, pin: bytes)
    ensures |Encrypt(k.cipher, protocol, key, iv, PinHash(k, pin))| <= 32
  {
    hide CbcEncrypt;
  }

  /** `later` is `earlier` followed by commands whose kinds begin the given list. */
  ghost predicate Follows(earlier: Trace, later: Trace, kinds: seq<Kind>) {
    && later.prompts == earlier.prompts
    && earlier.sent <= later.sent
    && KindsOf(later.sent[|earlier.sent|..]) <= kinds
  }

  lemma {:induction false} KindsExtend(earlier: Trace, later: Trace, kinds: seq<Kind>)
    requires Follows(earlier, later, kinds)
    ensures var n := |earlier.sent|;
            && KindsOf(later.sent) == KindsOf(earlier.sent) + KindsOf(later.sent[n..])
            && later.sent[..n] == earlier.sent
  {
    hide KindOf;
    var n := |earlier.sent|;
    assert later.sent == earlier.sent + later.sent[n..];
  }

  lemma {:induction false} AgreementSteps(k: Suite, answer: Answer, t: Trace, protocol: Protocol)
    ensures var run := GetKeyAgreement(k, answer, t, protocol);
            && run.trace.prompts == t.prompts
            && run.trace.sent == t.sent + [EncodeCommand(CLIENT_PIN, KeyAgreementParams(protocol))]
            && KindOf(EncodeCommand(CLIENT_PIN, KeyAgreementParams(protocol))) == AgreesKey
  {
    hide KeyAgreementKey, KindOf;
    KeyAgreementEncodable(protocol);
    CommandKind(KeyAgreementParams(protocol), GET_KEY_AGREEMENT);
  }

  /** Using a PIN: one key agreement, then at most one token request; both when it succeeds. */
  lemma {:induction false} TokenSteps(k: Suite, answer: Answer, t: Trace, protocol: Protocol, pin: bytes, permissions: byte,
                                      rpId: Option<string>, secret: nat, iv: Block)
    requires PublicOf(k, secret).Affine? && RpInMemory(rpId)
    ensures var run := TokenWithPin(k, answer, t, protocol, pin, permissions, rpId, secret, iv);
            && Follows(t, run.trace, [AgreesKey, AsksToken])
            && (run.result.Ok? ==> |run.trace.sent| == |t.sent| + 2)
  {
    hide KindOf, Encode, Encrypt, KeyAgreementKey, Encodable, GetKeyAgreement, OpenToken, PublicOf, DeriveAesKey;
    AgreementSteps(k, answer, t, protocol);
    var agreed := GetKeyAgreement(k, answer, t, protocol);
    if agreed.result.Ok? && SharedX(k, secret, agreed.result.value).Ok? {
      var aesKey := DeriveAesKey(k, protocol, SharedX(k, secret, agreed.result.value).value);
      var enc := Encrypt(k.cipher, protocol, aesKey, iv, PinHash(k, pin));
      HashEncIsShort(k, protocol, aesKey, iv, pin);
      TokenEncodable(protocol, PublicOf(k, secret), enc, permissions, rpId);
      CommandKind(TokenParams(protocol, PublicOf(k, secret), enc, permissions, rpId), GET_TOKEN);
    }
  }

  /** Setting a PIN: one key agreement, then at most one setPIN; both, and an accepting answer to
      the second, when it succeeds. */
  lemma {:induction false} SetPinSteps(k: Suite, answer: Answer, t: Trace, protocol: Protocol, pin: bytes, secret: nat, iv: Block)
    requires PublicOf(k, secret).Affine? && |pin| <= PADDED_PIN_BYTES
    ensures var run := SetPin(k, answer, t, protocol, pin, secret, iv);
            && Follows(t, run.trace, [AgreesKey, SetsPin])
            && (run.result.Ok? ==>
                  && |run.trace.sent| == |t.sent| + 2
                  && Accepted(answer, run.trace.sent))
  {
    hide KindOf, Encode, SetPinFields, KeyAgreementKey, Encodable, GetKeyAgreement, PublicOf;
    AgreementSteps(k, answer, t, protocol);
    var agreed := GetKeyAgreement(k, answer, t, protocol);
    if agreed.result.Ok? && SharedX(k, secret, agreed.result.value).Ok? {
      var x := SharedX(k, secret, agreed.result.value).value;
      var payload := SetPinFields(k, protocol, x, pin, iv);
      PayloadIsShort(k, protocol, x, pin, iv);
      SetPinEncodable(protocol, PublicOf(k, secret), payload);
      CommandKind(SetPinParams(protocol, PublicOf(k, secret), payload), SET_PIN);
    }
  }

  /** The authenticator answered the last of these commands with success. */
  predicate Accepted(answer: Answer, sent: seq<bytes>) {
    answer(sent).Ok? && SplitClientPinStatus(answer(sent).value).Ok?
  }

  function Start(): Trace { Trace([], []) }

  /** The user's entry never leaves the platform: prompt refused, or the PIN unfit on its face. */
  predicate RefusedLocally(k: Suite, prompt: Prompt, info: PinInfo) {
    if info.pinState == PinNotSet then
      var p := prompt(SetNewPin(info.minPinLength));
      p.Err? || ValidateNewPin(k.nfc, p.value, info.minPinLength).Err?
    else
      prompt(EnterPin).Err? || 0 in NormalizePin(k.nfc, prompt(EnterPin).value)
  }

  /** The safety of one acquisition against an authenticator that answers as it likes. */
  ghost predicate Safe(k: Suite, answer: Answer, prompt: Prompt, run: Run<Session>) {
    var kinds := KindsOf(run.trace.sent);
    var info := ReadPinInfo(answer, Start()).result;
    var mustSet := info.Ok? && info.value.pinState == PinNotSet;
    // The commands are a beginning of one of two scripts, each step preceded by its own agreement.
    && kinds <= (if mustSet then [AsksInfo, AgreesKey, SetsPin, AgreesKey, AsksToken] else [AsksInfo, AgreesKey, AsksToken])
    // One prompt at most, of the kind the authenticator's state calls for, and none without it.
    && run.trace.prompts == (if info.Err? then []
                             else if mustSet then [SetNewPin(info.value.minPinLength)]
                             else [EnterPin])
    // Nothing follows getInfo when it failed or the PIN was refused here.
    && (info.Err? || RefusedLocally(k, prompt, info.value) ==> kinds == [AsksInfo] && run.result.Err?)
    // A token is asked for after a set only if the set was accepted.
    && (SetsPin in kinds && |kinds| > 3 ==> Accepted(answer, run.trace.sent[..3]))
    // Success is the end of a script.
    && (run.result.Ok? ==> |kinds| == if mustSet then 5 else 3)
  }

  /** With no PIN set: the set, and only after its acceptance the token. */
  lemma {:induction false} SetThenUseSteps(k: Suite, answer: Answer, prompt: Prompt, permissions: byte, rpId: Option<string>,
                                           rand: Randomness, t: Trace, i: PinInfo)
    requires UsableSecrets(k, rand) && RpInMemory(rpId)
    requires i.pinState == PinNotSet && !RefusedLocally(k, prompt, i)
    requires t.prompts == [] && KindsOf(t.sent) == [AsksInfo]
    ensures var run := SetThenUse(k, answer, prompt, permissions, rpId, rand, t, i);
            var kinds := KindsOf(run.trace.sent);
            && kinds <= [AsksInfo, AgreesKey, SetsPin, AgreesKey, AsksToken]
            && run.trace.prompts == [SetNewPin(i.minPinLength)]
            && (|kinds| > 3 ==> Accepted(answer, run.trace.sent[..3]))
            && (run.result.Ok? ==> |kinds| == 5)
  {
    hide SetPin, TokenWithPin, Utf8.Encode, Utf8.Decode, KindOf, PublicOf;
    var kind := SetNewPin(i.minPinLength);
    var prompted := t.(prompts := t.prompts + [kind]);
    var raw := prompt(kind).value;
    AcceptedPinIsTheEnteredPin(k.nfc, raw, i.minPinLength);
    var pin := Utf8.Encode(ValidateNewPin(k.nfc, raw, i.minPinLength).value);
    SetPinSteps(k, answer, prompted, i.protocol, pin, rand.setSecret, rand.setIv);
    var set_ := SetPin(k, answer, prompted, i.protocol, pin, rand.setSecret, rand.setIv);
    KindsExtend(prompted, set_.trace, [AgreesKey, SetsPin]);
    if set_.result.Ok? {
      TokenSteps(k, answer, set_.trace, i.protocol, pin, permissions, rpId, rand.tokenSecret, rand.tokenIv);
      var run := TokenWithPin(k, answer, set_.trace, i.protocol, pin, permissions, rpId, rand.tokenSecret, rand.tokenIv);
      KindsExtend(set_.trace, run.trace, [AgreesKey, AsksToken]);
      assert KindsOf(set_.trace.sent) == [AsksInfo, AgreesKey, SetsPin];
      assert run.trace.sent[..3] == set_.trace.sent;
      assert KindsOf(run.trace.sent) <= [AsksInfo, AgreesKey, SetsPin] + [AgreesKey, AsksToken];
    } else {
      assert KindsOf(set_.trace.sent) <= [AsksInfo] + [AgreesKey, SetsPin];
    }
  }

  lemma {:induction false} EnterAndUseSteps(k: Suite, answer: Answer, prompt: Prompt, permissions: byte, rpId: Option<string>,
                                            rand: Randomness, t: Trace, i: PinInfo)
    requires UsableSecrets(k, rand) && RpInMemory(rpId)
    requires i.pinState != PinNotSet && !RefusedLocally(k, prompt, i)
    requires t.prompts == [] && KindsOf(t.sent) == [AsksInfo]
    ensures var run := EnterAndUse(k, answer, prompt, permissions, rpId, rand, t, i);
            var kinds := KindsOf(run.trace.sent);
            && kinds <= [AsksInfo, AgreesKey, AsksToken]
            && run.trace.prompts == [EnterPin]
            && (run.result.Ok? ==> |kinds| == 3)
  {
    hide TokenWithPin, KindOf, PublicOf, NormalizePin;
    var prompted := t.(prompts := t.prompts + [EnterPin]);
    var pin := NormalizePin(k.nfc, prompt(EnterPin).value);
    TokenSteps(k, answer, prompted, i.protocol, pin, permissions, rpId, rand.tokenSecret, rand.tokenIv);
    var run := TokenWithPin(k, answer, prompted, i.protocol, pin, permissions, rpId, rand.tokenSecret, rand.tokenIv);
    KindsExtend(prompted, run.trace, [AgreesKey, AsksToken]);
    assert KindsOf(run.trace.sent) <= [AsksInfo] + [AgreesKey, AsksToken];
  }

  lemma {:induction false} TraceSafety(k: Suite, answer: Answer, prompt: Prompt, permissions: byte, rpId: Option<string>,
                                       rand: Randomness)
    requires UsableSecrets(k, rand) && RpInMemory(rpId)
    ensures Safe(k, answer, prompt, Acquire(k, answer, prompt, permissions, rpId, rand, Start()))
  {
    hide FromReader, SetPin, TokenWithPin, ParsePinInfo, Utf8.Encode, Utf8.Decode;
    var info := ReadPinInfo(answer, Start());
    assert KindOf([GET_INFO]) == AsksInfo;
    hide KindOf, PublicOf;
    if info.result.Ok? && !RefusedLocally(k, prompt, info.result.value) {
      hide SetThenUse, EnterAndUse;
      if info.result.value.pinState == PinNotSet {
        SetThenUseSteps(k, answer, prompt, permissions, rpId, rand, info.trace, info.result.value);
      } else {
        EnterAndUseSteps(k, answer, prompt, permissions, rpId, rand, info.trace, info.result.value);
      }
    }
  }

  /** `t` ends with a token request for these permissions and relying party. */
  ghost predicate EndsWithToken(t: Trace, permissions: byte, rpId: Option<string>) {
    && t.sent != []
    && var command := t.sent[|t.sent| - 1];
       && |command| >= 1 && command[0] == 0x06
       && ReadMap(command[1..]).Ok?
       && var m := ReadMap(command[1..]).value;
          && IntegerAt(m, Integer(2)) == Some(9)
          && IntegerAt(m, Integer(9)) == Some(permissions as int)
          && TextAt(m, Integer(10)) == rpId
  }

  lemma {:induction false} TokenRequestReads(protocol: Protocol, key: Point, pinHashEnc: bytes, permissions: byte, rpId: Option<string>, t: Trace)
    requires key.Affine? && |pinHashEnc| < 1000 && RpInMemory(rpId)
    requires t.sent != [] && t.sent[|t.sent| - 1] == EncodeCommand(CLIENT_PIN, TokenParams(protocol, key, pinHashEnc, permissions, rpId))
    ensures EndsWithToken(t, permissions, rpId)
  {
    hide Encode, Encodable, DecodeItem, Cose.EncodeKey, RpInMemory;
    var m := TokenParams(protocol, key, pinHashEnc, permissions, rpId);
    TokenEncodable(protocol, key, pinHashEnc, permissions, rpId);
    ReadsBack(Map(m));
    assert EncodeCommand(CLIENT_PIN, m)[1..] == Encode(Map(m));
    LookupAt(m, 1);
    LookupAt(m, 4);
    if rpId.Some? {
      LookupAt(m, 5);
    } else {
      LookupAbsent(m, Integer(10));
    }
  }

  lemma {:induction false} TokenEndsWithToken(k: Suite, answer: Answer, t: Trace, protocol: Protocol, pin: bytes, permissions: byte,
                                              rpId: Option<string>, secret: nat, iv: Block)
    requires PublicOf(k, secret).Affine? && RpInMemory(rpId)
    ensures var run := TokenWithPin(k, answer, t, protocol, pin, permissions, rpId, secret, iv);
            run.result.Ok? ==> EndsWithToken(run.trace, permissions, rpId)
  {
    hide Encode, Encrypt, KeyAgreementKey, GetKeyAgreement, OpenToken, PublicOf, DeriveAesKey, EndsWithToken, TokenParams, RpInMemory;
    var run := TokenWithPin(k, answer, t, protocol, pin, permissions, rpId, secret, iv);
    if run.result.Ok? {
      var agreed := GetKeyAgreement(k, answer, t, protocol);
      var aesKey := DeriveAesKey(k, protocol, SharedX(k, secret, agreed.result.value).value);
      var enc := Encrypt(k.cipher, protocol, aesKey, iv, PinHash(k, pin));
      HashEncIsShort(k, protocol, aesKey, iv, pin);
      TokenRequestReads(protocol, PublicOf(k, secret), enc, permissions, rpId, run.trace);
    }
  }

  /** A token is had by asking for it last, with the permissions and relying party given. */
  lemma {:induction false} AcquireEndsWithToken(k: Suite, answer: Answer, prompt: Prompt, permissions: byte, rpId: Option<string>,
                                                rand: Randomness)
    requires UsableSecrets(k, rand) && RpInMemory(rpId)
    ensures var run := Acquire(k, answer, prompt, permissions, rpId, rand, Start());
            run.result.Ok? ==> EndsWithToken(run.trace, permissions, rpId)
  {
    hide ReadPinInfo, SetPin, TokenWithPin, Utf8.Encode, Utf8.Decode, NormalizePin, EndsWithToken, PublicOf, RpInMemory;
    var info := ReadPinInfo(answer, Start());
    if info.result.Ok? {
      var i := info.result.value;
      if i.pinState == PinNotSet {
        var t := info.trace.(prompts := info.trace.prompts + [SetNewPin(i.minPinLength)]);
        var raw := prompt(SetNewPin(i.minPinLength));
        if raw.Ok? && ValidateNewPin(k.nfc, raw.value, i.minPinLength).Ok? {
          AcceptedPinIsTheEnteredPin(k.nfc, raw.value, i.minPinLength);
          var pin := Utf8.Encode(ValidateNewPin(k.nfc, raw.value, i.minPinLength).value);
          var set_ := SetPin(k, answer, t, i.protocol, pin, rand.setSecret, rand.setIv);
          TokenEndsWithToken(k, answer, set_.trace, i.protocol, pin, permissions, rpId, rand.tokenSecret, rand.tokenIv);
        }
      } else if prompt(EnterPin).Ok? {
        var t := info.trace.(prompts := info.trace.prompts + [EnterPin]);
        var pin := NormalizePin(k.nfc, prompt(EnterPin).value);
        TokenEndsWithToken(k, answer, t, i.protocol, pin, permissions, rpId, rand.tokenSecret, rand.tokenIv);
      }
    }
  }
}
