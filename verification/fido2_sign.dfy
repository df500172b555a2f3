/** One fido2 signature, from the stored key to the factors reported for it
    (src/plugins/fido2_sign.rs, and `get_assertion` in src/preview_sign_protocol.rs). The transport
    and the user answer as they like; a transport either runs user verification itself or leaves it
    to a PIN asked for here. */
module Fido2Sign {
  import opened Bytes
  import opened Results
  import opened Keys
  import opened Ctap2
  import opened Primitives
  import opened PinText
  import opened Factors
  import opened ClientPin
  import opened ClientPinTrace
  import opened PreviewSign
  import opened Fido2State
  import PreviewSignResponses
  import Cbor
  import ClientPinHonest
  import Arkg
  import Utf8

  const RP_ID := "siros.wscd.preview-sign"
  const PERMISSION_GET_ASSERTION: byte := 0x02
  const ARKG_P256_ESP256: int := -65539
  const KEYBIND_TBS_LEN: nat := 32
  const SCHNORR_SIGNATURE_LEN: nat := 64

  /** `derToRaw` stands for the DER parser of ECDSA signatures. */
  datatype Host = Host(k: Suite, answer: Answer, prompt: Prompt, performsUv: bool, derToRaw: bytes -> Result<bytes>)

  /** What the caller asks for, with the randomness of this call. */
  datatype Request = Request(kid: Kid, data: bytes, options: SignOptions, challenge: Octets32, rand: Randomness)

  datatype Signed = Signed(signature: bytes, userVerified: bool, verifiedFactor: Option<AuthFactor>)
  datatype SignOutcome = SignOutcome(signature: bytes, factors: AuthFactors)

  /** Key pairs are drawn only where a PIN is used. */
  predicate Ready(host: Host, rand: Randomness) {
    host.performsUv || UsableSecrets(host.k, rand)
  }

  /** ECDSA signs a hash; a BLS key binding message is one already. */
  function ToBeSigned(k: Suite, key: StoredKey, data: bytes): Result<bytes> {
    if KeyAlgorithm(key) == Bls12381G1Schnorr then
      if |data| == KEYBIND_TBS_LEN then Ok(data) else Err(Crypto)
    else Ok(k.hashes.sha256(data))
  }

  function Input(key: StoredKey, tbs: bytes): SignInput {
    SignInput(key.keyHandle, tbs,
              match key.arkgKhAndCtx
              case Some((kh, ctx)) => Some(Arkg.EncodeSignArgs(ARKG_P256_ESP256, kh, ctx))
              case None => None)
  }

  function RawSignature(host: Host, key: StoredKey, signature: bytes): Result<bytes> {
    if KeyAlgorithm(key) == Bls12381G1Schnorr then
      if |signature| == SCHNORR_SIGNATURE_LEN then Ok(signature) else Err(Crypto)
    else host.derToRaw(signature)
  }

  /** The token's proof over this sign's challenge. */
  function Proof(k: Suite, session: Session, challenge: bytes): PinUvAuth {
    PinUvAuth(Authenticate(k, session.protocol, session.token, challenge), session.protocol.AsInt())
  }

  function SendAssertion(host: Host, t: Trace, challenge: bytes, credentialId: bytes, sign: SignInput,
                         auth: Option<PinUvAuth>): Run<SignResult>
  {
    var r := Send(host.answer, t, GetAssertionRequestBytes(RP_ID, challenge, credentialId, sign, auth));
    Run(r.trace, match r.result
                 case Err(e) => Err(e)
                 case Ok(response) => PreviewSignResponses.ParseGetAssertionResponse(response))
  }

  /** `get_assertion`. */
  function GetAssertion(host: Host, challenge: bytes, credentialId: bytes, sign: SignInput, rand: Randomness): Run<SignResult>
    requires Ready(host, rand)
  {
    if host.performsUv then SendAssertion(host, Start(), challenge, credentialId, sign, None)
    else
      var acquired := Acquire(host.k, host.answer, host.prompt, PERMISSION_GET_ASSERTION, Some(RP_ID), rand, Start());
      match acquired.result
      case Err(e) => Run(acquired.trace, Err(e))
      case Ok(session) =>
        SendAssertion(host, acquired.trace, challenge, credentialId, sign, Some(Proof(host.k, session, challenge)))
  }

  /** `sign_inner`. */
  function SignInner(host: Host, s: State, req: Request): Run<Signed>
    requires Ready(host, req.rand)
  {
    match FindKey(s, req.kid)
    case Err(e) => Run(Start(), Err(e))
    case Ok(key) =>
      match ToBeSigned(host.k, key, req.data)
      case Err(e) => Run(Start(), Err(e))
      case Ok(tbs) =>
        var asserted := GetAssertion(host, req.challenge, key.credentialId, Input(key, tbs), req.rand);
        Run(asserted.trace, match asserted.result
                            case Err(e) => Err(e)
                            case Ok(result) =>
                              match RawSignature(host, key, result.signature)
                              case Err(e) => Err(e)
                              case Ok(raw) => Ok(Signed(raw, result.userVerified, result.verifiedFactor)))
  }

  /** `sign_with_factors`: the PIN class is that of the last PIN its own prompts returned. */
  ghost function SignWithFactors(host: Host, s: State, req: Request): Run<SignOutcome>
    requires Ready(host, req.rand)
  {
    match Validate(req.options)
    case Err(e) => Run(Start(), Err(e))
    case Ok(_) =>
      if req.options.requireFresh && host.performsUv then Run(Start(), Err(Unsupported))
      else
        var inner := SignInner(host, s, req);
        Run(inner.trace, match inner.result
                         case Err(e) => Err(e)
                         case Ok(signed) =>
                           var pin := LastOf(Recorded(host.k, host.prompt, inner.trace.prompts));
                           Ok(SignOutcome(
                             signed.signature,
                             Fido2Factors(host.performsUv, signed.userVerified, pin, signed.verifiedFactor, req.options))))
  }

  // -------------------------------------------------------- step by step

  method DoGetAssertion(host: Host, p: Platform, challenge: bytes, credentialId: bytes, sign: SignInput, rand: Randomness)
    returns (r: Result<SignResult>)
    requires Ready(host, rand) && p.k == host.k && p.answer == host.answer && p.prompt == host.prompt
    requires p.Now() == Start() && p.Recording()
    modifies p, p.recorder
    ensures p.Recording()
    ensures Run(p.Now(), r) == GetAssertion(host, challenge, credentialId, sign, rand)
  {
    hide Acquire, PreviewSignResponses.ParseGetAssertionResponse, GetAssertionRequestBytes, UsableSecrets;
    var auth := None;
    if !host.performsUv {
      var session := p.AcquirePinUvAuthToken(PERMISSION_GET_ASSERTION, Some(RP_ID), rand);
      if session.Err? {
        return Err(session.error);
      }
      auth := Some(Proof(host.k, session.value, challenge));
    }
    var command := BuildGetAssertionRequest(RP_ID, challenge, credentialId, sign, auth);
    var response := p.SendCommand(command);
    if response.Err? {
      return Err(response.error);
    }
    r := PreviewSignResponses.ParseGetAssertionResponse(response.value);
  }

  /** The whole sign with a recorder of its own. */
  method DoSignWithFactors(host: Host, s: State, req: Request) returns (run: Run<SignOutcome>)
    requires Ready(host, req.rand)
    ensures run == SignWithFactors(host, s, req)
  {
    hide GetAssertion, Ready;
    var accepted := Validate(req.options);
    if accepted.Err? {
      return Run(Start(), Err(accepted.error));
    }
    if req.options.requireFresh && host.performsUv {
      return Run(Start(), Err(Unsupported));
    }
    var p := new Platform(host.k, host.answer, host.prompt);
    var key := FindKey(s, req.kid);
    if key.Err? {
      return Run(Start(), Err(key.error));
    }
    var tbs := ToBeSigned(host.k, key.value, req.data);
    if tbs.Err? {
      return Run(Start(), Err(tbs.error));
    }
    var result := DoGetAssertion(host, p, req.challenge, key.value.credentialId, Input(key.value, tbs.value), req.rand);
    if result.Err? {
      return Run(p.Now(), Err(result.error));
    }
    var signature := RawSignature(host, key.value, result.value.signature);
    if signature.Err? {
      return Run(p.Now(), Err(signature.error));
    }
    var factors;
    if result.value.userVerified {
      factors := Derive(EXTERNAL_KEY, p.recorder.LastPin(), host.performsUv, result.value.verifiedFactor, req.options, NoSecondFactor);
    } else {
      factors := Derive(EXTERNAL_KEY, None, false, None, req.options, NoSecondFactor);
    }
    run := Run(p.Now(), Ok(SignOutcome(signature.value, factors)));
  }

  // ---------------------------------------------------------- what it means

  /** No response, whatever its octets, yields a factor that could not stand for user verification. */
  lemma ParsedFactorIsVerification(response: bytes)
    requires PreviewSignResponses.ParseGetAssertionResponse(response).Ok?
    requires PreviewSignResponses.ParseGetAssertionResponse(response).value.verifiedFactor.Some?
    ensures Verification(PreviewSignResponses.ParseGetAssertionResponse(response).value.verifiedFactor)
  {
    hide PreviewSignResponses.AssertionExtensionMap, PreviewSignResponses.PreviewSignSignature, ReadMap;
  }

  lemma RpIdInMemory()
    ensures RpInMemory(Some(RP_ID))
  {
    hide Utf8.Encode;
    Utf8.NoShorterThanChars(RP_ID);
  }

  /** A token is had for exactly one prompt, which the user answered. */
  lemma AcquirePromptsOnce(host: Host, rand: Randomness)
    requires UsableSecrets(host.k, rand)
    ensures var run := Acquire(host.k, host.answer, host.prompt, PERMISSION_GET_ASSERTION, Some(RP_ID), rand, Start());
            run.result.Ok? ==> |run.trace.prompts| == 1 && host.prompt(run.trace.prompts[0]).Ok?
  {
    hide Acquire, ReadPinInfo, ValidateNewPin, NormalizePin, UsableSecrets, RpInMemory;
    RpIdInMemory();
    TraceSafety(host.k, host.answer, host.prompt, PERMISSION_GET_ASSERTION, Some(RP_ID), rand);
  }

  /** The response this sign was made from. */
  function Reply(host: Host, t: Trace): Result<SignResult> {
    var response :- host.answer(t.sent);
    PreviewSignResponses.ParseGetAssertionResponse(response)
  }

  /** The prompts and the response of a sign that succeeded. */
  lemma SignedRun(host: Host, s: State, req: Request)
    requires Ready(host, req.rand) && SignInner(host, s, req).result.Ok?
    ensures var run := SignInner(host, s, req);
            var reply := Reply(host, run.trace);
            && reply.Ok?
            && run.result.value.userVerified == reply.value.userVerified
            && run.result.value.verifiedFactor == reply.value.verifiedFactor
            && (host.performsUv ==> run.trace.prompts == [] && |run.trace.sent| == 1)
            && (!host.performsUv ==> |run.trace.prompts| == 1 && host.prompt(run.trace.prompts[0]).Ok?)
  {
    hide Acquire, GetAssertionRequestBytes, PreviewSignResponses.ParseGetAssertionResponse, Input, ToBeSigned, RawSignature,
      UsableSecrets;
    if !host.performsUv {
      AcquirePromptsOnce(host, req.rand);
    }
  }

  /** What a sign that succeeded reports is what it measured: two categories exactly when the
      response to it has the UV flag and either, where a PIN is asked for here, its one prompt
      returned a PIN that has a class, or, where the transport verifies the user, no prompt was made
      and the response or the host names the method. A knowledge factor reported over a PIN is that
      PIN's own class. */
  ghost predicate Measured(host: Host, options: SignOptions, t: Trace, factors: AuthFactors) {
    var reply := Reply(host, t);
    && reply.Ok?
    && (factors.shortfall == None <==> TwoCategories(factors.factors))
    && (host.performsUv ==>
          && t.prompts == [] && |t.sent| == 1
          && (TwoCategories(factors.factors) <==>
               reply.value.userVerified && (reply.value.verifiedFactor.Some? || options.hostVerifiedFactor.Some?)))
    && (!host.performsUv ==>
          && |t.prompts| == 1 && host.prompt(t.prompts[0]).Ok?
          && var class_ := ClassifySecret(NormalizePin(host.k.nfc, host.prompt(t.prompts[0]).value));
             && (TwoCategories(factors.factors) <==> reply.value.userVerified && class_.Some?)
             && (forall f | f in factors.factors && f.category == Knowledge ::
                   reply.value.userVerified && class_ == Some(f.method_)))
  }

  /** For every transport, user, key and request. */
  lemma FactorsAreMeasuredInThisSign(host: Host, s: State, req: Request)
    requires Ready(host, req.rand)
    ensures var run := SignWithFactors(host, s, req);
            run.result.Ok? ==> Measured(host, req.options, run.trace, run.result.value.factors)
  {
    hide SignInner, ClassifySecret, NormalizePin, Validate, Verification, UsableSecrets, TwoCategories,
      PreviewSignResponses.ParseGetAssertionResponse;
    if SignWithFactors(host, s, req).result.Ok? {
      SignedRun(host, s, req);
      var inner := SignInner(host, s, req);
      var pin := LastOf(Recorded(host.k, host.prompt, inner.trace.prompts));
      var signed := inner.result.value;
      if signed.verifiedFactor.Some? {
        ParsedFactorIsVerification(host.answer(inner.trace.sent).value);
      }
      OnePinRecorded(host.k, host.prompt, inner.trace.prompts);
      hide Recorded, Reply;
      FactorsOf(host.performsUv, signed, pin, req.options);
    }
  }

  lemma OnePinRecorded(k: Suite, prompt: Prompt, prompts: seq<PromptKind>)
    ensures prompts == [] ==> LastOf(Recorded(k, prompt, prompts)) == None
    ensures |prompts| == 1 && prompt(prompts[0]).Ok? ==>
              LastOf(Recorded(k, prompt, prompts)) == Some(ClassifySecret(NormalizePin(k.nfc, prompt(prompts[0]).value)))
  {
    hide ClassifySecret, NormalizePin;
    if |prompts| == 1 {
      assert prompts[..0] == [];
    }
  }

  lemma FactorsOf(performsUv: bool, signed: Signed, pin: LastPin, options: SignOptions)
    requires OptionsAccepted(options)
    requires signed.verifiedFactor.Some? ==> Verification(signed.verifiedFactor)
    requires PinClassKnown(pin) ==> pin.value.value in Knowledge.Methods()
    requires performsUv <==> pin == None
    ensures var r := Fido2Factors(performsUv, signed.userVerified, pin, signed.verifiedFactor, options);
            && (r.shortfall == None <==> TwoCategories(r.factors))
            && (TwoCategories(r.factors) <==>
                 && signed.userVerified
                 && (PinClassKnown(pin)
                     || (pin == None && (signed.verifiedFactor.Some? || options.hostVerifiedFactor.Some?))))
            && (pin.Some? ==> forall f | f in r.factors && f.category == Knowledge ::
                  signed.userVerified && pin.value == Some(f.method_))
  {
    hide Verification, TwoCategories, OptionsAccepted;
    Fido2FactorsAreSound(performsUv, signed.userVerified, pin, signed.verifiedFactor, options);
    SpansTwoCategoriesExactly(EXTERNAL_KEY, pin, performsUv, signed.verifiedFactor, options, NoSecondFactor);
    SpansTwoCategoriesExactly(EXTERNAL_KEY, None, false, None, options, NoSecondFactor);
  }

  /** A transport that verifies the user itself cannot be held to a fresh verification: such a
      request, like one with a host factor that is not acceptable, sends nothing and asks nothing. */
  lemma RefusedUnsent(host: Host, s: State, req: Request)
    requires Ready(host, req.rand)
    requires !OptionsAccepted(req.options) || (req.options.requireFresh && host.performsUv)
    ensures SignWithFactors(host, s, req).trace == Start() && SignWithFactors(host, s, req).result.Err?
  {
  }

  predicate KeyInMemory(key: StoredKey) {
    InMemory(key.credentialId) && SignInMemory(Input(key, []))
  }

  /** A coordinate is 48 octets wide on the one curve, and not on the other. */
  predicate OnBls(key: StoredKey) {
    |key.pubX| == 48
  }

  /** What a read request says it is to be signed with. */
  predicate AsksFor(k: Suite, r: Result<GetAssertionRequest>, key: StoredKey, req: Request) {
    && r.Ok?
    && r.value.rpId == "siros.wscd.preview-sign"
    && r.value.challenge == req.challenge
    && r.value.credentialId == key.credentialId
    && r.value.sign.keyHandle == key.keyHandle
    && (OnBls(key) ==> |req.data| == 32 && r.value.sign.tbs == req.data)
    && (!OnBls(key) ==> r.value.sign.tbs == k.hashes.sha256(req.data))
    && r.value.sign.additionalArgs ==
         match key.arkgKhAndCtx
         case Some((kh, ctx)) => Some(Arkg.EncodeSignArgs(-65539, kh, ctx))
         case None => None
  }

  /** What the authenticator is asked to sign with, read off the last command's octets: the stored
      key's own credential, handle and derivation arguments, over the hash of the data or the
      32-octet key binding message itself, for this sign's challenge. */
  lemma AuthenticatorReadsTheKey(host: Host, s: State, req: Request)
    requires Ready(host, req.rand)
    requires req.kid in s.keys ==> KeyInMemory(s.keys[req.kid])
    ensures var run := SignInner(host, s, req);
            run.result.Ok? ==>
              && req.kid in s.keys && run.trace.sent != []
              && AsksFor(host.k, ParseGetAssertionRequest(run.trace.sent[|run.trace.sent| - 1]), s.keys[req.kid], req)
  {
    hide Acquire, GetAssertionRequestBytes, ParseGetAssertionRequest, UsableSecrets, RawSignature, Arkg.EncodeSignArgs, Utf8.Encode,
      PreviewSignResponses.ParseGetAssertionResponse;
    if SignInner(host, s, req).result.Ok? {
      var key := s.keys[req.kid];
      var sign := Input(key, ToBeSigned(host.k, key, req.data).value);
      Utf8.NoShorterThanChars(RP_ID);
      var auth := None;
      if !host.performsUv {
        var acquired := Acquire(host.k, host.answer, host.prompt, PERMISSION_GET_ASSERTION, Some(RP_ID), req.rand, Start());
        auth := Some(Proof(host.k, acquired.result.value, req.challenge));
      }
      GetAssertionRequestRoundTrip(RP_ID, req.challenge, key.credentialId, sign, auth);
    }
  }

  /** The signature returned is the one in this sign's own reply: as it came, and 64 octets, for a
      BLS key; what the DER parser makes of it for any other. */
  lemma SignatureIsTheReplys(host: Host, s: State, req: Request)
    requires Ready(host, req.rand)
    ensures var run := SignWithFactors(host, s, req);
            run.result.Ok? ==>
              && req.kid in s.keys && Reply(host, run.trace).Ok?
              && var signature := Reply(host, run.trace).value.signature;
                 && (OnBls(s.keys[req.kid]) ==> run.result.value.signature == signature && |signature| == 64)
                 && (!OnBls(s.keys[req.kid]) ==> host.derToRaw(signature) == Ok(run.result.value.signature))
  {
    hide Acquire, GetAssertionRequestBytes, PreviewSignResponses.ParseGetAssertionResponse, Input, ToBeSigned, UsableSecrets,
      Fido2Factors, Validate;
  }

  /** A token asked for while signing is scoped: for assertions only, and for this relying party. */
  lemma TokenIsScoped(host: Host, s: State, req: Request)
    requires Ready(host, req.rand) && !host.performsUv
    ensures var run := SignInner(host, s, req);
            run.result.Ok? ==>
              && |run.trace.sent| >= 2
              && var command := run.trace.sent[|run.trace.sent| - 2];
                 && |command| >= 1 && command[0] == 0x06
                 && ReadMap(command[1..]).Ok?
                 && var m := ReadMap(command[1..]).value;
                    && Cbor.IntegerAt(m, Cbor.Integer(2)) == Some(9)
                    && Cbor.IntegerAt(m, Cbor.Integer(9)) == Some(2)
                    && Cbor.TextAt(m, Cbor.Integer(10)) == Some("siros.wscd.preview-sign")
  {
    hide Acquire, GetAssertionRequestBytes, PreviewSignResponses.ParseGetAssertionResponse, Input, ToBeSigned, UsableSecrets,
      RawSignature, RpInMemory;
    RpIdInMemory();
    var acquired := Acquire(host.k, host.answer, host.prompt, PERMISSION_GET_ASSERTION, Some(RP_ID), req.rand, Start());
    if acquired.result.Ok? {
      ClientPinTrace.AcquireEndsWithToken(host.k, host.answer, host.prompt, PERMISSION_GET_ASSERTION, Some(RP_ID), req.rand);
    }
  }

  /** The last command sent is this sign's, with a proof over its challenge that `token` verifies. */
  ghost predicate SentWithProof(k: Suite, t: Trace, key: StoredKey, req: Request, session: Session) {
    var tbs := ToBeSigned(k, key, req.data);
    var proof := Proof(k, session, req.challenge);
    && tbs.Ok? && t.sent != []
    && t.sent[|t.sent| - 1]
         == GetAssertionRequestBytes(RP_ID, req.challenge, key.credentialId, Input(key, tbs.value), Some(proof))
    && ClientPinHonest.Verifies(k, session.protocol, session.token, req.challenge, proof.param)
    && proof.protocol == (if session.protocol.One? then 1 else 2)
  }

  /** An authenticator that follows the protocol and whose PIN is entered is sent a proof that it
      can check: its own token verifies it over this sign's challenge. */
  lemma HonestAuthenticatorGetsItsProof(k: Suite, prompt: Prompt, derToRaw: bytes -> Result<bytes>, s: State, req: Request,
                                        a: ClientPinHonest.Authenticator, raw: bytes)
    requires k.Valid() && ClientPinHonest.FreshSecrets(req.rand)
    requires ClientPinHonest.WellFormed(a) && a.pin.Some? && prompt(EnterPin) == Ok(raw)
    requires 0 !in NormalizePin(k.nfc, raw)
    requires ClientPinHonest.DevicePinHash(k, NormalizePin(k.nfc, raw)) == ClientPinHonest.DevicePinHash(k, a.pin.value)
    requires FindKey(s, req.kid).Ok? && ToBeSigned(k, s.keys[req.kid], req.data).Ok?
    ensures UsableSecrets(k, req.rand)
    ensures SentWithProof(k, SignInner(Host(k, ClientPinHonest.HonestAnswer(k, a), prompt, false, derToRaw), s, req).trace,
                          s.keys[req.kid], req, Session(a.protocols[0], a.token))
  {
    hide Acquire, GetAssertionRequestBytes, NormalizePin, RawSignature, Input, ToBeSigned, RpInMemory, Suite.Valid, Authenticate,
      PreviewSignResponses.ParseGetAssertionResponse, ClientPinHonest.FreshSecrets, UsableSecrets, ClientPinHonest.Verifies,
      ClientPinHonest.HonestAnswer, ClientPinHonest.StateAfter;
    RpIdInMemory();
    ClientPinHonest.EnteringAuthenticatesExactly(k, a, prompt, PERMISSION_GET_ASSERTION, Some(RP_ID), req.rand, raw);
    ClientPinHonest.ParamVerifies(k, a.protocols[0], a.token, req.challenge);
    var host := Host(k, ClientPinHonest.HonestAnswer(k, a), prompt, false, derToRaw);
    LastIsTheAssertion(host, s, req, Session(a.protocols[0], a.token));
  }

  lemma LastIsTheAssertion(host: Host, s: State, req: Request, session: Session)
    requires UsableSecrets(host.k, req.rand) && !host.performsUv
    requires Acquire(host.k, host.answer, host.prompt, PERMISSION_GET_ASSERTION, Some(RP_ID), req.rand, Start()).result == Ok(session)
    requires FindKey(s, req.kid).Ok? && ToBeSigned(host.k, s.keys[req.kid], req.data).Ok?
    ensures var sent := SignInner(host, s, req).trace.sent;
            var key := s.keys[req.kid];
            && sent != []
            && sent[|sent| - 1] == GetAssertionRequestBytes(
                 RP_ID, req.challenge, key.credentialId, Input(key, ToBeSigned(host.k, key, req.data).value),
                 Some(Proof(host.k, session, req.challenge)))
  {
    hide Acquire, GetAssertionRequestBytes, RawSignature, Input, ToBeSigned, Proof, UsableSecrets,
      PreviewSignResponses.ParseGetAssertionResponse;
  }

  /** The report of a successful sign, factor by factor: the external key, and beside it what the
      reply, the one prompt and the request allow. */
  lemma ReportsExactly(host: Host, s: State, req: Request)
    requires Ready(host, req.rand)
    ensures var run := SignWithFactors(host, s, req);
            run.result.Ok? ==> Reply(host, run.trace).Ok? && run.result.value.factors == Report(host, run.trace, req.options)
  {
    hide SignInner, ClassifySecret, NormalizePin, Validate, Verification, UsableSecrets, DeriveFactors,
      PreviewSignResponses.ParseGetAssertionResponse;
    if SignWithFactors(host, s, req).result.Ok? {
      SignedRun(host, s, req);
      var inner := SignInner(host, s, req);
      var pin := LastOf(Recorded(host.k, host.prompt, inner.trace.prompts));
      var signed := inner.result.value;
      if signed.verifiedFactor.Some? {
        ParsedFactorIsVerification(host.answer(inner.trace.sent).value);
      }
      OnePinRecorded(host.k, host.prompt, inner.trace.prompts);
      hide Recorded, Reply;
      if signed.userVerified && pin.Some? {
        ReportedWithPin(EXTERNAL_KEY, pin, host.performsUv, signed.verifiedFactor, req.options, NoSecondFactor);
      } else if signed.userVerified {
        ReportedWithoutPin(EXTERNAL_KEY, host.performsUv, signed.verifiedFactor, req.options, NoSecondFactor);
      } else {
        ReportedWithoutPin(EXTERNAL_KEY, false, None, req.options, NoSecondFactor);
      }
    }
  }

  function Report(host: Host, t: Trace, options: SignOptions): AuthFactors
    requires Reply(host, t).Ok?
  {
    var held := AuthFactor(Possession, "key_in_local_external_wscd");
    var reply := Reply(host, t).value;
    if !reply.userVerified then AuthFactors([held], Some(NoSecondFactor))
    else if host.performsUv then
      if reply.verifiedFactor.Some? then AuthFactors([held, reply.verifiedFactor.value], None)
      else if options.hostVerifiedFactor.Some? then AuthFactors([held, options.hostVerifiedFactor.value], None)
      else AuthFactors([held], Some(MethodNotReported))
    else if |t.prompts| == 1 && host.prompt(t.prompts[0]).Ok? then
      match ClassifySecret(NormalizePin(host.k.nfc, host.prompt(t.prompts[0]).value))
      case Some(class_) => AuthFactors([held, AuthFactor(Knowledge, class_)], None)
      case None => AuthFactors([held], Some(PinUnclassified))
    else AuthFactors([held], Some(NoSecondFactor))
  }
}
