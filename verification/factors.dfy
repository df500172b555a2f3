/** TS12 authentication factors of one signature (src/factors.rs). */
module Factors {
  import opened Bytes
  import opened Results
  import Utf8
  import PinText

  datatype FactorCategory = Knowledge | Possession | Inherence {
    function AsStr(): string {
      match this
      case Knowledge => "knowledge"
      case Possession => "possession"
      case Inherence => "inherence"
    }

    function Methods(): seq<string> {
      match this
      case Knowledge => [
        "pin_less_than_6_digits", "pin_6_or_more_digits", "passphrase_less_than_8_chars",
        "passphrase_8_to_11_chars", "passphrase_12_or_more_chars", "pattern", "other"]
      case Possession => [
        "key_in_remote_wscd", "key_in_local_external_wscd", "key_in_local_internal_wscd",
        "key_in_local_native_wscd", "other"]
      case Inherence => [
        "fingerprint_device", "fingerprint_external", "face_device", "face_external", "other"]
    }
  }

  datatype AuthFactor = AuthFactor(category: FactorCategory, method_: string)

  predicate InVocabulary(f: AuthFactor) {
    f.method_ in f.category.Methods()
  }

  function NewFactor(category: FactorCategory, method_: string): Result<AuthFactor> {
    if method_ in category.Methods() then Ok(AuthFactor(category, method_)) else Err(Plugin)
  }

  /** Why an outcome is short of two categories. */
  datatype Reason = OutsideVocabulary | PinUnclassified | MethodNotReported | NoSecondFactor | Generic

  datatype AuthFactors = AuthFactors(factors: seq<AuthFactor>, shortfall: Option<Reason>)

  /** Two listed factors are of different categories. */
  ghost predicate TwoCategories(factors: seq<AuthFactor>) {
    exists i, j | 0 <= i < j < |factors| :: factors[i].category != factors[j].category
  }

  method SatisfiesTwoCategories(factors: seq<AuthFactor>) returns (r: bool)
    ensures r <==> TwoCategories(factors)
  {
    var seen: seq<FactorCategory> := [];
    for k := 0 to |factors|
      invariant |seen| <= k
      invariant forall i | 0 <= i < k :: factors[i].category in seen
      invariant forall c | c in seen :: exists i :: 0 <= i < k && factors[i].category == c
      invariant forall i, j | 0 <= i < j < |seen| :: seen[i] != seen[j]
      invariant |seen| == 1 ==> forall i | 0 <= i < k :: factors[i].category == seen[0]
      invariant |seen| >= 2 ==> TwoCategories(factors)
    {
      if factors[k].category !in seen {
        if seen != [] {
          assert seen[0] in seen;
          var i :| 0 <= i < k && factors[i].category == seen[0];
          assert factors[i].category != factors[k].category;
        }
        seen := seen + [factors[k].category];
      }
    }
    r := |seen| >= 2;
  }

  /** The factors that count: in the vocabulary, each once, in the order first given. */
  function Counted(factors: seq<AuthFactor>): seq<AuthFactor> {
    if factors == [] then []
    else
      var earlier := Counted(factors[..|factors| - 1]);
      var f := factors[|factors| - 1];
      if InVocabulary(f) && f !in earlier then earlier + [f] else earlier
  }

  /** Some listed factor has a method its category does not define. */
  predicate AnyOutside(factors: seq<AuthFactor>) {
    factors != [] && (!InVocabulary(factors[|factors| - 1]) || AnyOutside(factors[..|factors| - 1]))
  }

  ghost function Assess(factors: seq<AuthFactor>, shortfall: Option<Reason>): AuthFactors {
    var counted := Counted(factors);
    AuthFactors(
      counted,
      if TwoCategories(counted) then None
      else if AnyOutside(factors) then Some(OutsideVocabulary)
      else Some(shortfall.GetOr(Generic)))
  }

  /** `AuthFactors::new`. */
  method New(factors: seq<AuthFactor>, shortfall: Option<Reason>) returns (r: AuthFactors)
    ensures r == Assess(factors, shortfall)
  {
    var short := shortfall;
    var unique: seq<AuthFactor> := [];
    for k := 0 to |factors|
      invariant unique == Counted(factors[..k])
      invariant short == if AnyOutside(factors[..k]) then Some(OutsideVocabulary) else shortfall
    {
      var f := factors[k];
      assert factors[..k + 1][..k] == factors[..k];
      if !InVocabulary(f) {
        short := Some(OutsideVocabulary);
      } else if f !in unique {
        unique := unique + [f];
      }
    }
    assert factors[..|factors|] == factors;
    var two := SatisfiesTwoCategories(unique);
    if two {
      r := AuthFactors(unique, None);
    } else {
      r := AuthFactors(unique, Some(short.GetOr(Generic)));
    }
  }

  /** Nothing is invented, lost or repeated, and an outcome is never silently short. */
  lemma {:induction false} AssessedFactors(factors: seq<AuthFactor>, shortfall: Option<Reason>)
    ensures var r := Assess(factors, shortfall);
            && (forall f :: f in r.factors <==> f in factors && InVocabulary(f))
            && (forall i, j | 0 <= i < j < |r.factors| :: r.factors[i] != r.factors[j])
            && (r.shortfall == None <==> TwoCategories(r.factors))
  {
    if factors != [] {
      var n := |factors| - 1;
      AssessedFactors(factors[..n], shortfall);
      assert factors == factors[..n] + [factors[n]];
    }
  }

  // ------------------------------------------------------------- PIN class

  predicate AllDigits(s: string) {
    forall c | c in s :: '0' <= c <= '9'
  }

  datatype SecretClass = ShortPin | LongPin | ShortPhrase | MediumPhrase | LongPhrase {
    function Name(): (name: string)
      ensures name in Knowledge.Methods()
    {
      match this
      case ShortPin => "pin_less_than_6_digits"
      case LongPin => "pin_6_or_more_digits"
      case ShortPhrase => "passphrase_less_than_8_chars"
      case MediumPhrase => "passphrase_8_to_11_chars"
      case LongPhrase => "passphrase_12_or_more_chars"
    }
  }

  function ClassifySecret(secret: bytes): (class_: Option<string>)
    ensures class_.Some? ==> class_.value in Knowledge.Methods()
  {
    match Utf8.Decode(secret)
    case None => None
    case Some(s) =>
      var n := |s|;
      if n == 0 then None
      else if AllDigits(s) then Some(if n < 6 then ShortPin.Name() else LongPin.Name())
      else if n < 8 then Some(ShortPhrase.Name())
      else if n < 12 then Some(MediumPhrase.Name())
      else Some(LongPhrase.Name())
  }

  /** Digits alone make a PIN, anything else a passphrase; the rest is a matter of length. */
  predicate Belongs(text: string, c: SecretClass) {
    match c
    case ShortPin => AllDigits(text) && 1 <= |text| <= 5
    case LongPin => AllDigits(text) && |text| >= 6
    case ShortPhrase => !AllDigits(text) && |text| <= 7
    case MediumPhrase => !AllDigits(text) && 8 <= |text| <= 11
    case LongPhrase => !AllDigits(text) && |text| >= 12
  }

  lemma NamesDiffer(a: SecretClass, b: SecretClass)
    ensures a.Name() == b.Name() ==> a == b
  {
    NameLength(a);
    NameLength(b);
  }

  lemma NameLength(c: SecretClass)
    ensures |c.Name()| == match c
                          case ShortPin => 22 case LongPin => 20 case ShortPhrase => 28 case MediumPhrase => 24 case LongPhrase => 27
  {
  }

  /** A typed text is given exactly the class it belongs to, and only the empty text has none. */
  lemma ClassOfTypedText(text: string, c: SecretClass)
    ensures ClassifySecret(Utf8.Encode(text)) == Some(c.Name()) <==> Belongs(text, c)
    ensures ClassifySecret(Utf8.Encode(text)) == None <==> text == ""
  {
    hide Utf8.Encode, Utf8.Decode, AllDigits, SecretClass.Name;
    Utf8.RoundTrip(text);
    NamesDiffer(ShortPin, c);
    NamesDiffer(LongPin, c);
    NamesDiffer(ShortPhrase, c);
    NamesDiffer(MediumPhrase, c);
    NamesDiffer(LongPhrase, c);
    assert text == "" ==> AllDigits(text) by { EmptyIsDigits(); }
  }

  lemma EmptyIsDigits()
    ensures AllDigits("")
  {
  }

  /** A secret has no class exactly when it is the encoding of no text but the empty one. */
  lemma UnclassifiedExactly(secret: bytes)
    ensures ClassifySecret(secret) == None <==> forall text: string :: Utf8.Encode(text) == secret ==> text == ""
  {
    hide Utf8.Encode, Utf8.Decode, AllDigits;
    if Utf8.Decode(secret).Some? {
      Utf8.RoundTripBack(secret);
      var text := Utf8.Decode(secret).value;
      assert Utf8.Encode(text) == secret;
      assert |text| == 0 <==> text == "";
    }
    forall text: string | Utf8.Encode(text) == secret ensures Utf8.Decode(secret) == Some(text) {
      Utf8.RoundTrip(text);
    }
  }

  /** The fido2 flow authenticates with the normalised PIN, so that is what is classified. */
  function ClassifyPin(nfc: string -> string, pluginId: string, secret: bytes): (class_: Option<string>)
    ensures class_.Some? ==> class_.value in Knowledge.Methods()
  {
    if pluginId == "fido2" then ClassifySecret(PinText.NormalizePin(nfc, secret))
    else ClassifySecret(secret)
  }

  /** What one sign learned about PINs: not asked, asked but unclassifiable, or a class. */
  type LastPin = Option<Option<string>>

  function LastOf(pins: seq<Option<string>>): LastPin {
    if pins == [] then None else Some(pins[|pins| - 1])
  }

  predicate PinClassKnown(pin: LastPin) {
    pin.Some? && pin.value.Some?
  }

  /** Remembers, for one sign, the class of each PIN the host returned; never the PIN. */
  class RecordingAuth {
    const nfc: string -> string
    var pins: seq<Option<string>>

    constructor (nfc: string -> string)
      ensures this.nfc == nfc && pins == []
    {
      this.nfc := nfc;
      pins := [];
    }

    /** `answer` is what the wrapped callback returned. */
    method RequestPin(pluginId: string, answer: Result<bytes>) returns (r: Result<bytes>)
      modifies this
      ensures r == answer
      ensures pins == old(pins) + if answer.Ok? then [ClassifyPin(nfc, pluginId, answer.value)] else []
    {
      if answer.Ok? {
        pins := pins + [ClassifyPin(nfc, pluginId, answer.value)];
      }
      r := answer;
    }

    function LastPin(): LastPin
      reads this
    {
      LastOf(pins)
    }
  }

  // ------------------------------------------------------ factor derivation

  datatype SignOptions = SignOptions(requireFresh: bool, hostVerifiedFactor: Option<AuthFactor>)

  function Validate(options: SignOptions): Result<()> {
    match options.hostVerifiedFactor
    case None => Ok(())
    case Some(f) =>
      if f.category == Possession then Err(Plugin)
      else
        var _ :- NewFactor(f.category, f.method_);
        Ok(())
  }

  /** The list `derive_factors` collects and the shortfall it notes on the way. */
  function Collected(possession: string, pin: LastPin, uvObserved: bool, pluginFactor: Option<AuthFactor>,
                     options: SignOptions, noSecond: Reason): (seq<AuthFactor>, Option<Reason>)
  {
    var held := AuthFactor(Possession, possession);
    match pin
    case Some(Some(m)) => ([held, AuthFactor(Knowledge, m)], None)
    case Some(None) => ([held], Some(PinUnclassified))
    case None =>
      if uvObserved then
        match pluginFactor.OrElse(options.hostVerifiedFactor)
        case Some(f) => ([held, f], None)
        case None => ([held], Some(MethodNotReported))
      else ([held], Some(noSecond))
  }

  ghost function DeriveFactors(possession: string, pin: LastPin, uvObserved: bool, pluginFactor: Option<AuthFactor>,
                               options: SignOptions, noSecond: Reason): AuthFactors
  {
    var (factors, shortfall) := Collected(possession, pin, uvObserved, pluginFactor, options, noSecond);
    Assess(factors, shortfall)
  }

  /** `derive_factors`. */
  method Derive(possession: string, pin: LastPin, uvObserved: bool, pluginFactor: Option<AuthFactor>,
                options: SignOptions, noSecond: Reason) returns (r: AuthFactors)
    ensures r == DeriveFactors(possession, pin, uvObserved, pluginFactor, options, noSecond)
  {
    var (factors, shortfall) := Collected(possession, pin, uvObserved, pluginFactor, options, noSecond);
    r := New(factors, shortfall);
  }

  /** A factor that can stand for a user verification the plugin observed. */
  predicate Verification(f: Option<AuthFactor>) {
    f.Some? && f.value.category != Possession && InVocabulary(f.value)
  }

  /** Two categories are spanned exactly when this sign measured a PIN, or saw user verification
      and can name it from the transport first and the host second. */
  lemma SpansTwoCategoriesExactly(possession: string, pin: LastPin, uvObserved: bool,
                                  pluginFactor: Option<AuthFactor>, options: SignOptions, noSecond: Reason)
    requires possession in Possession.Methods()
    requires PinClassKnown(pin) ==> pin.value.value in Knowledge.Methods()
    ensures var r := DeriveFactors(possession, pin, uvObserved, pluginFactor, options, noSecond);
            && (TwoCategories(r.factors) <==>
                 || PinClassKnown(pin)
                 || (pin == None && uvObserved && Verification(pluginFactor.OrElse(options.hostVerifiedFactor))))
            && (r.shortfall == None <==> TwoCategories(r.factors))
            && (forall f :: f in r.factors && f.category == Knowledge ==>
                 || pin == Some(Some(f.method_))
                 || (pin == None && uvObserved && pluginFactor.OrElse(options.hostVerifiedFactor) == Some(f)))
  {
    var (factors, shortfall) := Collected(possession, pin, uvObserved, pluginFactor, options, noSecond);
    AssessedFactors(factors, shortfall);
    if |factors| == 2 {
      SecondFactorCounts(factors[0], factors[1], shortfall);
    } else {
      OnlyPossession(factors, shortfall);
    }
  }

  /** A second factor makes two categories exactly when it is valid and of another category. */
  lemma SecondFactorCounts(held: AuthFactor, second: AuthFactor, shortfall: Option<Reason>)
    requires held.category == Possession && InVocabulary(held)
    ensures TwoCategories(Assess([held, second], shortfall).factors) <==>
            second.category != Possession && InVocabulary(second)
  {
    hide InVocabulary;
    var r := Assess([held, second], shortfall).factors;
    AssessedFactors([held, second], shortfall);
    assert held in r by { assert held == [held, second][0]; }
    if second.category != Possession && InVocabulary(second) {
      assert second in r by { assert second == [held, second][1]; }
      var i :| 0 <= i < |r| && r[i] == held;
      var j :| 0 <= j < |r| && r[j] == second;
      if i < j {
        assert r[i].category != r[j].category;
      } else {
        assert r[j].category != r[i].category;
      }
    } else {
      forall f | f in r ensures f.category == Possession {
        assert f in [held, second];
      }
    }
  }

  lemma OnlyPossession(factors: seq<AuthFactor>, shortfall: Option<Reason>)
    requires |factors| == 1 && factors[0].category == Possession
    ensures !TwoCategories(Assess(factors, shortfall).factors)
  {
    hide Assess, InVocabulary;
    AssessedFactors(factors, shortfall);
    var r := Assess(factors, shortfall).factors;
    forall f | f in r ensures f.category == Possession {
      assert f in factors;
    }
    assert forall i | 0 <= i < |r| :: r[i] in r;
  }

  // --------------------------------------------------------- plugin paths

  const EXTERNAL_KEY := "key_in_local_external_wscd"
  const REMOTE_KEY := "key_in_remote_wscd"

  /** fido2's `sign_with_factors` after the assertion came back. */
  ghost function Fido2Factors(performsUv: bool, userVerified: bool, pin: LastPin,
                              transportFactor: Option<AuthFactor>, options: SignOptions): AuthFactors
  {
    if userVerified then DeriveFactors(EXTERNAL_KEY, pin, performsUv, transportFactor, options, NoSecondFactor)
    else DeriveFactors(EXTERNAL_KEY, None, false, None, options, NoSecondFactor)
  }

  /** r2ps in WebAuthn mode. */
  ghost function R2psWebAuthnFactors(allVerified: bool, agreed: Option<AuthFactor>, options: SignOptions): AuthFactors {
    DeriveFactors(REMOTE_KEY, None, allVerified, agreed, options, NoSecondFactor)
  }

  /** r2ps in OPAQUE mode. */
  ghost function R2psOpaqueFactors(pin: LastPin, options: SignOptions): AuthFactors {
    DeriveFactors(REMOTE_KEY, pin, false, None, options, NoSecondFactor)
  }

  predicate OptionsAccepted(options: SignOptions) {
    Validate(options).Ok?
  }

  /** fido2: two categories need the UV flag, and a PIN class of this very sign or a named factor
      on a transport that verified the user itself. */
  lemma Fido2FactorsAreSound(performsUv: bool, userVerified: bool, pin: LastPin,
                             transportFactor: Option<AuthFactor>, options: SignOptions)
    requires PinClassKnown(pin) ==> pin.value.value in Knowledge.Methods()
    requires transportFactor.Some? ==> Verification(transportFactor)
    requires OptionsAccepted(options)
    ensures var r := Fido2Factors(performsUv, userVerified, pin, transportFactor, options);
            && (r.shortfall == None <==> TwoCategories(r.factors))
            && (TwoCategories(r.factors) <==>
                 && userVerified
                 && (PinClassKnown(pin)
                     || (pin == None && performsUv && (transportFactor.Some? || options.hostVerifiedFactor.Some?))))
  {
    SpansTwoCategoriesExactly(EXTERNAL_KEY, pin, performsUv, transportFactor, options, NoSecondFactor);
    SpansTwoCategoriesExactly(EXTERNAL_KEY, None, false, None, options, NoSecondFactor);
  }

  /** r2ps: WebAuthn needs every assertion verified and a named factor; OPAQUE needs a typed PIN. */
  lemma R2psFactorsAreSound(allVerified: bool, agreed: Option<AuthFactor>, pin: LastPin, options: SignOptions)
    requires PinClassKnown(pin) ==> pin.value.value in Knowledge.Methods()
    requires agreed.Some? ==> Verification(agreed)
    requires OptionsAccepted(options)
    ensures var w := R2psWebAuthnFactors(allVerified, agreed, options);
            && (w.shortfall == None <==> TwoCategories(w.factors))
            && (TwoCategories(w.factors) <==> allVerified && (agreed.Some? || options.hostVerifiedFactor.Some?))
    ensures var o := R2psOpaqueFactors(pin, options);
            && (o.shortfall == None <==> TwoCategories(o.factors))
            && (TwoCategories(o.factors) <==> PinClassKnown(pin))
            && (forall f | f in o.factors && f.category == Knowledge :: pin == Some(Some(f.method_)))
  {
    SpansTwoCategoriesExactly(REMOTE_KEY, None, allVerified, agreed, options, NoSecondFactor);
    SpansTwoCategoriesExactly(REMOTE_KEY, pin, false, None, options, NoSecondFactor);
  }

  // ------------------------------------------------- exactly what is reported

  lemma OneFactor(f: AuthFactor, shortfall: Option<Reason>)
    requires InVocabulary(f)
    ensures Assess([f], shortfall) == AuthFactors([f], Some(shortfall.GetOr(Generic)))
  {
    hide InVocabulary;
    assert [f][..0] == [];
    assert Counted([f]) == [f] && !AnyOutside([f]);
  }

  lemma TwoFactors(f: AuthFactor, g: AuthFactor, shortfall: Option<Reason>)
    requires InVocabulary(f) && InVocabulary(g) && f.category != g.category
    ensures Assess([f, g], shortfall) == AuthFactors([f, g], None)
  {
    hide InVocabulary;
    assert [f][..0] == [] && [f, g][..1] == [f];
    assert Counted([f]) == [f];
    assert Counted([f, g]) == [f, g];
    assert [f, g][0].category != [f, g][1].category;
  }

  /** What a sign with a PIN reports: the held key and the PIN's class, or the key alone. */
  lemma ReportedWithPin(possession: string, pin: LastPin, uvObserved: bool, pluginFactor: Option<AuthFactor>,
                        options: SignOptions, noSecond: Reason)
    requires possession in Possession.Methods() && pin.Some?
    requires pin.value.Some? ==> pin.value.value in Knowledge.Methods()
    ensures DeriveFactors(possession, pin, uvObserved, pluginFactor, options, noSecond) ==
            match pin.value
            case Some(class_) => AuthFactors([AuthFactor(Possession, possession), AuthFactor(Knowledge, class_)], None)
            case None => AuthFactors([AuthFactor(Possession, possession)], Some(PinUnclassified))
  {
    hide Assess;
    var held := AuthFactor(Possession, possession);
    if pin.value.Some? {
      TwoFactors(held, AuthFactor(Knowledge, pin.value.value), None);
    } else {
      OneFactor(held, Some(PinUnclassified));
    }
  }

  /** And without one: the plugin's factor before the host's, and only where verification was seen. */
  lemma ReportedWithoutPin(possession: string, uvObserved: bool, pluginFactor: Option<AuthFactor>,
                           options: SignOptions, noSecond: Reason)
    requires possession in Possession.Methods() && OptionsAccepted(options)
    requires pluginFactor.Some? ==> Verification(pluginFactor)
    ensures var held := AuthFactor(Possession, possession);
            DeriveFactors(possession, None, uvObserved, pluginFactor, options, noSecond) ==
            if !uvObserved then AuthFactors([held], Some(noSecond))
            else if pluginFactor.Some? then AuthFactors([held, pluginFactor.value], None)
            else if options.hostVerifiedFactor.Some? then AuthFactors([held, options.hostVerifiedFactor.value], None)
            else AuthFactors([held], Some(MethodNotReported))
  {
    hide Assess;
    var held := AuthFactor(Possession, possession);
    if !uvObserved {
      OneFactor(held, Some(noSecond));
    } else if pluginFactor.Some? {
      TwoFactors(held, pluginFactor.value, None);
    } else if options.hostVerifiedFactor.Some? {
      TwoFactors(held, options.hostVerifiedFactor.value, None);
    } else {
      OneFactor(held, Some(MethodNotReported));
    }
  }

  /** Which key each plugin says is held. */
  lemma HeldKeys(performsUv: bool, userVerified: bool, pin: LastPin, transportFactor: Option<AuthFactor>,
                 allVerified: bool, agreed: Option<AuthFactor>, options: SignOptions)
    ensures var external := AuthFactor(Possession, "key_in_local_external_wscd");
            InVocabulary(external) && external in Fido2Factors(performsUv, userVerified, pin, transportFactor, options).factors
    ensures var remote := AuthFactor(Possession, "key_in_remote_wscd");
            && InVocabulary(remote) && remote in R2psOpaqueFactors(pin, options).factors
            && remote in R2psWebAuthnFactors(allVerified, agreed, options).factors
  {
    hide Assess;
    HeldIsReported(EXTERNAL_KEY, pin, performsUv, transportFactor, options, NoSecondFactor);
    HeldIsReported(EXTERNAL_KEY, None, false, None, options, NoSecondFactor);
    HeldIsReported(REMOTE_KEY, pin, false, None, options, NoSecondFactor);
    HeldIsReported(REMOTE_KEY, None, allVerified, agreed, options, NoSecondFactor);
  }

  lemma HeldIsReported(possession: string, pin: LastPin, uvObserved: bool, pluginFactor: Option<AuthFactor>,
                       options: SignOptions, noSecond: Reason)
    requires possession in Possession.Methods()
    ensures AuthFactor(Possession, possession) in DeriveFactors(possession, pin, uvObserved, pluginFactor, options, noSecond).factors
  {
    hide Assess;
    var (factors, shortfall) := Collected(possession, pin, uvObserved, pluginFactor, options, noSecond);
    assert factors[0] == AuthFactor(Possession, possession);
    AssessedFactors(factors, shortfall);
  }
}
