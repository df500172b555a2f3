/** The assertions of one WebAuthn signing ceremony and the factor they agree on (src/plugins/r2ps.rs). */
module Ceremony {
  import opened Bytes
  import opened Results
  import opened Factors
  import Cbor
  import PreviewSign
  import PreviewSignResponses

  /** Authenticator data as the host returned it; `None` where it is not base64url. */
  type AuthData = Option<bytes>

  /** Names the verification method in authenticator data; never a guess. */
  type Classifier = bytes -> Option<AuthFactor>

  datatype Agreement = Unseen | Agreed(factor: AuthFactor) | Disagreed

  /** Bit 2 of the flags octet, which data too short to carry flags does not have. */
  predicate UserVerified(a: AuthData) {
    a.Some? && |a.value| > 32 && HasFlag(a.value[32], 0x04)
  }

  function Classified(classify: Classifier, a: AuthData): Option<AuthFactor> {
    if a.Some? then classify(a.value) else None
  }

  function Step(before: Agreement, classified: Option<AuthFactor>): Agreement {
    match (before, classified)
    case (Unseen, Some(f)) => Agreed(f)
    case (Agreed(prev), Some(f)) => if prev == f then Agreed(f) else Disagreed
    case _ => Disagreed
  }

  function AgreementOf(classify: Classifier, seen: seq<AuthData>): Agreement {
    if seen == [] then Unseen
    else Step(AgreementOf(classify, seen[..|seen| - 1]), Classified(classify, seen[|seen| - 1]))
  }

  function CountVerified(seen: seq<AuthData>): (n: nat)
    ensures n <= |seen|
  {
    if seen == [] then 0
    else CountVerified(seen[..|seen| - 1]) + if UserVerified(seen[|seen| - 1]) then 1 else 0
  }

  predicate AllVerified(seen: seq<AuthData>) {
    seen != [] && forall a | a in seen :: UserVerified(a)
  }

  /** Every assertion, and at least one, was user-verified by `f`. */
  predicate Unanimous(classify: Classifier, seen: seq<AuthData>, f: AuthFactor) {
    AllVerified(seen) && forall a | a in seen :: Classified(classify, a) == Some(f)
  }

  /** `AuthCallbackCeremonyAdapter`, with the assertions it has recorded as ghost state. */
  class CeremonyAdapter {
    const classify: Classifier
    var assertions: nat
    var uvAssertions: nat
    var verifiedFactor: Agreement
    ghost var seen: seq<AuthData>

    ghost predicate Valid()
      reads this
    {
      && assertions == |seen|
      && uvAssertions == CountVerified(seen)
      && verifiedFactor == AgreementOf(classify, seen)
    }

    constructor (classify: Classifier)
      ensures Valid() && seen == [] && this.classify == classify
    {
      this.classify := classify;
      assertions, uvAssertions, verifiedFactor, seen := 0, 0, Unseen, [];
    }

    method RecordAssertion(a: AuthData)
      requires Valid()
      modifies this
      ensures Valid() && seen == old(seen) + [a]
    {
      assert (seen + [a])[..|seen|] == seen;
      assertions := assertions + 1;
      if UserVerified(a) {
        uvAssertions := uvAssertions + 1;
      }
      verifiedFactor := Step(verifiedFactor, Classified(classify, a));
      seen := seen + [a];
    }

    method AllAssertionsUserVerified() returns (r: bool)
      requires Valid()
      ensures r <==> AllVerified(seen)
    {
      CountsAllExactly(seen);
      r := assertions > 0 && uvAssertions == assertions;
    }

    method AgreedVerifiedFactor() returns (r: Option<AuthFactor>)
      requires Valid()
      ensures forall f :: r == Some(f) <==> Unanimous(classify, seen, f)
      ensures r == AgreedFactor(classify, seen)
    {
      forall f ensures AgreedFactor(classify, seen) == Some(f) <==> Unanimous(classify, seen, f) {
        ReportsExactlyTheUnanimousFactor(classify, seen, f);
      }
      var all := AllAssertionsUserVerified();
      if !all {
        return None;
      }
      match verifiedFactor
      case Agreed(f) => r := Some(f);
      case _ => r := None;
    }
  }

  lemma {:induction false} CountsAllExactly(seen: seq<AuthData>)
    ensures CountVerified(seen) == |seen| <==> forall a | a in seen :: UserVerified(a)
  {
    if seen != [] {
      var n := |seen| - 1;
      CountsAllExactly(seen[..n]);
      assert seen == seen[..n] + [seen[n]];
    }
  }

  /** The three-valued state remembers agreement: it holds `f` exactly after one or more
      assertions that all classify to `f`. */
  lemma {:induction false} AgreedExactlyWhenAllAgree(classify: Classifier, seen: seq<AuthData>, f: AuthFactor)
    ensures AgreementOf(classify, seen) == Agreed(f) <==>
            seen != [] && forall a | a in seen :: Classified(classify, a) == Some(f)
    ensures AgreementOf(classify, seen) == Unseen <==> seen == []
  {
    if seen != [] {
      var n := |seen| - 1;
      AgreedExactlyWhenAllAgree(classify, seen[..n], f);
      assert seen == seen[..n] + [seen[n]];
    }
  }

  /** What the ceremony reports after recording `seen`. */
  function AgreedFactor(classify: Classifier, seen: seq<AuthData>): Option<AuthFactor> {
    if AllVerified(seen) && AgreementOf(classify, seen).Agreed?
    then Some(AgreementOf(classify, seen).factor)
    else None
  }

  lemma ReportsExactlyTheUnanimousFactor(classify: Classifier, seen: seq<AuthData>, f: AuthFactor)
    ensures AgreedFactor(classify, seen) == Some(f) <==> Unanimous(classify, seen, f)
  {
    AgreedExactlyWhenAllAgree(classify, seen, f);
  }

  /** The report depends on which assertions came, not on their order. */
  lemma OrderIsIrrelevant(classify: Classifier, seen: seq<AuthData>, seen': seq<AuthData>)
    requires multiset(seen) == multiset(seen')
    ensures AgreedFactor(classify, seen) == AgreedFactor(classify, seen')
  {
    hide AgreementOf, AgreedFactor;
    forall f ensures AgreedFactor(classify, seen) == Some(f) <==> AgreedFactor(classify, seen') == Some(f) {
      ReportsExactlyTheUnanimousFactor(classify, seen, f);
      ReportsExactlyTheUnanimousFactor(classify, seen', f);
      assert forall a :: a in multiset(seen) <==> a in seen;
      assert forall a :: a in multiset(seen') <==> a in seen';
      assert |multiset(seen)| == |seen| && |multiset(seen')| == |seen'|;
    }
    var r, r' := AgreedFactor(classify, seen), AgreedFactor(classify, seen');
    assert r.Some? ==> r == Some(r.value);
    assert r'.Some? ==> r' == Some(r'.value);
  }

  /** A WebAuthn signature is reported with two categories exactly when every assertion of its
      ceremony was user-verified and either all of them name one method or the host names one. */
  lemma WebAuthnSignSpansTwoCategoriesExactly(classify: Classifier, seen: seq<AuthData>, options: SignOptions)
    requires forall d :: classify(d).Some? ==> Verification(classify(d))
    requires OptionsAccepted(options)
    ensures var r := R2psWebAuthnFactors(AllVerified(seen), AgreedFactor(classify, seen), options);
            && (r.shortfall == None <==> TwoCategories(r.factors))
            && (TwoCategories(r.factors) <==>
                 AllVerified(seen) && ((exists f :: Unanimous(classify, seen, f)) || options.hostVerifiedFactor.Some?))
  {
    hide Verification, Assess, R2psWebAuthnFactors, R2psOpaqueFactors;
    var agreed := AgreedFactor(classify, seen);
    forall f ensures agreed == Some(f) <==> Unanimous(classify, seen, f) {
      ReportsExactlyTheUnanimousFactor(classify, seen, f);
    }
    if agreed.Some? {
      assert Classified(classify, seen[0]) == agreed;
    }
    R2psFactorsAreSound(AllVerified(seen), agreed, None, options);
  }

  /** The bit an assertion's encoder sets for a verified user is the bit read here. */
  lemma ReadsTheEncodedFlag(result: PreviewSign.SignResult)
    ensures UserVerified(Some(PreviewSignResponses.AssertionAuthData(result))) <==> result.userVerified
    ensures forall a: bytes :: UserVerified(Some(a)) <==> |a| >= 33 && (a[32] as int / 4) % 2 == 1
    ensures !UserVerified(None)
  {
    hide Cbor.Encode;
  }
}
