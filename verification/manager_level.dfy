/** What level-driven generation comes to, read off the calls the manager made (src/manager.rs:210-321). */
module ManagerLevel {
  import opened Results
  import opened Keys
  import opened Manager
  import Keystore

  ghost predicate Honest(env: Env, w: World) {
    Keystore.DistinctThumbprints(env.device) && Keystore.WellFormed(env.device, w.android)
  }

  predicate Stored(w: World, p: PluginId, kid: Kid) {
    if p == ANDROID then kid in w.android.keys else kid in StoreOf(w, p)
  }

  /** The same keys are stored and bound. */
  ghost predicate SameKeys(w: World, t: World) {
    t.bindings == w.bindings && forall p, kid :: Stored(t, p, kid) <==> Stored(w, p, kid)
  }

  /** The same, but for one new key stored by `p` and bound to it. */
  ghost predicate OneMore(w: World, t: World, p: PluginId, kid: Kid) {
    && t.bindings == w.bindings[kid := p]
    && forall q, k :: Stored(t, q, k) <==> Stored(w, q, k) || (q == p && k == kid)
  }

  /** No generation in `events` yielded a key that `w` had bound or stored already. */
  ghost predicate AllNew(w: World, events: seq<Event>) {
    forall i | 0 <= i < |events| && events[i].Generated? && events[i].result.Ok? ::
      events[i].result.value !in w.bindings && !Stored(w, events[i].plugin, events[i].result.value)
  }

  /** A plugin handed out an identifier that was bound to it already. */
  predicate Reissued(w: World, e: Event) {
    e.Generated? && e.result.Ok? && e.result.value in w.bindings && w.bindings[e.result.value] == e.plugin
  }

  predicate NoneReissued(w: World, events: seq<Event>) {
    forall i | 0 <= i < |events| :: !Reissued(w, events[i])
  }

  predicate NoBindingAdded(w: World, t: World) {
    forall kid | kid in t.bindings :: kid in w.bindings && t.bindings[kid] == w.bindings[kid]
  }

  /** Bindings can only have been lost, and were exactly if a plugin reissued an identifier. */
  predicate BindingsKept(w: World, t: World, events: seq<Event>) {
    NoBindingAdded(w, t) && (t.bindings == w.bindings <==> NoneReissued(w, events))
  }

  function Since(w: World, t: World): (events: seq<Event>)
    requires |w.trace| <= |t.trace|
    ensures |events| == |t.trace| - |w.trace|
  {
    t.trace[|w.trace|..]
  }

  predicate Extends(w: World, t: World) {
    |w.trace| <= |t.trace| && t.trace[..|w.trace|] == w.trace
  }

  /** An unconfirmed cleanup, a cancellation, a PIN failure, or a deletion that failed. */
  predicate Stops(e: Event) {
    || (e.Generated? && (e.result == Err(UnconfirmedCleanup) || e.result == Err(AuthCancelled)
                         || (e.result.Err? && e.result.error.Pin?)))
    || (e.Deleted? && e.outcome.Err?)
  }

  /** Attestation by dedicated hardware serves every requirement, by a shared environment all but
      that one, and none only where none is required. */
  predicate Serves(achieved: CertificationLevel, required: CertificationLevel) {
    || required == Unattested
    || achieved == AttestedDedicatedHardware
    || (achieved == AttestedSharedEnvironment && required == AttestedSharedEnvironment)
  }

  lemma RankIsServing(achieved: CertificationLevel, required: CertificationLevel)
    ensures achieved.Rank() >= required.Rank() <==> Serves(achieved, required)
  {
  }

  predicate Meets(e: Event, required: CertificationLevel) {
    e.Confirmed? && e.level.Ok? && Serves(e.level.value, required)
  }

  /** The error that a passed-over candidate leaves behind, read off its last event. */
  predicate PassingError(offered: bool, events: seq<Event>, error: WscdError) {
    var n := |events|;
    if !offered then error == NoPlugin
    else
      && n >= 1
      && match events[n - 1]
         case Generated(_, r) => r == Err(error)
         case Collided(_, _) => error == Plugin
         case Deleted(_, _, _) =>
           n >= 2 && events[n - 2].Confirmed? &&
           error == (if events[n - 2].level.Ok? then Unsupported else events[n - 2].level.error)
         case Confirmed(_, _, _) => false
  }

  /** The error of the last candidate, when there is one. */
  predicate LastError(cfg: Config, candidates: seq<PluginId>, events: seq<Event>, error: WscdError) {
    candidates == [] || PassingError(candidates[|candidates| - 1] in cfg.registered, events, error)
  }

  /** Nothing in `events` stopped the call or met the requirement. */
  predicate PassedOver(events: seq<Event>, required: CertificationLevel) {
    forall i | 0 <= i < |events| :: !Stops(events[i]) && !Meets(events[i], required)
  }

  /** What is asked right after each answer: a new key's own plugin confirms its level, unless it
      collided, and an unconfirmed or insufficient key is deleted by that plugin. */
  predicate FollowsOn(events: seq<Event>, required: CertificationLevel, i: nat)
    requires i < |events|
  {
    var e := events[i];
    && (e.Generated? && e.result.Ok? ==>
          && i + 1 < |events|
          && (events[i + 1] == Collided(e.plugin, e.result.value)
              || (events[i + 1].Confirmed? && events[i + 1].plugin == e.plugin && events[i + 1].kid == e.result.value)))
    && (e.Confirmed? && !Meets(e, required) ==>
          && i + 1 < |events|
          && events[i + 1].Deleted? && events[i + 1].plugin == e.plugin && events[i + 1].kid == e.kid)
    && (e.Confirmed? ==> i > 0 && events[i - 1] == Generated(e.plugin, Ok(e.kid)))
    && (e.Deleted? ==> i > 0 && events[i - 1].Confirmed? && events[i - 1].plugin == e.plugin && events[i - 1].kid == e.kid)
  }

  predicate Orderly(events: seq<Event>, required: CertificationLevel) {
    forall i | 0 <= i < |events| :: FollowsOn(events, required, i)
  }

  /** The plugins asked to generate, in order. */
  function Contacted(events: seq<Event>): seq<PluginId> {
    if events == [] then []
    else
      var e := events[|events| - 1];
      Contacted(events[..|events| - 1]) + if e.Generated? then [e.plugin] else []
  }

  /** The candidates that are registered at all. */
  function Offered(cfg: Config, candidates: seq<PluginId>): seq<PluginId> {
    if candidates == [] then []
    else (if candidates[0] in cfg.registered then [candidates[0]] else []) + Offered(cfg, candidates[1..])
  }

  predicate PrefixOf(a: seq<PluginId>, b: seq<PluginId>) {
    |a| <= |b| && b[..|a|] == a
  }

  /** The last two events say that `p` made `kid` and confirmed a sufficient level for it. */
  predicate EndsWell(events: seq<Event>, required: CertificationLevel, p: PluginId, kid: Kid) {
    var n := |events|;
    && n >= 2
    && events[n - 2] == Generated(p, Ok(kid))
    && events[n - 1].Confirmed? && events[n - 1].plugin == p && events[n - 1].kid == kid
    && Meets(events[n - 1], required)
    && PassedOver(events[..n - 2], required)
  }

  /** The last event stopped the call; a failed generation's own error is what is reported. */
  predicate EndsStopped(events: seq<Event>, required: CertificationLevel, error: WscdError) {
    var n := |events|;
    && n >= 1 && Stops(events[n - 1]) && PassedOver(events[..n - 1], required)
    && (events[n - 1].Generated? ==> events[n - 1].result == Err(error))
  }

  // ------------------------------------------------------------- one candidate

  lemma AskGenerateOutcome(env: Env, w: World, p: PluginId, algorithm: Algorithm)
    requires Honest(env, w)
    ensures var (t, r) := AskGenerate(env, w, p, algorithm);
            && Honest(env, t)
            && t.trace == w.trace + [Generated(p, r)] && t.bindings == w.bindings
            && (forall q, k :: Stored(t, q, k) <==> Stored(w, q, k) || (q == p && r == Ok(k)))
  {
    hide Keystore.GenerateKey, Keystore.WellFormed;
    Keystore.GenerateKeyAccounts(env.device, w.android, algorithm, env.challenges(w.android.calls));
  }

  lemma AskDeleteOutcome(env: Env, w: World, p: PluginId, kid: Kid)
    requires Honest(env, w)
    ensures var (t, r) := AskDelete(env, w, p, kid);
            && Honest(env, t)
            && t.trace == w.trace + [Deleted(p, kid, r)] && t.bindings == w.bindings
            && (forall q, k :: Stored(t, q, k) <==> Stored(w, q, k) && !(q == p && r.Ok? && k == kid))
  {
    hide Keystore.DeleteKey, Keystore.WellFormed;
    Keystore.DeleteKeyAccounts(env.device, w.android, kid);
  }

  /** A rejected key is deleted by the plugin it is bound to. */
  lemma RejectOutcome(env: Env, cfg: Config, w: World, p: PluginId, kid: Kid, why: WscdError)
    requires Honest(env, w) && p in cfg.registered && kid in w.bindings && w.bindings[kid] == p
    ensures var (t, v) := Reject(env, cfg, w, kid, why);
            && Honest(env, t) && !v.Keep? && (v.Next? ==> v.error == why)
            && (exists r :: t.trace == w.trace + [Deleted(p, kid, r)] && (r.Ok? <==> v.Next?))
            && (v.Next? ==> t.bindings == w.bindings - {kid})
            && (v.Next? ==> forall q, k :: Stored(t, q, k) <==> Stored(w, q, k) && !(q == p && k == kid))
  {
    hide AskDelete, Keystore.WellFormed, Keystore.DistinctThumbprints;
    AskDeleteOutcome(env, w, p, kid);
    var (t, r) := AskDelete(env, w, p, kid);
    var u := DeleteKey(env, cfg, w, kid).0;
    assert u.trace == w.trace + [Deleted(p, kid, r)];
    assert forall q, k :: Stored(u, q, k) <==> Stored(t, q, k);
  }

  /** The events of one candidate, and what they leave behind. */
  ghost predicate Outcome(w: World, t: World, required: CertificationLevel, p: PluginId, v: Verdict, offered: bool) {
    && Extends(w, t)
    && var events := Since(w, t);
    && Orderly(events, required)
    && Contacted(events) == (if offered then [p] else [])
    && (v.Keep? ==> EndsWell(events, required, p, v.kid) && (AllNew(w, events) ==> OneMore(w, t, p, v.kid)))
    && (v.Next? ==> PassedOver(events, required) && (AllNew(w, events) ==> SameKeys(w, t)))
    && (v.Next? ==> BindingsKept(w, t, events) && PassingError(offered, events, v.error))
    && (v.Stop? ==> EndsStopped(events, required, v.error))
  }

  /** The manager's own refusal and binding add nothing a plugin was asked. */
  lemma GenerateKeyOnOutcome(env: Env, w: World, p: PluginId, algorithm: Algorithm)
    requires Honest(env, w)
    ensures var (t, r) := GenerateKeyOn(env, w, p, algorithm);
            && Honest(env, t)
            && (r.Ok? ==>
                  && t.trace == w.trace + [Generated(p, r)]
                  && t.bindings == w.bindings[r.value := p]
                  && (r.value in w.bindings ==> w.bindings[r.value] == p)
                  && forall q, k :: Stored(t, q, k) <==> Stored(w, q, k) || (q == p && r.value == k))
            && (r.Err? ==>
                  && t.bindings == w.bindings
                  && ((t.trace == w.trace + [Generated(p, r)] && forall q, k :: Stored(t, q, k) <==> Stored(w, q, k))
                      || (r.error == Plugin && exists kid ::
                            kid in w.bindings && w.bindings[kid] != p && t.trace == w.trace + [Generated(p, Ok(kid)), Collided(p, kid)])))
  {
    hide AskGenerate, Keystore.WellFormed, Keystore.DistinctThumbprints;
    AskGenerateOutcome(env, w, p, algorithm);
    var (t, r) := AskGenerate(env, w, p, algorithm);
    var u := GenerateKeyOn(env, w, p, algorithm).0;
    assert forall q, k :: Stored(u, q, k) <==> Stored(t, q, k);
    if r.Ok? && r.value in w.bindings && w.bindings[r.value] != p {
      assert Note(t, Collided(p, r.value)).trace == w.trace + [Generated(p, Ok(r.value)), Collided(p, r.value)];
    }
  }

  lemma TryOutcome(env: Env, cfg: Config, w: World, required: CertificationLevel, p: PluginId, algorithm: Algorithm)
    requires Honest(env, w)
    ensures var (t, v) := Try(env, cfg, w, required, p, algorithm);
            && Honest(env, t)
            && Outcome(w, t, required, p, v, p in cfg.registered)
  {
    hide Keystore.WellFormed, Keystore.DistinctThumbprints, Keystore.Certification, GenerateKeyOn, Reject, AskLevel;
    var (t, v) := Try(env, cfg, w, required, p, algorithm);
    if p in cfg.registered {
      GenerateKeyOnOutcome(env, w, p, algorithm);
      var (g, r) := GenerateKeyOn(env, w, p, algorithm);
      if r.Ok? {
        var achieved := SecurityProperties(env, cfg, g, r.value).1;
        if achieved.Ok? {
          RankIsServing(achieved.value, required);
        }
        LevelOutcome(env, cfg, w, g, required, p, r.value);
      } else {
        FailedOutcome(w, g, required, p, r);
      }
    } else {
      assert Since(w, t) == [];
    }
  }

  /** A candidate that yields no key leaves everything as it was, collisions apart. */
  lemma FailedOutcome(w: World, g: World, required: CertificationLevel, p: PluginId, r: Result<Kid>)
    requires r.Err? && g.bindings == w.bindings
    requires (g.trace == w.trace + [Generated(p, r)] && forall q, k :: Stored(g, q, k) <==> Stored(w, q, k))
          || (r.error == Plugin && exists kid ::
                kid in w.bindings && w.bindings[kid] != p && g.trace == w.trace + [Generated(p, Ok(kid)), Collided(p, kid)])
    ensures Outcome(w, g, required, p, if Stopping(r.error) then Stop(r.error) else Next(r.error), true)
  {
    var events := Since(w, g);
    if g.trace == w.trace + [Generated(p, r)] {
      assert events == [Generated(p, r)];
      assert Contacted(events[..0]) == [];
    } else {
      var kid :| kid in w.bindings && w.bindings[kid] != p && g.trace == w.trace + [Generated(p, Ok(kid)), Collided(p, kid)];
      assert events == [Generated(p, Ok(kid)), Collided(p, kid)];
      assert events[..1] == [Generated(p, Ok(kid))] && events[..1][..0] == [];
      assert Contacted(events[..1]) == [p];
      assert events[0].Generated?;
    }
  }

  /** A candidate that yields a key either confirms its level or has it deleted. */
  lemma LevelOutcome(env: Env, cfg: Config, w: World, g: World, required: CertificationLevel, p: PluginId, kid: Kid)
    requires Honest(env, g) && p in cfg.registered
    requires g.trace == w.trace + [Generated(p, Ok(kid))]
    requires g.bindings == w.bindings[kid := p] && (kid in w.bindings ==> w.bindings[kid] == p)
    requires forall q, k :: Stored(g, q, k) <==> Stored(w, q, k) || (q == p && kid == k)
    ensures var (u, achieved) := SecurityProperties(env, cfg, g, kid);
            var (t, v) :=
              if achieved.Ok? && Serves(achieved.value, required) then (u, Keep(kid))
              else Reject(env, cfg, u, kid, if achieved.Ok? then Unsupported else achieved.error);
            && Honest(env, t)
            && Outcome(w, t, required, p, v, true)
  {
    hide Keystore.WellFormed, Keystore.DistinctThumbprints, Keystore.Certification, Reject, Outcome;
    var (u, achieved) := SecurityProperties(env, cfg, g, kid);
    assert u.trace == w.trace + [Generated(p, Ok(kid)), Confirmed(p, kid, achieved)];
    assert forall q, k :: Stored(u, q, k) <==> Stored(g, q, k);
    if achieved.Ok? && Serves(achieved.value, required) {
      KeptOutcome(w, u, required, p, kid, achieved);
    } else {
      var why := if achieved.Ok? then Unsupported else achieved.error;
      RejectOutcome(env, cfg, u, p, kid, why);
      var (t, v) := Reject(env, cfg, u, kid, why);
      var r :| t.trace == u.trace + [Deleted(p, kid, r)] && (r.Ok? <==> v.Next?);
      assert v.Next? ==> v.error == why;
      RejectedOutcome(w, t, required, p, kid, achieved, r, v);
    }
  }

  lemma KeptOutcome(w: World, u: World, required: CertificationLevel, p: PluginId, kid: Kid, achieved: Result<CertificationLevel>)
    requires achieved.Ok? && Serves(achieved.value, required)
    requires u.trace == w.trace + [Generated(p, Ok(kid)), Confirmed(p, kid, achieved)]
    requires OneMore(w, u, p, kid)
    ensures Outcome(w, u, required, p, Keep(kid), true)
  {
    hide OneMore;
    var events := Since(w, u);
    assert events == [Generated(p, Ok(kid)), Confirmed(p, kid, achieved)];
    assert events[..1] == [Generated(p, Ok(kid))] && events[..1][..0] == [];
    assert Contacted(events[..1]) == [p];
  }

  lemma RejectedOutcome(w: World, t: World, required: CertificationLevel, p: PluginId, kid: Kid,
                        achieved: Result<CertificationLevel>, r: Result<()>, v: Verdict)
    requires !(achieved.Ok? && Serves(achieved.value, required))
    requires t.trace == w.trace + [Generated(p, Ok(kid)), Confirmed(p, kid, achieved), Deleted(p, kid, r)]
    requires !v.Keep? && (r.Ok? <==> v.Next?)
    requires v.Next? ==> v.error == if achieved.Ok? then Unsupported else achieved.error
    requires kid in w.bindings ==> w.bindings[kid] == p
    requires v.Next? ==> t.bindings == w.bindings[kid := p] - {kid}
    requires v.Next? ==> forall q, k ::
               Stored(t, q, k) <==> (Stored(w, q, k) || (q == p && kid == k)) && !(q == p && k == kid)
    ensures Outcome(w, t, required, p, v, true)
  {
    hide Stored;
    var events := Since(w, t);
    assert events == [Generated(p, Ok(kid)), Confirmed(p, kid, achieved), Deleted(p, kid, r)];
    assert events[..2] == [Generated(p, Ok(kid)), Confirmed(p, kid, achieved)];
    assert events[..2][..1] == [Generated(p, Ok(kid))] && events[..2][..1][..0] == [];
    assert Contacted(events[..2][..1]) == [p];
    assert Contacted(events[..2]) == [p];
    if v.Next? {
      assert kid in w.bindings <==> Reissued(w, events[0]);
      assert kid in w.bindings ==> kid !in t.bindings;
      assert kid !in w.bindings ==> t.bindings == w.bindings;
    }
    if AllNew(w, events) && v.Next? {
      assert events[0].Generated?;
      assert kid !in w.bindings && !Stored(w, p, kid);
      assert t.bindings == w.bindings;
    }
  }

  // ------------------------------------------------------------ all candidates

  lemma {:induction false} ContactedOfBoth(a: seq<Event>, b: seq<Event>)
    ensures Contacted(a + b) == Contacted(a) + Contacted(b)
  {
    if b == [] {
      assert a + b == a;
    } else {
      var n := |b| - 1;
      ContactedOfBoth(a, b[..n]);
      assert (a + b)[..|a| + n] == a + b[..n];
    }
  }

  lemma OrderlyBoth(a: seq<Event>, b: seq<Event>, required: CertificationLevel)
    requires Orderly(a, required) && Orderly(b, required)
    ensures Orderly(a + b, required)
  {
    forall i | 0 <= i < |a + b| ensures FollowsOn(a + b, required, i) {
      if i < |a| {
        assert FollowsOn(a, required, i);
      } else {
        assert FollowsOn(b, required, i - |a|);
      }
    }
  }

  lemma PassedBoth(a: seq<Event>, b: seq<Event>, required: CertificationLevel)
    requires PassedOver(a, required)
    ensures PassedOver(a + b, required) <==> PassedOver(b, required)
  {
    hide Stops, Meets;
    if PassedOver(a + b, required) {
      forall i | 0 <= i < |b| ensures !Stops(b[i]) && !Meets(b[i], required) {
        assert (a + b)[|a| + i] == b[i];
      }
    }
  }

  lemma EndsBoth(a: seq<Event>, b: seq<Event>, required: CertificationLevel)
    requires PassedOver(a, required)
    ensures PassedOver(b, required) ==> PassedOver(a + b, required)
    ensures forall e :: EndsStopped(b, required, e) ==> EndsStopped(a + b, required, e)
    ensures forall p, kid :: EndsWell(b, required, p, kid) ==> EndsWell(a + b, required, p, kid)
  {
    hide PassedOver, Stops, Meets;
    var n := |a + b|;
    PassedBoth(a, b, required);
    if |b| >= 1 {
      assert (a + b)[..n - 1] == a + b[..|b| - 1];
      PassedBoth(a, b[..|b| - 1], required);
    }
    if |b| >= 2 {
      assert (a + b)[..n - 2] == a + b[..|b| - 2];
      PassedBoth(a, b[..|b| - 2], required);
    }
  }

  /** Novelty carries over a candidate that left the keys as they were. */
  lemma AllNewOfBoth(w: World, m: World, a: seq<Event>, b: seq<Event>)
    requires AllNew(w, a + b)
    ensures AllNew(w, a)
    ensures SameKeys(w, m) ==> AllNew(m, b)
  {
    hide Stored;
    forall i | 0 <= i < |a| && a[i].Generated? && a[i].result.Ok?
      ensures a[i].result.value !in w.bindings && !Stored(w, a[i].plugin, a[i].result.value)
    {
      assert (a + b)[i] == a[i];
    }
    if SameKeys(w, m) {
      forall i | 0 <= i < |b| && b[i].Generated? && b[i].result.Ok?
        ensures b[i].result.value !in m.bindings && !Stored(m, b[i].plugin, b[i].result.value)
      {
        assert (a + b)[|a| + i] == b[i];
      }
    }
  }

  /** What a level-driven generation reports, said of its calls and of the keys it leaves. */
  ghost predicate LevelResult(cfg: Config, w: World, t: World, required: CertificationLevel, candidates: seq<PluginId>, r: Result<Kid>) {
    && Extends(w, t)
    && var events := Since(w, t);
    && Orderly(events, required)
    && PrefixOf(Contacted(events), Offered(cfg, candidates))
    && (r.Ok? ==> exists p :: p in candidates && EndsWell(events, required, p, r.value) &&
                              (AllNew(w, events) ==> OneMore(w, t, p, r.value)))
    && (r.Err? ==>
          || EndsStopped(events, required, r.error)
          || (PassedOver(events, required) && Contacted(events) == Offered(cfg, candidates)
              && (AllNew(w, events) ==> SameKeys(w, t)) && BindingsKept(w, t, events)
              && LastError(cfg, candidates, events, r.error)))
  }

  /** One passed-over candidate in front of a run over the rest. */
  lemma Continue(cfg: Config, w: World, m: World, t: World, required: CertificationLevel, candidates: seq<PluginId>,
                 e: WscdError, r: Result<Kid>)
    requires candidates != []
    requires Outcome(w, m, required, candidates[0], Next(e), candidates[0] in cfg.registered)
    requires LevelResult(cfg, m, t, required, candidates[1..], r)
    requires candidates[1..] == [] ==> t == m && r == Err(e)
    ensures LevelResult(cfg, w, t, required, candidates, r)
  {
    hide Orderly, PassedOver, EndsWell, EndsStopped, Contacted, AllNew, Stored, OneMore, SameKeys, BindingsKept, LastError,
      PassingError;
    var a, b := Since(w, m), Since(m, t);
    assert t.trace == m.trace + b && m.trace == w.trace + a;
    assert Since(w, t) == a + b;
    ContactedOfBoth(a, b);
    OrderlyBoth(a, b, required);
    EndsBoth(a, b, required);
    if AllNew(w, a + b) {
      AllNewOfBoth(w, m, a, b);
      SameKeysThen(w, m, t);
    }
    BindingsKeptThen(w, m, t, a, b);
    if r.Err? {
      LastErrorOfBoth(cfg, candidates, a, b, e, r.error);
    }
    if r.Ok? {
      var p :| p in candidates[1..] && EndsWell(b, required, p, r.value) && (AllNew(m, b) ==> OneMore(m, t, p, r.value));
      assert p in candidates;
      assert EndsWell(a + b, required, p, r.value);
    }
  }

  lemma LastErrorOfBoth(cfg: Config, candidates: seq<PluginId>, a: seq<Event>, b: seq<Event>, e: WscdError, error: WscdError)
    requires candidates != [] && PassingError(candidates[0] in cfg.registered, a, e)
    requires candidates[1..] == [] ==> b == [] && error == e
    ensures LastError(cfg, candidates[1..], b, error) ==> LastError(cfg, candidates, a + b, error)
  {
    if candidates[1..] == [] {
      assert |candidates| == 1 && a + b == a;
    } else {
      var n := |b|;
      assert candidates[1..][|candidates| - 2] == candidates[|candidates| - 1];
      assert n >= 1 ==> (a + b)[|a + b| - 1] == b[n - 1];
      assert n >= 2 ==> (a + b)[|a + b| - 2] == b[n - 2];
    }
  }

  lemma BindingsKeptThen(w: World, m: World, t: World, a: seq<Event>, b: seq<Event>)
    ensures BindingsKept(w, m, a) && BindingsKept(m, t, b) ==> BindingsKept(w, t, a + b)
  {
    hide Reissued;
    if BindingsKept(w, m, a) && BindingsKept(m, t, b) {
      if NoneReissued(w, a + b) {
        assert forall i | 0 <= i < |a| :: (a + b)[i] == a[i];
        assert m.bindings == w.bindings;
        forall i | 0 <= i < |b| ensures !Reissued(m, b[i]) {
          assert (a + b)[|a| + i] == b[i];
          SameReissued(w, m, b[i]);
        }
      }
      if t.bindings == w.bindings {
        assert forall kid | kid in w.bindings :: kid in m.bindings && m.bindings[kid] == w.bindings[kid];
        assert m.bindings == w.bindings;
        forall i | 0 <= i < |b| ensures !Reissued(w, b[i]) {
          SameReissued(w, m, b[i]);
        }
      }
    }
  }

  lemma SameReissued(w: World, m: World, e: Event)
    requires m.bindings == w.bindings
    ensures Reissued(w, e) <==> Reissued(m, e)
  {
  }

  lemma SameKeysThen(w: World, m: World, t: World)
    ensures SameKeys(w, m) && SameKeys(m, t) ==> SameKeys(w, t)
    ensures forall p, kid :: SameKeys(w, m) && OneMore(m, t, p, kid) ==> OneMore(w, t, p, kid)
  {
    hide Stored;
  }

  lemma {:induction false} TryAllOutcome(env: Env, cfg: Config, w: World, required: CertificationLevel,
                                         candidates: seq<PluginId>, algorithm: Algorithm, lastErr: Option<WscdError>)
    requires Honest(env, w)
    ensures var (t, r) := TryAll(env, cfg, w, required, candidates, algorithm, lastErr);
            && Honest(env, t)
            && LevelResult(cfg, w, t, required, candidates, r)
    decreases |candidates|
  {
    hide Try, Honest, Outcome, LevelResult;
    var (t, r) := TryAll(env, cfg, w, required, candidates, algorithm, lastErr);
    if candidates == [] {
      NothingTried(cfg, w, required, r);
    } else {
      var p := candidates[0];
      TryOutcome(env, cfg, w, required, p, algorithm);
      var (m, v) := Try(env, cfg, w, required, p, algorithm);
      if v.Next? {
        TryAllOutcome(env, cfg, m, required, candidates[1..], algorithm, Some(v.error));
        Continue(cfg, w, m, t, required, candidates, v.error, r);
      } else {
        Settled(cfg, w, t, required, candidates, v, r);
      }
    }
  }

  lemma NothingTried(cfg: Config, w: World, required: CertificationLevel, r: Result<Kid>)
    requires r.Err?
    ensures LevelResult(cfg, w, w, required, [], r)
  {
    assert Since(w, w) == [];
  }

  lemma Settled(cfg: Config, w: World, t: World, required: CertificationLevel, candidates: seq<PluginId>, v: Verdict, r: Result<Kid>)
    requires candidates != [] && !v.Next?
    requires Outcome(w, t, required, candidates[0], v, candidates[0] in cfg.registered)
    requires r == if v.Keep? then Ok(v.kid) else Err(v.error)
    ensures LevelResult(cfg, w, t, required, candidates, r)
  {
    hide Orderly, PassedOver, Contacted, AllNew, Stored, OneMore;
    var events := Since(w, t);
    if candidates[0] !in cfg.registered {
      assert Contacted(events) == [];
    }
    if v.Keep? {
      assert candidates[0] in candidates && EndsWell(events, required, candidates[0], r.value);
    }
  }

  /** The result of level-driven generation. On success the last plugin asked made the key and
      confirmed a sufficient level; no earlier answer met the requirement, every earlier key was
      deleted by its own plugin, and provided the generated identifiers were new, exactly one key
      was added and bound. After a cancellation, a PIN failure, an unconfirmed cleanup or a failed
      deletion nothing more was asked. If every registered candidate merely fell short, no binding
      was added, none was lost exactly when no plugin reissued an identifier bound to it, and
      provided the identifiers were new the stored keys are as before. */
  lemma LevelDrivenGeneration(env: Env, cfg: Config, w: World, required: CertificationLevel,
                              candidates: seq<PluginId>, algorithm: Algorithm)
    requires Honest(env, w)
    ensures var (t, r) := GenerateKeyForLevel(env, cfg, w, required, candidates, algorithm);
            LevelResult(cfg, w, t, required, candidates, r) && (candidates == [] ==> r == Err(NoPlugin))
  {
    TryAllOutcome(env, cfg, w, required, candidates, algorithm, None);
  }

  /** A stopping answer is always the last thing a level-driven generation hears. */
  lemma NothingAfterAStop(env: Env, cfg: Config, w: World, required: CertificationLevel,
                          candidates: seq<PluginId>, algorithm: Algorithm, i: nat)
    requires Honest(env, w)
    requires var t := GenerateKeyForLevel(env, cfg, w, required, candidates, algorithm).0;
             |w.trace| <= i < |t.trace| && Stops(t.trace[i])
    ensures var (t, r) := GenerateKeyForLevel(env, cfg, w, required, candidates, algorithm);
            i == |t.trace| - 1 && r.Err?
  {
    hide GenerateKeyForLevel, Honest, Stops;
    LevelDrivenGeneration(env, cfg, w, required, candidates, algorithm);
    var t := GenerateKeyForLevel(env, cfg, w, required, candidates, algorithm).0;
    var events := Since(w, t);
    assert events[i - |w.trace|] == t.trace[i];
    StopsOnlyLast(events, required, i - |w.trace|);
  }

  lemma StopsOnlyLast(events: seq<Event>, required: CertificationLevel, i: nat)
    requires i < |events| && Stops(events[i])
    ensures !PassedOver(events, required)
    ensures forall p, kid :: !EndsWell(events, required, p, kid)
    ensures forall e :: EndsStopped(events, required, e) ==> i == |events| - 1
  {
    var n := |events|;
    assert i < n - 1 ==> events[..n - 1][i] == events[i];
    assert i < n - 2 ==> events[..n - 2][i] == events[i];
  }

  /** A plugin that hands out one of its own bound identifiers again, and falls short, loses the
      old key with the new one. */
  lemma ReissuedKeyIsLost(env: Env, cfg: Config, w: World, p: PluginId, kid: Kid, algorithm: Algorithm)
    requires p != ANDROID && p in cfg.registered
    requires kid in w.bindings && w.bindings[kid] == p && Stored(w, p, kid)
    requires env.generations(w.asked) == Ok(kid) && env.levels(w.asked + 1) == Ok(Unattested)
    requires env.deletions(w.asked + 2).Ok?
    ensures var (t, r) := GenerateKeyForLevel(env, cfg, w, AttestedDedicatedHardware, [p], algorithm);
            r == Err(Unsupported) && kid !in t.bindings && !Stored(t, p, kid)
  {
    var (t, v) := Try(env, cfg, w, AttestedDedicatedHardware, p, algorithm);
    assert v == Next(Unsupported);
    assert [p][1..] == [];
    assert TryAll(env, cfg, t, AttestedDedicatedHardware, [p][1..], algorithm, Some(Unsupported)) == (t, Err(Unsupported));
  }

  // --------------------------------------------------------------- routing

  /** A key's own binding routes before the operation's default, and that before the global one. */
  lemma RoutesInOrder(cfg: Config, bindings: map<Kid, PluginId>, kid: Kid, op: string)
    ensures var r := ResolveForKey(cfg, bindings, kid, op);
            var p := if kid in bindings then bindings[kid]
                     else if op in cfg.operationDefaults then cfg.operationDefaults[op]
                     else cfg.defaultPlugin;
            (p in cfg.registered ==> r == Ok(p)) && (p !in cfg.registered ==> r == Err(NoPlugin))
    ensures var p := if "generate_key" in cfg.operationDefaults then cfg.operationDefaults["generate_key"] else cfg.defaultPlugin;
            ResolveForGenerate(cfg) == if p in cfg.registered then Ok(p) else Err(NoPlugin)
  {
  }

  /** The Android Keystore is asked for P-256 keys alone; another algorithm never reaches the device. */
  lemma AndroidRefusesOtherAlgorithms(env: Env, w: World, algorithm: Algorithm)
    requires algorithm != ES256
    ensures var (t, r) := GenerateKeyOn(env, w, "android-keystore", algorithm);
            r == Err(Unsupported) && t.android == w.android && t.bindings == w.bindings
  {
  }
}
