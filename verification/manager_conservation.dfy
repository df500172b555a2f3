/** No hardware key goes untracked, over every run of generations, level-driven generations,
    deletions and bindings (src/manager.rs, src/plugins/android_keystore.rs). */
module ManagerConservation {
  import opened Results
  import opened Keys
  import opened Manager
  import Keystore

  ghost function Untracked(w: World): set<Keystore.Alias> {
    Keystore.Untracked(w.android)
  }

  /** Every recorded hardware key is bound to its plugin, unless its identifier collided. */
  ghost predicate Bound(w: World) {
    forall kid | kid in w.android.keys ::
      (kid in w.bindings && w.bindings[kid] == ANDROID) || Collided(ANDROID, kid) in w.trace
  }

  ghost predicate Sound(env: Env, w: World) {
    && Keystore.DistinctThumbprints(env.device)
    && Keystore.WellFormed(env.device, w.android)
    && Bound(w)
  }

  /** A hardware key the manager can reach: alive, recorded and bound. */
  predicate Tracked(w: World, kid: Kid) {
    && kid in w.android.keys && w.android.keys[kid].alias in w.android.live
    && kid in w.bindings && w.bindings[kid] == ANDROID
  }

  /** Every key tracked before is tracked after, under the same record. */
  ghost predicate KeepsTracked(w: World, t: World) {
    forall kid | Tracked(w, kid) :: Tracked(t, kid) && t.android.keys[kid] == w.android.keys[kid]
  }

  /** Every key tracked before, except possibly `but`. */
  ghost predicate KeepsTrackedBut(w: World, t: World, but: Kid) {
    forall kid | Tracked(w, kid) && kid != but :: Tracked(t, kid) && t.android.keys[kid] == w.android.keys[kid]
  }

  function Failure<T>(r: Result<T>): Option<WscdError> {
    if r.Err? then Some(r.error) else None
  }

  function Cleanups(e: Option<WscdError>): nat {
    if e == Some(UnconfirmedCleanup) then 1 else 0
  }

  /** A step that adds no untracked key, or one if it says so. */
  ghost predicate Accounted(w: World, t: World, e: Option<WscdError>) {
    |Untracked(t)| <= |Untracked(w)| + Cleanups(e)
  }

  // ----------------------------------------------------------- single calls

  lemma GenerateKeyOnConserves(env: Env, w: World, p: PluginId, algorithm: Algorithm)
    requires Sound(env, w)
    ensures var (t, r) := GenerateKeyOn(env, w, p, algorithm);
            && Sound(env, t) && KeepsTracked(w, t) && Accounted(w, t, Failure(r))
            && (r.Ok? ==> (r.value in w.bindings ==> w.bindings[r.value] == p) && !(p == ANDROID && Tracked(w, r.value)))
            && (r.Ok? ==> r.value in t.bindings && t.bindings[r.value] == p)
  {
    hide Keystore.GenerateKey, Keystore.WellFormed, Keystore.DistinctThumbprints, Keystore.Untracked;
    if p == ANDROID {
      var challenge := env.challenges(w.android.calls);
      Keystore.GenerateKeyAccounts(env.device, w.android, algorithm, challenge);
      Keystore.GenerateKeyTracks(env.device, w.android, algorithm, challenge);
    }
    var (g, r) := AskGenerate(env, w, p, algorithm);
    var t := GenerateKeyOn(env, w, p, algorithm).0;
    assert t.trace == g.trace || t.trace == g.trace + [Collided(p, r.value)];
    if r.Ok? && r.value in g.bindings && g.bindings[r.value] != p {
      assert t.trace[|g.trace|] == Collided(p, r.value);
    }
  }

  lemma LevelConserves(env: Env, cfg: Config, w: World, kid: Kid)
    requires Sound(env, w)
    ensures var t := SecurityProperties(env, cfg, w, kid).0;
            && Sound(env, t) && t.android == w.android && t.bindings == w.bindings
  {
    hide Keystore.Certification;
  }

  lemma DeleteKeyConserves(env: Env, cfg: Config, w: World, kid: Kid)
    requires Sound(env, w)
    ensures var (t, r) := DeleteKey(env, cfg, w, kid);
            && Sound(env, t) && KeepsTrackedBut(w, t, kid) && |Untracked(t)| <= |Untracked(w)|
            && (kid in w.bindings && w.bindings[kid] != ANDROID ==> KeepsTracked(w, t))
  {
    hide AskDelete, Keystore.WellFormed, Keystore.DistinctThumbprints, Keystore.Untracked;
    var p := ResolveForKey(cfg, w.bindings, kid, "delete");
    if p.Ok? {
      AskDeleteKeeps(env, w, p.value, kid);
      var (a, r) := AskDelete(env, w, p.value, kid);
      var t := DeleteKey(env, cfg, w, kid).0;
      assert forall e | e in w.trace :: e in t.trace by {
        assert t.trace == w.trace + t.trace[|w.trace|..];
      }
    }
  }

  /** The plugin forgets at most the key it was asked to delete. */
  lemma AskDeleteKeeps(env: Env, w: World, p: PluginId, kid: Kid)
    requires Sound(env, w)
    ensures var (t, r) := AskDelete(env, w, p, kid);
            && Keystore.WellFormed(env.device, t.android)
            && t.bindings == w.bindings && |w.trace| < |t.trace| && t.trace[..|w.trace|] == w.trace
            && (p != ANDROID ==> t.android == w.android)
            && (forall k | k in t.android.keys :: k in w.android.keys)
            && (p == ANDROID && r.Ok? ==> kid !in t.android.keys)
            && KeepsTrackedBut(w, t, kid) && |Untracked(t)| <= |Untracked(w)|
  {
    hide Keystore.DeleteKey, Keystore.WellFormed, Keystore.DistinctThumbprints, Keystore.Untracked;
    if p == ANDROID {
      Keystore.DeleteKeyAccounts(env.device, w.android, kid);
      var (a, _) := Keystore.DeleteKey(env.device, w.android, kid);
      SmallerSet(Keystore.Untracked(a), Keystore.Untracked(w.android));
    }
  }

  lemma SmallerSet(s: set<Keystore.Alias>, t: set<Keystore.Alias>)
    requires s <= t
    ensures |s| <= |t|
  {
    if s != t {
      var x :| x in t && x !in s;
      SmallerSet(s, t - {x});
    }
  }

  // ------------------------------------------------- level-driven generation

  lemma TryConserves(env: Env, cfg: Config, w: World, required: CertificationLevel, p: PluginId, algorithm: Algorithm)
    requires Sound(env, w)
    ensures var (t, v) := Try(env, cfg, w, required, p, algorithm);
            && Sound(env, t) && KeepsTracked(w, t)
            && Accounted(w, t, if v.Stop? then Some(v.error) else None)
  {
    hide GenerateKeyOn, SecurityProperties, DeleteKey, Sound, Tracked, Untracked;
    GenerateKeyOnConserves(env, w, p, algorithm);
    var (g, r) := GenerateKeyOn(env, w, p, algorithm);
    if r.Ok? {
      LevelConserves(env, cfg, g, r.value);
      var u := SecurityProperties(env, cfg, g, r.value).0;
      assert KeepsTracked(w, u) && |Untracked(u)| == |Untracked(g)| by { SameKeystore(w, g, u); }
      DeleteKeyConserves(env, cfg, u, r.value);
    }
  }

  lemma SameKeystore(w: World, g: World, u: World)
    requires u.android == g.android && u.bindings == g.bindings && KeepsTracked(w, g)
    ensures KeepsTracked(w, u) && Untracked(u) == Untracked(g)
  {
  }

  lemma {:induction false} TryAllConserves(env: Env, cfg: Config, w: World, required: CertificationLevel,
                                           candidates: seq<PluginId>, algorithm: Algorithm, lastErr: Option<WscdError>)
    requires Sound(env, w)
    ensures var (t, r) := TryAll(env, cfg, w, required, candidates, algorithm, lastErr);
            Sound(env, t) && KeepsTracked(w, t) && Accounted(w, t, Failure(r))
    decreases |candidates|
  {
    hide Try, Sound, Tracked, Untracked;
    if candidates != [] {
      TryConserves(env, cfg, w, required, candidates[0], algorithm);
      var (t, v) := Try(env, cfg, w, required, candidates[0], algorithm);
      if v.Next? {
        TryAllConserves(env, cfg, t, required, candidates[1..], algorithm, Some(v.error));
      }
    }
  }

  // -------------------------------------------------------------- every run

  datatype Op =
    | DoGenerate(algorithm: Algorithm)
    | DoGenerateWith(plugin: PluginId, algorithm: Algorithm)
    | DoGenerateForLevel(required: CertificationLevel, candidates: seq<PluginId>, algorithm: Algorithm)
    | DoDelete(kid: Kid)
    | DoBind(plugin: PluginId, kids: seq<Kid>)

  /** The world after one call, and its error if it failed. */
  function Do(env: Env, cfg: Config, w: World, op: Op): (World, Option<WscdError>) {
    match op
    case DoGenerate(algorithm) =>
      var p := ResolveForGenerate(cfg);
      if p.Err? then (w, Some(p.error))
      else
        var (t, r) := GenerateKeyOn(env, w, p.value, algorithm);
        (t, Failure(r))
    case DoGenerateWith(plugin, algorithm) =>
      if plugin !in cfg.registered then (w, Some(NoPlugin))
      else
        var (t, r) := GenerateKeyOn(env, w, plugin, algorithm);
        (t, Failure(r))
    case DoGenerateForLevel(required, candidates, algorithm) =>
      var (t, r) := GenerateKeyForLevel(env, cfg, w, required, candidates, algorithm);
      (t, Failure(r))
    case DoDelete(kid) =>
      var (t, r) := DeleteKey(env, cfg, w, kid);
      (t, Failure(r))
    case DoBind(plugin, kids) =>
      var (t, r) := BindKeys(w, plugin, kids);
      (t, Failure(r))
  }

  /** The world after a run, and how many of its calls reported `UnconfirmedCleanup`. */
  function Run(env: Env, cfg: Config, w: World, ops: seq<Op>): (World, nat) {
    if ops == [] then (w, 0)
    else
      var (t, n) := Run(env, cfg, w, ops[..|ops| - 1]);
      var (u, e) := Do(env, cfg, t, ops[|ops| - 1]);
      (u, n + Cleanups(e))
  }

  /** Binding re-routes no key. */
  lemma {:induction false} BindKeysConserves(env: Env, w: World, p: PluginId, kids: seq<Kid>)
    requires Sound(env, w)
    ensures var t := BindKeys(w, p, kids).0;
            && Sound(env, t) && KeepsTracked(w, t) && Untracked(t) == Untracked(w)
            && (forall kid | kid in w.bindings :: kid in t.bindings && t.bindings[kid] == w.bindings[kid])
    decreases |kids|
  {
    hide Keystore.WellFormed, Keystore.Untracked, Keystore.DistinctThumbprints;
    if kids != [] && !(kids[0] in w.bindings && w.bindings[kids[0]] != p) {
      BindKeysConserves(env, w.(bindings := w.bindings[kids[0] := p]), p, kids[1..]);
    }
  }

  /** Binding succeeds exactly when no listed key has another plugin, and then routes every
      operation on each of them to `p`; it changes nothing but those keys' bindings. */
  lemma {:induction false} BindKeysExactly(cfg: Config, w: World, p: PluginId, kids: seq<Kid>, op: string)
    ensures var (t, r) := BindKeys(w, p, kids);
            && (r.Ok? <==> forall kid | kid in kids && kid in w.bindings :: w.bindings[kid] == p)
            && (r.Ok? ==> forall kid | kid in kids :: ResolveForKey(cfg, t.bindings, kid, op) == GetPlugin(cfg, p))
            && (forall kid | kid in t.bindings && !(kid in kids && t.bindings[kid] == p) ::
                  kid in w.bindings && t.bindings[kid] == w.bindings[kid])
            && (forall kid | kid in w.bindings :: kid in t.bindings && t.bindings[kid] == w.bindings[kid])
    decreases |kids|
  {
    if kids != [] {
      assert kids == [kids[0]] + kids[1..];
      if !(kids[0] in w.bindings && w.bindings[kids[0]] != p) {
        BindKeysExactly(cfg, w.(bindings := w.bindings[kids[0] := p]), p, kids[1..], op);
      }
    }
  }

  lemma DoConserves(env: Env, cfg: Config, w: World, op: Op)
    requires Sound(env, w)
    ensures var (t, e) := Do(env, cfg, w, op);
            && Sound(env, t) && Accounted(w, t, e)
            && (if op.DoDelete? then KeepsTrackedBut(w, t, op.kid) else KeepsTracked(w, t))
  {
    hide GenerateKeyOn, TryAll, DeleteKey, BindKeys, Sound, Untracked, Tracked;
    match op
    case DoGenerate(algorithm) =>
      var p := ResolveForGenerate(cfg);
      if p.Ok? {
        GenerateKeyOnConserves(env, w, p.value, algorithm);
      }
    case DoGenerateWith(plugin, algorithm) => GenerateKeyOnConserves(env, w, plugin, algorithm);
    case DoGenerateForLevel(required, candidates, algorithm) =>
      TryAllConserves(env, cfg, w, required, candidates, algorithm, None);
    case DoDelete(kid) => DeleteKeyConserves(env, cfg, w, kid);
    case DoBind(plugin, kids) => BindKeysConserves(env, w, plugin, kids);
  }

  /** In every run, against a device that may persist a key and then fail and may fail to delete:
      each call that reports `UnconfirmedCleanup` accounts for at most one hardware key out of
      reach, no other call adds one, and every other live key is recorded and, collisions apart,
      bound to the plugin that holds it. */
  lemma {:induction false} NoUntrackedKeys(env: Env, cfg: Config, w: World, ops: seq<Op>)
    requires Sound(env, w)
    ensures var (t, n) := Run(env, cfg, w, ops);
            && Sound(env, t)
            && |Untracked(t)| <= |Untracked(w)| + n
            && (forall a | a in t.android.live && a !in Untracked(t) ::
                  exists kid :: kid in t.android.keys && t.android.keys[kid].alias == a
                             && (Tracked(t, kid) || Collided(ANDROID, kid) in t.trace))
  {
    hide Do, Keystore.WellFormed, Keystore.DistinctThumbprints;
    if ops != [] {
      NoUntrackedKeys(env, cfg, w, ops[..|ops| - 1]);
      DoConserves(env, cfg, Run(env, cfg, w, ops[..|ops| - 1]).0, ops[|ops| - 1]);
    }
  }

  /** A tracked key stays tracked, whatever fails around it, until a call deletes that very key. */
  lemma {:induction false} TrackedUntilDeleted(env: Env, cfg: Config, w: World, ops: seq<Op>, kid: Kid)
    requires Sound(env, w) && Tracked(w, kid)
    requires DoDelete(kid) !in ops
    ensures var t := Run(env, cfg, w, ops).0;
            Tracked(t, kid) && t.android.keys[kid] == w.android.keys[kid]
  {
    hide Do, Sound;
    if ops != [] {
      var n := |ops| - 1;
      TrackedUntilDeleted(env, cfg, w, ops[..n], kid);
      NoUntrackedKeys(env, cfg, w, ops[..n]);
      DoConserves(env, cfg, Run(env, cfg, w, ops[..n]).0, ops[n]);
      assert ops[n] in ops;
    }
  }
}
