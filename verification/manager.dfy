/** Routing of key operations to plugins and level-driven generation (src/manager.rs). One plugin is
    the Android Keystore of module Keystore. The others answer as they like, but store exactly the
    keys they report to have generated and not to have deleted. */
module Manager {
  import opened Results
  import opened Keys
  import opened Primitives
  import Keystore

  type PluginId = string

  const ANDROID: PluginId := "android-keystore"

  datatype Config = Config(registered: set<PluginId>, operationDefaults: map<string, PluginId>, defaultPlugin: PluginId)

  /** The answers of the world outside: the device's, and the other plugins' by number of calls. */
  datatype Env = Env(
    device: Keystore.Device,
    challenges: nat -> Octets32,
    generations: nat -> Result<Kid>,
    levels: nat -> Result<CertificationLevel>,
    deletions: nat -> Result<()>)

  /** What the manager asked of plugins and was answered, and the collisions it refused. */
  datatype Event =
    | Generated(plugin: PluginId, result: Result<Kid>)
    | Collided(plugin: PluginId, kid: Kid)
    | Confirmed(plugin: PluginId, kid: Kid, level: Result<CertificationLevel>)
    | Deleted(plugin: PluginId, kid: Kid, outcome: Result<()>)

  datatype World = World(
    android: Keystore.State,
    stores: map<PluginId, set<Kid>>,
    asked: nat,
    bindings: map<Kid, PluginId>,
    trace: seq<Event>)

  // ------------------------------------------------------------ resolution

  function GetPlugin(cfg: Config, id: PluginId): Result<PluginId> {
    if id in cfg.registered then Ok(id) else Err(NoPlugin)
  }

  function ResolveForKey(cfg: Config, bindings: map<Kid, PluginId>, kid: Kid, op: string): Result<PluginId> {
    if kid in bindings then GetPlugin(cfg, bindings[kid])
    else if op in cfg.operationDefaults then GetPlugin(cfg, cfg.operationDefaults[op])
    else GetPlugin(cfg, cfg.defaultPlugin)
  }

  function ResolveForGenerate(cfg: Config): Result<PluginId> {
    if "generate_key" in cfg.operationDefaults then GetPlugin(cfg, cfg.operationDefaults["generate_key"])
    else GetPlugin(cfg, cfg.defaultPlugin)
  }

  // ---------------------------------------------------------- plugin calls

  function StoreOf(w: World, p: PluginId): set<Kid> {
    if p in w.stores then w.stores[p] else {}
  }

  function Note(w: World, e: Event): World {
    w.(trace := w.trace + [e])
  }

  function AskGenerate(env: Env, w: World, p: PluginId, algorithm: Algorithm): (World, Result<Kid>) {
    if p == ANDROID then
      var (a, r) := Keystore.GenerateKey(env.device, w.android, algorithm, env.challenges(w.android.calls));
      (Note(w.(android := a), Generated(p, r)), r)
    else
      var r := env.generations(w.asked);
      var stores := if r.Ok? then w.stores[p := StoreOf(w, p) + {r.value}] else w.stores;
      (Note(w.(asked := w.asked + 1, stores := stores), Generated(p, r)), r)
  }

  function AskLevel(env: Env, w: World, p: PluginId, kid: Kid): (World, Result<CertificationLevel>) {
    if p == ANDROID then
      var r := Keystore.Certification(w.android, kid);
      (Note(w, Confirmed(p, kid, r)), r)
    else
      var r := env.levels(w.asked);
      (Note(w.(asked := w.asked + 1), Confirmed(p, kid, r)), r)
  }

  function AskDelete(env: Env, w: World, p: PluginId, kid: Kid): (World, Result<()>) {
    if p == ANDROID then
      var (a, r) := Keystore.DeleteKey(env.device, w.android, kid);
      (Note(w.(android := a), Deleted(p, kid, r)), r)
    else
      var r := env.deletions(w.asked);
      var stores := if r.Ok? then w.stores[p := StoreOf(w, p) - {kid}] else w.stores;
      (Note(w.(asked := w.asked + 1, stores := stores), Deleted(p, kid, r)), r)
  }

  // ------------------------------------------------------------ operations

  /** A key already bound to another plugin is refused, never re-routed; it is not deleted. */
  function GenerateKeyOn(env: Env, w: World, p: PluginId, algorithm: Algorithm): (World, Result<Kid>) {
    var (t, r) := AskGenerate(env, w, p, algorithm);
    if r.Err? then (t, r)
    else if r.value in t.bindings && t.bindings[r.value] != p then (Note(t, Collided(p, r.value)), Err(Plugin))
    else (t.(bindings := t.bindings[r.value := p]), r)
  }

  function SecurityProperties(env: Env, cfg: Config, w: World, kid: Kid): (World, Result<CertificationLevel>) {
    match ResolveForKey(cfg, w.bindings, kid, "security_properties")
    case Err(e) => (w, Err(e))
    case Ok(p) => AskLevel(env, w, p, kid)
  }

  function DeleteKey(env: Env, cfg: Config, w: World, kid: Kid): (World, Result<()>) {
    match ResolveForKey(cfg, w.bindings, kid, "delete")
    case Err(e) => (w, Err(e))
    case Ok(p) =>
      var (t, r) := AskDelete(env, w, p, kid);
      (if r.Ok? then t.(bindings := t.bindings - {kid}) else t, r)
  }

  /** What one candidate comes to: its key is kept, the next is tried, or the whole call stops. */
  datatype Verdict = Keep(kid: Kid) | Next(error: WscdError) | Stop(error: WscdError)

  /** Failures after which no other candidate may be tried. */
  predicate Stopping(e: WscdError) {
    e.UnconfirmedCleanup? || e.AuthCancelled? || e.Pin?
  }

  /** A key that cannot be vouched for is deleted before the next candidate is tried. */
  function Reject(env: Env, cfg: Config, w: World, kid: Kid, why: WscdError): (World, Verdict) {
    var (t, r) := DeleteKey(env, cfg, w, kid);
    (t, if r.Ok? then Next(why) else Stop(Plugin))
  }

  function Try(env: Env, cfg: Config, w: World, required: CertificationLevel, p: PluginId, algorithm: Algorithm): (World, Verdict) {
    if GetPlugin(cfg, p).Err? then (w, Next(NoPlugin))
    else
      match GenerateKeyOn(env, w, p, algorithm)
      case (t, Err(e)) => (t, if Stopping(e) then Stop(e) else Next(e))
      case (t, Ok(kid)) =>
        match SecurityProperties(env, cfg, t, kid)
        case (u, Err(e)) => Reject(env, cfg, u, kid, e)
        case (u, Ok(achieved)) =>
          if achieved.Rank() >= required.Rank() then (u, Keep(kid))
          else Reject(env, cfg, u, kid, Unsupported)
  }

  /** The candidates in order, from `lastErr`, the most recent candidate's error. */
  function TryAll(env: Env, cfg: Config, w: World, required: CertificationLevel, candidates: seq<PluginId>,
                  algorithm: Algorithm, lastErr: Option<WscdError>): (World, Result<Kid>)
    decreases |candidates|
  {
    if candidates == [] then (w, Err(lastErr.GetOr(NoPlugin)))
    else
      match Try(env, cfg, w, required, candidates[0], algorithm)
      case (t, Keep(kid)) => (t, Ok(kid))
      case (t, Stop(e)) => (t, Err(e))
      case (t, Next(e)) => TryAll(env, cfg, t, required, candidates[1..], algorithm, Some(e))
  }

  function GenerateKeyForLevel(env: Env, cfg: Config, w: World, required: CertificationLevel, candidates: seq<PluginId>,
                               algorithm: Algorithm): (World, Result<Kid>)
  {
    TryAll(env, cfg, w, required, candidates, algorithm, None)
  }

  /** Binds in order up to the first key that another plugin has. */
  function BindKeys(w: World, p: PluginId, kids: seq<Kid>): (World, Result<()>)
    decreases |kids|
  {
    if kids == [] then (w, Ok(()))
    else if kids[0] in w.bindings && w.bindings[kids[0]] != p then (w, Err(Plugin))
    else BindKeys(w.(bindings := w.bindings[kids[0] := p]), p, kids[1..])
  }
}

/** The manager object with its plugins. */
module WscdManager {
  import opened Results
  import opened Keys
  import AndroidKeystore
  import M = Manager

  /** The plugins other than the Android Keystore, with what each stores. */
  class Backends {
    var stores: map<M.PluginId, set<Kid>>
    var asked: nat

    constructor ()
      ensures stores == map[] && asked == 0
    {
      stores, asked := map[], 0;
    }
  }

  class WscdManager {
    const cfg: M.Config
    const env: M.Env
    const android: AndroidKeystore.AndroidKeystorePlugin
    const others: Backends
    var bindings: map<Kid, M.PluginId>
    ghost var trace: seq<M.Event>

    ghost predicate Valid() {
      android.device == env.device
    }

    ghost function Value(): M.World
      reads this, android, others
    {
      M.World(android.Value(), others.stores, others.asked, bindings, trace)
    }

    constructor (cfg: M.Config, env: M.Env)
      ensures Valid() && this.cfg == cfg && this.env == env && fresh(android) && fresh(others)
      ensures bindings == map[] && trace == [] && android.keys == map[] && android.live == {}
    {
      this.cfg, this.env := cfg, env;
      android := new AndroidKeystore.AndroidKeystorePlugin(env.device);
      others := new Backends();
      bindings, trace := map[], [];
    }

    method AskGenerate(p: M.PluginId, algorithm: Algorithm) returns (r: Result<Kid>)
      requires Valid()
      modifies this, android, others
      ensures (Value(), r) == M.AskGenerate(env, old(Value()), p, algorithm)
    {
      if p == M.ANDROID {
        r := android.GenerateKeyWithChallenge(algorithm, env.challenges(android.calls));
      } else {
        r := env.generations(others.asked);
        others.asked := others.asked + 1;
        if r.Ok? {
          var stored := if p in others.stores then others.stores[p] else {};
          others.stores := others.stores[p := stored + {r.value}];
        }
      }
      trace := trace + [M.Generated(p, r)];
    }

    method AskLevel(p: M.PluginId, kid: Kid) returns (r: Result<CertificationLevel>)
      requires Valid()
      modifies this, android, others
      ensures (Value(), r) == M.AskLevel(env, old(Value()), p, kid)
    {
      if p == M.ANDROID {
        r := android.Certification(kid);
      } else {
        r := env.levels(others.asked);
        others.asked := others.asked + 1;
      }
      trace := trace + [M.Confirmed(p, kid, r)];
    }

    method AskDelete(p: M.PluginId, kid: Kid) returns (r: Result<()>)
      requires Valid()
      modifies this, android, others
      ensures (Value(), r) == M.AskDelete(env, old(Value()), p, kid)
    {
      if p == M.ANDROID {
        r := android.DeleteKey(kid);
      } else {
        r := env.deletions(others.asked);
        others.asked := others.asked + 1;
        if r.Ok? {
          var stored := if p in others.stores then others.stores[p] else {};
          others.stores := others.stores[p := stored - {kid}];
        }
      }
      trace := trace + [M.Deleted(p, kid, r)];
    }

    method GenerateKeyOn(p: M.PluginId, algorithm: Algorithm) returns (r: Result<Kid>)
      requires Valid()
      modifies this, android, others
      ensures (Value(), r) == M.GenerateKeyOn(env, old(Value()), p, algorithm)
    {
      hide M.AskGenerate;
      r := AskGenerate(p, algorithm);
      if r.Err? {
        return;
      }
      if r.value in bindings && bindings[r.value] != p {
        trace := trace + [M.Collided(p, r.value)];
        return Err(Plugin);
      }
      bindings := bindings[r.value := p];
    }

    method GenerateKey(algorithm: Algorithm) returns (r: Result<Kid>)
      requires Valid()
      modifies this, android, others
      ensures var p := M.ResolveForGenerate(cfg);
              (Value(), r) == if p.Err? then (old(Value()), Err(p.error)) else M.GenerateKeyOn(env, old(Value()), p.value, algorithm)
    {
      var p :- M.ResolveForGenerate(cfg);
      r := GenerateKeyOn(p, algorithm);
    }

    method SecurityProperties(kid: Kid) returns (r: Result<CertificationLevel>)
      requires Valid()
      modifies this, android, others
      ensures (Value(), r) == M.SecurityProperties(env, cfg, old(Value()), kid)
    {
      hide M.AskLevel;
      var p :- M.ResolveForKey(cfg, bindings, kid, "security_properties");
      r := AskLevel(p, kid);
    }

    method DeleteKey(kid: Kid) returns (r: Result<()>)
      requires Valid()
      modifies this, android, others
      ensures (Value(), r) == M.DeleteKey(env, cfg, old(Value()), kid)
    {
      hide M.AskDelete;
      var p :- M.ResolveForKey(cfg, bindings, kid, "delete");
      r := AskDelete(p, kid);
      if r.Ok? {
        bindings := bindings - {kid};
      }
    }

    method GenerateKeyForLevel(required: CertificationLevel, candidates: seq<M.PluginId>, algorithm: Algorithm)
      returns (r: Result<Kid>)
      requires Valid()
      modifies this, android, others
      ensures (Value(), r) == M.GenerateKeyForLevel(env, cfg, old(Value()), required, candidates, algorithm)
    {
      hide M.GenerateKeyOn, M.SecurityProperties, M.DeleteKey;
      if candidates == [] {
        return Err(NoPlugin);
      }
      var lastErr: Option<WscdError> := None;
      for i := 0 to |candidates|
        invariant M.TryAll(env, cfg, Value(), required, candidates[i..], algorithm, lastErr)
               == M.GenerateKeyForLevel(env, cfg, old(Value()), required, candidates, algorithm)
      {
        assert candidates[i..][0] == candidates[i] && candidates[i..][1..] == candidates[i + 1..];
        if M.GetPlugin(cfg, candidates[i]).Err? {
          lastErr := Some(NoPlugin);
          continue;
        }
        var generated := GenerateKeyOn(candidates[i], algorithm);
        if generated.Err? {
          if M.Stopping(generated.error) {
            return generated;
          }
          lastErr := Some(generated.error);
          continue;
        }
        var achieved := SecurityProperties(generated.value);
        if achieved.Ok? && achieved.value.Rank() >= required.Rank() {
          return generated;
        }
        var shortfall := if achieved.Err? then achieved.error else Unsupported;
        var deleted := DeleteKey(generated.value);
        if deleted.Err? {
          return Err(Plugin);
        }
        lastErr := Some(shortfall);
      }
      r := Err(lastErr.GetOr(NoPlugin));
    }

    method BindKeys(p: M.PluginId, kids: seq<Kid>) returns (r: Result<()>)
      requires Valid()
      modifies this`bindings
      ensures (Value(), r) == M.BindKeys(old(Value()), p, kids)
    {
      for i := 0 to |kids|
        invariant M.BindKeys(Value(), p, kids[i..]) == M.BindKeys(old(Value()), p, kids)
      {
        assert kids[i..][0] == kids[i] && kids[i..][1..] == kids[i + 1..];
        if kids[i] in bindings && bindings[kids[i]] != p {
          return Err(Plugin);
        }
        bindings := bindings[kids[i] := p];
      }
      r := Ok(());
    }
  }
}
