/** Key generation and deletion on an Android Keystore that may persist a key and then report a
    failure, and whose deletions may fail (src/plugins/android_keystore.rs). */
module Keystore {
  import opened Bytes
  import opened Results
  import opened Keys

  /** Aliases are drawn at random; what matters is that each draw is new, so they are numbered. */
  type Alias = nat

  datatype SecurityLevel = StrongBox | TrustedExecution | Software | Unknown {
    function AsCertificationLevel(): CertificationLevel {
      match this
      case StrongBox => AttestedDedicatedHardware
      case TrustedExecution => AttestedSharedEnvironment
      case Software => Unattested
      case Unknown => Unattested
    }
  }

  /** How the device answers a generation: a failed one may have persisted the key all the same. */
  datatype Made = Made(persisted: bool, result: Result<SecurityLevel>)

  /** How it answers a deletion: a failed one may have removed the key all the same. */
  datatype Erased = Erased(removed: bool, result: Result<()>)

  /** The device's answers, one function per kind of call, by the number of calls before it, a
      generation also by whether StrongBox was asked for; and the thumbprint of the key that an
      alias names. */
  datatype Device = Device(
    makes: (nat, bool) -> Made,
    erases: nat -> Erased,
    chains: nat -> Result<seq<bytes>>,
    publicKeys: nat -> Result<()>,
    kidOf: Alias -> Kid)

  /** Two different keys never share a thumbprint. */
  ghost predicate DistinctThumbprints(device: Device) {
    forall a, b | device.kidOf(a) == device.kidOf(b) :: a == b
  }

  datatype StoredKey = StoredKey(alias: Alias, certificates: seq<bytes>, clientDataHash: bytes, level: SecurityLevel)

  /** `live` is what the device holds; `keys` is what the plugin has recorded. */
  datatype State = State(calls: nat, nextAlias: Alias, live: set<Alias>, keys: map<Kid, StoredKey>)

  // ----------------------------------------------------------- device calls

  function Make(device: Device, s: State, alias: Alias, strongBox: bool): (State, Result<SecurityLevel>) {
    var m := device.makes(s.calls, strongBox);
    (s.(calls := s.calls + 1, live := if m.result.Ok? || m.persisted then s.live + {alias} else s.live), m.result)
  }

  /** Deleting an alias that does not exist changes nothing. */
  function Erase(device: Device, s: State, alias: Alias): (State, Result<()>) {
    var e := device.erases(s.calls);
    (s.(calls := s.calls + 1, live := if e.result.Ok? || e.removed then s.live - {alias} else s.live), e.result)
  }

  // -------------------------------------------------------------- the plugin

  function NewAlias(s: State): (State, Alias) {
    (s.(nextAlias := s.nextAlias + 1), s.nextAlias)
  }

  function DeleteAfterFailedGenerate(device: Device, s: State, alias: Alias, original: WscdError): (State, WscdError) {
    var (t, r) := Erase(device, s, alias);
    (t, if r.Ok? then original else UnconfirmedCleanup)
  }

  /** One generation under a new alias, cleaned up after if it fails. */
  function TryGenerate(device: Device, s: State, strongBox: bool): (State, Result<(Alias, SecurityLevel)>) {
    var (drawn, alias) := NewAlias(s);
    match Make(device, drawn, alias, strongBox)
    case (t, Ok(level)) => (t, Ok((alias, level)))
    case (t, Err(e)) =>
      var (u, err) := DeleteAfterFailedGenerate(device, t, alias, e);
      (u, Err(err))
  }

  /** StrongBox first; only when the device has none, and the attempt is cleaned up, the TEE. */
  function BestEffortGenerate(device: Device, s: State): (State, Result<(Alias, SecurityLevel)>) {
    var (t, first) := TryGenerate(device, s, true);
    if first == Err(StrongBoxUnavailable) then TryGenerate(device, t, false) else (t, first)
  }

  function FinishGenerateKey(device: Device, s: State, alias: Alias, level: SecurityLevel, challenge: bytes): (State, Result<Kid>) {
    var certificates := device.chains(s.calls);
    var asked := s.(calls := s.calls + 1);
    if certificates.Err? then (asked, Err(certificates.error))
    else
      var key := device.publicKeys(asked.calls);
      var read := asked.(calls := asked.calls + 1);
      if key.Err? then (read, Err(key.error))
      else
        var kid := device.kidOf(alias);
        (read.(keys := s.keys[kid := StoredKey(alias, certificates.value, challenge, level)]), Ok(kid))
  }

  function GenerateKey(device: Device, s: State, algorithm: Algorithm, challenge: bytes): (State, Result<Kid>) {
    if algorithm != ES256 then (s, Err(Unsupported))
    else if challenge == [] then (s, Err(Plugin))
    else
      match BestEffortGenerate(device, s)
      case (t, Err(e)) => (t, Err(e))
      case (t, Ok((alias, level))) =>
        match FinishGenerateKey(device, t, alias, level, challenge)
        case (u, Ok(kid)) => (u, Ok(kid))
        case (u, Err(e)) =>
          var (v, err) := DeleteAfterFailedGenerate(device, u, alias, e);
          (v, Err(err))
  }

  /** The record goes only once the device has confirmed the deletion. */
  function DeleteKey(device: Device, s: State, kid: Kid): (State, Result<()>) {
    if kid !in s.keys then (s, Err(KeyNotFound))
    else
      var (t, r) := Erase(device, s, s.keys[kid].alias);
      (if r.Ok? then t.(keys := t.keys - {kid}) else t, r)
  }

  /** Without a chain of two certificates nothing is attested, whatever level was reported. */
  function Certification(s: State, kid: Kid): Result<CertificationLevel> {
    if kid !in s.keys then Err(KeyNotFound)
    else if |s.keys[kid].certificates| < 2 then Ok(Unattested)
    else Ok(s.keys[kid].level.AsCertificationLevel())
  }

  // ------------------------------------------------------------- accounting

  /** What the plugin relies on: every alias in play was drawn earlier, and records are filed under
      the thumbprint of the key they name. */
  ghost predicate WellFormed(device: Device, s: State) {
    && (forall a | a in s.live :: a < s.nextAlias)
    && (forall kid | kid in s.keys :: s.keys[kid].alias < s.nextAlias && kid == device.kidOf(s.keys[kid].alias))
  }

  ghost predicate Recorded(s: State, alias: Alias) {
    exists kid :: kid in s.keys && s.keys[kid].alias == alias
  }

  /** Hardware keys nobody can reach any more. */
  ghost function Untracked(s: State): set<Alias> {
    set a | a in s.live && !Recorded(s, a)
  }

  /** The device holds what it held, plus at most `extra`. */
  predicate HoldsUpTo(s: State, t: State, extra: Alias) {
    s.live <= t.live <= s.live + {extra}
  }

  /** One new key is live, and recorded under an identifier that was not in use. */
  predicate Adds(s: State, t: State, alias: Alias, kid: Kid) {
    && s.nextAlias <= alias < t.nextAlias && t.live == s.live + {alias}
    && kid !in s.keys && kid in t.keys && t.keys[kid].alias == alias
    && t.keys == s.keys[kid := t.keys[kid]]
  }

  /** A failed generation under a new alias leaves nothing behind unless it says so. */
  lemma TryGenerateAccounts(device: Device, s: State, strongBox: bool)
    requires WellFormed(device, s)
    ensures var (t, r) := TryGenerate(device, s, strongBox);
            && t.keys == s.keys && t.nextAlias == s.nextAlias + 1
            && HoldsUpTo(s, t, s.nextAlias)
            && (r.Ok? ==> r.value.0 == s.nextAlias && s.nextAlias in t.live)
            && (r.Err? && r.error != UnconfirmedCleanup ==> t.live == s.live)
  {
  }

  /** A key is made exactly when StrongBox makes it, or the device has no StrongBox, the attempt was
      cleaned up and the TEE makes it; the level is what the device confirmed for that attempt. */
  lemma BestEffortExactly(device: Device, s: State)
    ensures var first, second := device.makes(s.calls, true).result, device.makes(s.calls + 2, false).result;
            var fallsBack := first == Err(StrongBoxUnavailable) && device.erases(s.calls + 1).result.Ok?;
            var r := BestEffortGenerate(device, s).1;
            && (r.Ok? <==> first.Ok? || (fallsBack && second.Ok?))
            && (first.Ok? ==> r == Ok((s.nextAlias, first.value)))
            && (fallsBack && second.Ok? ==> r == Ok((s.nextAlias + 1, second.value)))
            && (first.Err? && device.erases(s.calls + 1).result.Err? ==> r == Err(UnconfirmedCleanup))
  {
    var (t, first) := TryGenerate(device, s, true);
    assert first.Err? ==> t.calls == s.calls + 2 && t.nextAlias == s.nextAlias + 1;
  }

  /** The accounting of a whole generation. A success adds one live key and its record under a
      thumbprint not recorded before. A failure changes no record, and leaves the device as it was
      unless it is `UnconfirmedCleanup`, which leaves at most one key behind. */
  lemma GenerateKeyAccounts(device: Device, s: State, algorithm: Algorithm, challenge: bytes)
    requires WellFormed(device, s) && DistinctThumbprints(device)
    ensures var (t, r) := GenerateKey(device, s, algorithm, challenge);
            && WellFormed(device, t)
            && t.nextAlias <= s.nextAlias + 2
            && (r.Ok? ==> exists a :: Adds(s, t, a, r.value) && r.value == device.kidOf(a))
            && (r.Err? ==> t.keys == s.keys && exists a :: s.nextAlias <= a && HoldsUpTo(s, t, a))
            && (r.Err? && r.error != UnconfirmedCleanup ==> t.live == s.live)
  {
    hide BestEffortGenerate, FinishGenerateKey, WellFormed, HoldsUpTo, DistinctThumbprints;
    assert HoldsUpTo(s, s, s.nextAlias) by { NothingDone(s); }
    if algorithm == ES256 && challenge != [] {
      BestEffortAccounts(device, s);
      var (u, made) := BestEffortGenerate(device, s);
      if made.Ok? {
        FinishAccounts(device, s, u, made.value.0, made.value.1, challenge);
      }
    }
  }

  lemma NothingDone(s: State)
    ensures HoldsUpTo(s, s, s.nextAlias)
  {
  }

  /** The same of the attempts alone: a success leaves one live key under a new alias. */
  lemma BestEffortAccounts(device: Device, s: State)
    requires WellFormed(device, s)
    ensures var (t, r) := BestEffortGenerate(device, s);
            && WellFormed(device, t) && t.keys == s.keys && t.nextAlias <= s.nextAlias + 2
            && (r.Ok? ==> s.nextAlias <= r.value.0 < t.nextAlias && t.live == s.live + {r.value.0})
            && (r.Err? ==> exists a :: s.nextAlias <= a && HoldsUpTo(s, t, a))
            && (r.Err? && r.error != UnconfirmedCleanup ==> t.live == s.live)
  {
    hide TryGenerate;
    TryGenerateAccounts(device, s, true);
    var (t, first) := TryGenerate(device, s, true);
    if first == Err(StrongBoxUnavailable) {
      TryGenerateAccounts(device, t, false);
      assert HoldsUpTo(s, TryGenerate(device, t, false).0, s.nextAlias + 1);
    }
  }

  /** Recording the key of a live alias, or cleaning it up. */
  lemma FinishAccounts(device: Device, s: State, u: State, alias: Alias, level: SecurityLevel, challenge: bytes)
    requires WellFormed(device, s) && WellFormed(device, u) && DistinctThumbprints(device)
    requires u.keys == s.keys && s.nextAlias <= alias < u.nextAlias && u.live == s.live + {alias}
    ensures var (v, r) := FinishGenerateKey(device, u, alias, level, challenge);
            && (r.Ok? ==> WellFormed(device, v) && Adds(s, v, alias, r.value) && r.value == device.kidOf(alias))
            && v.nextAlias == u.nextAlias
            && (r.Err? ==>
                  var (w, e) := DeleteAfterFailedGenerate(device, v, alias, r.error);
                  && WellFormed(device, w) && w.keys == s.keys && w.nextAlias == u.nextAlias && HoldsUpTo(s, w, alias)
                  && (e != UnconfirmedCleanup ==> w.live == s.live))
  {
  }

  /** What is refused reaches no device; what is made is recorded under its own alias, with the chain
      that was read, the challenge it was made with, and the level that was confirmed. */
  lemma GeneratedRecord(device: Device, s: State, algorithm: Algorithm, challenge: bytes)
    ensures algorithm != ES256 ==> GenerateKey(device, s, algorithm, challenge) == (s, Err(Unsupported))
    ensures algorithm == ES256 && challenge == [] ==> GenerateKey(device, s, algorithm, challenge) == (s, Err(Plugin))
    ensures var (t, r) := GenerateKey(device, s, algorithm, challenge);
            r.Ok? ==>
              var (made, attempt) := BestEffortGenerate(device, s);
              && attempt.Ok? && device.chains(made.calls).Ok? && r.value == device.kidOf(attempt.value.0)
              && r.value in t.keys
              && t.keys[r.value] == StoredKey(attempt.value.0, device.chains(made.calls).value, challenge, attempt.value.1)
  {
    hide BestEffortGenerate;
  }

  /** A new key counts as attested exactly when its chain has two certificates and the device
      confirmed, for the very attempt that made it, that it landed in StrongBox or the TEE; and then
      at that level. */
  lemma GeneratedKeyIsCertifiedAsConfirmed(device: Device, s: State, algorithm: Algorithm, challenge: bytes)
    requires WellFormed(device, s) && DistinctThumbprints(device)
    requires GenerateKey(device, s, algorithm, challenge).1.Ok?
    ensures var (t, r) := GenerateKey(device, s, algorithm, challenge);
            var (made, attempt) := BestEffortGenerate(device, s);
            var chain := device.chains(made.calls);
            var certified := Certification(t, r.value);
            && attempt.Ok? && chain.Ok? && certified.Ok?
            && (certified.value != Unattested <==> |chain.value| >= 2 && attempt.value.1 in {StrongBox, TrustedExecution})
            && (certified.value == AttestedDedicatedHardware ==> attempt.value.1 == StrongBox)
            && (certified.value == AttestedSharedEnvironment ==> attempt.value.1 == TrustedExecution)
  {
    hide BestEffortGenerate, WellFormed, DistinctThumbprints;
  }

  /** Deleting never loses track of a key: its record goes only together with the key. */
  lemma DeleteKeyAccounts(device: Device, s: State, kid: Kid)
    requires WellFormed(device, s)
    ensures var (t, r) := DeleteKey(device, s, kid);
            && WellFormed(device, t) && t.nextAlias == s.nextAlias
            && Untracked(t) <= Untracked(s)
            && (r.Ok? ==> kid in s.keys && t.keys == s.keys - {kid} && s.keys[kid].alias !in t.live)
            && (r.Err? ==> t.keys == s.keys)
            && (forall k | k in s.keys && k != kid ::
                  k in t.keys && t.keys[k] == s.keys[k] && (s.keys[k].alias in s.live ==> s.keys[k].alias in t.live))
  {
    var (t, r) := DeleteKey(device, s, kid);
    forall a | a in t.live && Recorded(s, a) ensures Recorded(t, a) {
      var k :| k in s.keys && s.keys[k].alias == a;
      assert k in t.keys && t.keys[k].alias == a;
    }
  }

  /** One generation adds at most one untracked key, and none unless it says so. */
  lemma GenerateKeyTracks(device: Device, s: State, algorithm: Algorithm, challenge: bytes)
    requires WellFormed(device, s) && DistinctThumbprints(device)
    ensures var (t, r) := GenerateKey(device, s, algorithm, challenge);
            && (r != Err(UnconfirmedCleanup) ==> Untracked(t) == Untracked(s))
            && |Untracked(t)| <= |Untracked(s)| + if r == Err(UnconfirmedCleanup) then 1 else 0
  {
    hide GenerateKey;
    GenerateKeyAccounts(device, s, algorithm, challenge);
    var (t, r) := GenerateKey(device, s, algorithm, challenge);
    if r.Ok? {
      var a :| Adds(s, t, a, r.value);
      assert Recorded(t, a);
      forall b | b != a ensures Recorded(t, b) <==> Recorded(s, b) {
        if Recorded(s, b) {
          var k :| k in s.keys && s.keys[k].alias == b;
          assert k in t.keys && t.keys[k].alias == b;
        }
      }
      assert Untracked(t) == Untracked(s);
    } else {
      var a :| s.nextAlias <= a && HoldsUpTo(s, t, a);
      assert forall b :: Recorded(t, b) <==> Recorded(s, b);
      assert Untracked(s) <= Untracked(t) <= Untracked(s) + {a};
      AtMostOneMore(Untracked(s), Untracked(t), a);
      assert r.error != UnconfirmedCleanup ==> Untracked(t) == Untracked(s);
    }
  }

  lemma AtMostOneMore(s: set<Alias>, t: set<Alias>, a: Alias)
    requires s <= t <= s + {a}
    ensures |t| <= |s| + 1
  {
    if a in t && a !in s {
      assert t == s + {a};
    } else {
      assert t == s;
    }
  }
}

/** The plugin object itself, and the device whose keys it holds. */
module AndroidKeystore {
  import opened Bytes
  import opened Results
  import opened Keys
  import K = Keystore

  class AndroidKeystorePlugin {
    const device: K.Device
    var calls: nat
    var nextAlias: K.Alias
    ghost var live: set<K.Alias>
    var keys: map<Kid, K.StoredKey>

    ghost function Value(): K.State
      reads this
    {
      K.State(calls, nextAlias, live, keys)
    }

    constructor (device: K.Device)
      ensures this.device == device && Value() == K.State(0, 0, {}, map[])
    {
      this.device := device;
      calls, nextAlias, live, keys := 0, 0, {}, map[];
    }

    method Make(alias: K.Alias, strongBox: bool) returns (r: Result<K.SecurityLevel>)
      modifies this
      ensures (Value(), r) == K.Make(device, old(Value()), alias, strongBox)
    {
      var m := device.makes(calls, strongBox);
      calls := calls + 1;
      if m.result.Ok? || m.persisted {
        live := live + {alias};
      }
      r := m.result;
    }

    method Erase(alias: K.Alias) returns (r: Result<()>)
      modifies this
      ensures (Value(), r) == K.Erase(device, old(Value()), alias)
    {
      var e := device.erases(calls);
      calls := calls + 1;
      if e.result.Ok? || e.removed {
        live := live - {alias};
      }
      r := e.result;
    }

    method NewAlias() returns (alias: K.Alias)
      modifies this
      ensures (Value(), alias) == K.NewAlias(old(Value()))
    {
      alias := nextAlias;
      nextAlias := nextAlias + 1;
    }

    method DeleteAfterFailedGenerate(alias: K.Alias, original: WscdError) returns (e: WscdError)
      modifies this
      ensures (Value(), e) == K.DeleteAfterFailedGenerate(device, old(Value()), alias, original)
    {
      var r := Erase(alias);
      e := if r.Ok? then original else UnconfirmedCleanup;
    }

    method BestEffortGenerate() returns (r: Result<(K.Alias, K.SecurityLevel)>)
      modifies this
      ensures (Value(), r) == K.BestEffortGenerate(device, old(Value()))
    {
      var alias := NewAlias();
      var made := Make(alias, true);
      if made.Ok? {
        return Ok((alias, made.value));
      }
      if made.error != StrongBoxUnavailable {
        var e := DeleteAfterFailedGenerate(alias, made.error);
        return Err(e);
      }
      var cleaned := Erase(alias);
      if cleaned.Err? {
        return Err(UnconfirmedCleanup);
      }
      var teeAlias := NewAlias();
      var tee := Make(teeAlias, false);
      if tee.Ok? {
        return Ok((teeAlias, tee.value));
      }
      var e := DeleteAfterFailedGenerate(teeAlias, tee.error);
      r := Err(e);
    }

    method FinishGenerateKey(alias: K.Alias, level: K.SecurityLevel, challenge: bytes) returns (r: Result<Kid>)
      modifies this
      ensures (Value(), r) == K.FinishGenerateKey(device, old(Value()), alias, level, challenge)
    {
      var certificates := device.chains(calls);
      calls := calls + 1;
      if certificates.Err? {
        return Err(certificates.error);
      }
      var key := device.publicKeys(calls);
      calls := calls + 1;
      if key.Err? {
        return Err(key.error);
      }
      var kid := device.kidOf(alias);
      keys := keys[kid := K.StoredKey(alias, certificates.value, challenge, level)];
      r := Ok(kid);
    }

    method GenerateKeyWithChallenge(algorithm: Algorithm, challenge: bytes) returns (r: Result<Kid>)
      modifies this
      ensures (Value(), r) == K.GenerateKey(device, old(Value()), algorithm, challenge)
    {
      hide K.BestEffortGenerate, K.FinishGenerateKey, K.DeleteAfterFailedGenerate;
      if algorithm != ES256 {
        return Err(Unsupported);
      }
      if challenge == [] {
        return Err(Plugin);
      }
      var made := BestEffortGenerate();
      if made.Err? {
        return Err(made.error);
      }
      var (alias, level) := made.value;
      r := FinishGenerateKey(alias, level, challenge);
      if r.Err? {
        var e := DeleteAfterFailedGenerate(alias, r.error);
        r := Err(e);
      }
    }

    method DeleteKey(kid: Kid) returns (r: Result<()>)
      modifies this
      ensures (Value(), r) == K.DeleteKey(device, old(Value()), kid)
    {
      if kid !in keys {
        return Err(KeyNotFound);
      }
      r := Erase(keys[kid].alias);
      if r.Ok? {
        keys := keys - {kid};
      }
    }

    method Certification(kid: Kid) returns (r: Result<CertificationLevel>)
      ensures r == K.Certification(Value(), kid)
      ensures r.Err? <==> kid !in keys
      ensures r.Ok? && r.value != Unattested ==>
                |keys[kid].certificates| >= 2 && r.value == keys[kid].level.AsCertificationLevel()
    {
      if kid !in keys {
        return Err(KeyNotFound);
      }
      if |keys[kid].certificates| < 2 {
        return Ok(Unattested);
      }
      r := Ok(keys[kid].level.AsCertificationLevel());
    }
  }
}
