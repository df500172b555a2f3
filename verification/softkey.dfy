/** The in-memory software key store with its lifecycle contexts (src/plugins/softkey.rs). */
module Softkey {
  import opened Bytes
  import opened Results
  import opened Keys
  import opened Lifecycle

  datatype StoredKey = StoredKey(kid: Kid, algorithm: Algorithm, d: bytes, createdAt: int)

  /** What the random source yields for one generation: a private key and its public key's thumbprint. */
  datatype Drawn = Drawn(kid: Kid, d: bytes)

  datatype State = State(keys: map<Kid, StoredKey>, lifecycle: Contexts)

  /** A container by the two shapes its JSON can have; the field `lifecycle` may be missing. */
  datatype Container =
    | Exported(keys: seq<StoredKey>, lifecycle: Option<Contexts>)
    | BareArray(keys: seq<StoredKey>)
    | Malformed

  // ------------------------------------------------------------- operations

  function Generate(s: State, algorithm: Algorithm, drawn: Drawn, now: int): (State, Result<Kid>) {
    if algorithm.Bls12381G1Schnorr? then (s, Err(Unsupported))
    else (s.(keys := s.keys[drawn.kid := StoredKey(drawn.kid, algorithm, drawn.d, now)]), Ok(drawn.kid))
  }

  function Register(s: State, id: ContextId, factorKind: FactorKind, drawn: Drawn, now: int): State {
    var (generated, _) := Generate(s, ES256, drawn, now);
    var (contexts, stale) := RegisterContext(s.lifecycle, id, factorKind, drawn.kid, now);
    State(Without(generated.keys, stale), contexts)
  }

  function Activate(s: State, id: ContextId, now: int): (State, Result<()>) {
    var (contexts, r) := ActivateContext(s.lifecycle, id, now);
    (s.(lifecycle := contexts), r)
  }

  /** The new key is stored before the context is looked up. */
  function Rotate(s: State, id: ContextId, drawn: Drawn, now: int): (State, Result<LifecycleState>) {
    var (generated, _) := Generate(s, ES256, drawn, now);
    var (contexts, r) := RotatePushKey(s.lifecycle, id, drawn.kid, now);
    (generated.(lifecycle := contexts),
     if r.Ok? then Ok(contexts[id].state) else Err(r.error))
  }

  function Destroy(s: State, id: ContextId, now: int): (State, Result<()>) {
    if id !in s.lifecycle then (s, Err(KeyNotFound))
    else
      var ctx := s.lifecycle[id];
      (State(Without(s.keys, ctx.keyIds),
             s.lifecycle[id := ctx.(state := Destroyed, updatedAt := now, keyIds := [])]),
       Ok(()))
  }

  function Delete(s: State, kid: Kid): (State, Result<()>) {
    if kid in s.keys then (s.(keys := Without(s.keys, [kid])), Ok(())) else (s, Err(KeyNotFound))
  }

  /** Later records win, as they do when they are inserted one after the other. */
  function Keyed(listed: seq<StoredKey>): map<Kid, StoredKey> {
    if listed == [] then map[]
    else
      var last := listed[|listed| - 1];
      Keyed(listed[..|listed| - 1])[last.kid := last]
  }

  function Restore(container: Container): Result<State> {
    match container
    case Exported(keys, lifecycle) => Ok(State(Keyed(keys), lifecycle.GetOr(map[])))
    case BareArray(keys) => Ok(State(Keyed(keys), map[]))
    case Malformed => Err(Serialization)
  }

  /** The keys in the order in which the hash map happens to be walked. */
  function Export(s: State, order: seq<Kid>): Container
    requires IterationOrder(s.keys, order)
  {
    Exported(ValuesIn(s.keys, order), Some(s.lifecycle))
  }

  // ---------------------------------------------------------------- plugin

  class SoftkeyPlugin {
    var keys: map<Kid, StoredKey>
    var lifecycle: Contexts

    function Value(): State
      reads this
    {
      State(keys, lifecycle)
    }

    constructor ()
      ensures Value() == State(map[], map[])
    {
      keys, lifecycle := map[], map[];
    }

    constructor Of(keys: map<Kid, StoredKey>, lifecycle: Contexts)
      ensures Value() == State(keys, lifecycle)
    {
      this.keys, this.lifecycle := keys, lifecycle;
    }

    static method FromContainer(container: Container) returns (r: Result<SoftkeyPlugin>)
      ensures r.Ok? <==> Restore(container).Ok?
      ensures r.Ok? ==> fresh(r.value) && r.value.Value() == Restore(container).value
      ensures r.Err? ==> r.error == Restore(container).error
    {
      var listed: seq<StoredKey>;
      var contexts: Contexts := map[];
      match container {
        case Exported(ks, lc) => listed, contexts := ks, lc.GetOr(map[]);
        case BareArray(ks) => listed := ks;
        case Malformed => return Err(Serialization);
      }
      var keys: map<Kid, StoredKey> := map[];
      for i := 0 to |listed|
        invariant keys == Keyed(listed[..i])
      {
        assert listed[..i + 1][..i] == listed[..i];
        keys := keys[listed[i].kid := listed[i]];
      }
      assert listed[..|listed|] == listed;
      var plugin := new SoftkeyPlugin.Of(keys, contexts);
      r := Ok(plugin);
    }

    method ExportContainer(order: seq<Kid>) returns (c: Container)
      requires IterationOrder(keys, order)
      ensures c == Export(Value(), order)
      ensures (forall k | k in keys :: keys[k].kid == k) ==> Restore(c) == Ok(Value())
    {
      c := Exported(ValuesIn(keys, order), Some(lifecycle));
      if forall k | k in keys :: keys[k].kid == k {
        RestoreUndoesExport(Value(), order);
      }
    }

    method GenerateKey(algorithm: Algorithm, drawn: Drawn, now: int) returns (r: Result<Kid>)
      modifies this
      ensures (Value(), r) == Generate(old(Value()), algorithm, drawn, now)
    {
      if algorithm.Bls12381G1Schnorr? {
        return Err(Unsupported);
      }
      keys := keys[drawn.kid := StoredKey(drawn.kid, algorithm, drawn.d, now)];
      r := Ok(drawn.kid);
    }

    method DeleteKey(kid: Kid) returns (r: Result<()>)
      modifies this
      ensures (Value(), r) == Delete(old(Value()), kid)
    {
      if kid !in keys {
        return Err(KeyNotFound);
      }
      RemoveKeys([kid]);
      r := Ok(());
    }

    method RemoveKeys(kids: seq<Kid>)
      modifies this`keys
      ensures keys == Without(old(keys), kids)
    {
      for i := 0 to |kids|
        invariant keys == Without(old(keys), kids[..i])
      {
        assert kids[..i + 1] == kids[..i] + [kids[i]];
        keys := keys - {kids[i]};
      }
      assert kids[..|kids|] == kids;
    }

    /** Re-registering a context first removes the keys it held. */
    method RegisterLifecycle(id: ContextId, factorKind: FactorKind, drawn: Drawn, now: int)
      modifies this
      ensures Value() == Register(old(Value()), id, factorKind, drawn, now)
    {
      var _ := GenerateKey(ES256, drawn, now);
      if id in lifecycle {
        RemoveKeys(lifecycle[id].keyIds);
      } else {
        assert keys == Without(keys, []);
      }
      lifecycle := lifecycle[id := Context(factorKind, Registered, now, [drawn.kid])];
    }

    method ActivateLifecycle(id: ContextId, now: int) returns (r: Result<()>)
      modifies this
      ensures (Value(), r) == Activate(old(Value()), id, now)
    {
      if id !in lifecycle {
        return Err(KeyNotFound);
      }
      lifecycle := lifecycle[id := lifecycle[id].(state := Active, updatedAt := now)];
      r := Ok(());
    }

    method RotateLifecycle(id: ContextId, drawn: Drawn, now: int) returns (r: Result<LifecycleState>)
      modifies this
      ensures (Value(), r) == Rotate(old(Value()), id, drawn, now)
    {
      var _ := GenerateKey(ES256, drawn, now);
      if id !in lifecycle {
        return Err(KeyNotFound);
      }
      var ctx := lifecycle[id];
      lifecycle := lifecycle[id := ctx.(keyIds := ctx.keyIds + [drawn.kid], updatedAt := now)];
      r := Ok(ctx.state);
    }

    method DestroyLifecycle(id: ContextId, now: int) returns (r: Result<()>)
      modifies this
      ensures (Value(), r) == Destroy(old(Value()), id, now)
    {
      if id !in lifecycle {
        return Err(KeyNotFound);
      }
      RemoveKeys(lifecycle[id].keyIds);
      lifecycle := lifecycle[id := lifecycle[id].(state := Destroyed, updatedAt := now, keyIds := [])];
      r := Ok(());
    }
  }

  // ------------------------------------------------------ export and restore

  lemma {:induction false} KeyedHolds(listed: seq<StoredKey>, k: Kid)
    ensures k in Keyed(listed) <==> exists x :: x in listed && x.kid == k
    ensures k in Keyed(listed) ==> Keyed(listed)[k] in listed && Keyed(listed)[k].kid == k
  {
    if listed != [] {
      var n := |listed| - 1;
      KeyedHolds(listed[..n], k);
      assert listed == listed[..n] + [listed[n]];
    }
  }

  /** A store each of whose keys is filed under its own identifier survives export and restore,
      contexts included, in whatever order its keys were listed. */
  lemma RestoreUndoesExport(s: State, order: seq<Kid>)
    requires forall k | k in s.keys :: s.keys[k].kid == k
    requires IterationOrder(s.keys, order)
    ensures Restore(Export(s, order)) == Ok(s)
  {
    var listed := ValuesIn(s.keys, order);
    forall k ensures k in Keyed(listed) <==> k in s.keys
             ensures k in s.keys ==> Keyed(listed)[k] == s.keys[k]
    {
      KeyedHolds(listed, k);
      if k in s.keys {
        var i :| 0 <= i < |order| && order[i] == k;
        assert listed[i] == s.keys[k];
      }
    }
    assert Keyed(listed) == s.keys;
  }

  /** Of several records for one identifier the last listed is the one restored. */
  lemma {:induction false} LastRecordWins(listed: seq<StoredKey>, i: nat)
    requires i < |listed| && forall j | i < j < |listed| :: listed[j].kid != listed[i].kid
    ensures listed[i].kid in Keyed(listed) && Keyed(listed)[listed[i].kid] == listed[i]
  {
    if i < |listed| - 1 {
      LastRecordWins(listed[..|listed| - 1], i);
    }
  }

  /** Contexts come from the newer shape alone, and only when it has them. */
  lemma RestoredContexts(container: Container)
    ensures Restore(container).Err? <==> container.Malformed?
    ensures container.Malformed? ==> Restore(container) == Err(Serialization)
    ensures container.BareArray? ==> Restore(container).value.lifecycle == map[]
    ensures container.Exported? ==>
              Restore(container).value.lifecycle == if container.lifecycle.Some? then container.lifecycle.value else map[]
  {
  }

  // ------------------------------------------------------ what calls leave

  /** Every context but one is as it was. */
  predicate OthersKept(before: Contexts, after: Contexts, id: ContextId) {
    && (forall other | other in before && other != id :: other in after && after[other] == before[other])
    && (forall other | other in after && other != id :: other in before)
  }

  /** A key drawn for a context is an ES256 key with the drawn secret, whatever becomes of the call. */
  predicate HoldsDrawn(t: State, drawn: Drawn, now: int) {
    drawn.kid in t.keys && t.keys[drawn.kid] == StoredKey(drawn.kid, ES256, drawn.d, now)
  }

  /** Direct generation and deletion touch one key and no context. */
  lemma GenerateLeaves(s: State, algorithm: Algorithm, drawn: Drawn, now: int)
    ensures var (t, r) := Generate(s, algorithm, drawn, now);
            && t.lifecycle == s.lifecycle
            && (algorithm == Bls12381G1Schnorr ==> r == Err(Unsupported) && t == s)
            && (algorithm != Bls12381G1Schnorr ==>
                  && r == Ok(drawn.kid) && drawn.kid in t.keys && t.keys[drawn.kid] == StoredKey(drawn.kid, algorithm, drawn.d, now)
                  && (forall k | k != drawn.kid :: (k in t.keys <==> k in s.keys) && (k in s.keys ==> t.keys[k] == s.keys[k])))
  {
  }

  lemma DeleteLeaves(s: State, kid: Kid)
    ensures var (t, r) := Delete(s, kid);
            && t.lifecycle == s.lifecycle && (r.Ok? <==> kid in s.keys) && (r.Err? ==> r.error == KeyNotFound)
            && kid !in t.keys
            && (forall k | k != kid :: (k in t.keys <==> k in s.keys) && (k in s.keys ==> t.keys[k] == s.keys[k]))
  {
  }

  lemma RegisterLeaves(s: State, id: ContextId, factorKind: FactorKind, drawn: Drawn, now: int)
    requires !Owns(s.lifecycle, id, drawn.kid)
    ensures var t := Register(s, id, factorKind, drawn, now);
            && HoldsDrawn(t, drawn, now)
            && id in t.lifecycle && t.lifecycle[id] == Context(factorKind, Registered, now, [drawn.kid])
            && OthersKept(s.lifecycle, t.lifecycle, id)
  {
  }

  lemma ActivateLeaves(s: State, id: ContextId, now: int)
    ensures var (t, r) := Activate(s, id, now);
            && t.keys == s.keys && OthersKept(s.lifecycle, t.lifecycle, id)
            && (id in s.lifecycle ==>
                  && r.Ok? && id in t.lifecycle && t.lifecycle[id].state == Active && t.lifecycle[id].updatedAt == now
                  && t.lifecycle[id].keyIds == s.lifecycle[id].keyIds && t.lifecycle[id].factorKind == s.lifecycle[id].factorKind)
            && (id !in s.lifecycle ==> r == Err(KeyNotFound) && t == s)
  {
  }

  /** Rotation adds a key and leaves the context in the state it was in; it stores the key even for
      a context that is not there. */
  lemma RotateLeaves(s: State, id: ContextId, drawn: Drawn, now: int)
    ensures var (t, r) := Rotate(s, id, drawn, now);
            && HoldsDrawn(t, drawn, now) && OthersKept(s.lifecycle, t.lifecycle, id)
            && (id in s.lifecycle ==>
                  && r == Ok(s.lifecycle[id].state) && id in t.lifecycle
                  && t.lifecycle[id] == Context(s.lifecycle[id].factorKind, s.lifecycle[id].state, now, s.lifecycle[id].keyIds + [drawn.kid]))
            && (id !in s.lifecycle ==> r == Err(KeyNotFound) && t.lifecycle == s.lifecycle)
  {
  }

  lemma DestroyLeaves(s: State, id: ContextId, now: int)
    ensures var (t, r) := Destroy(s, id, now);
            && OthersKept(s.lifecycle, t.lifecycle, id)
            && (id in s.lifecycle ==>
                  r.Ok? && id in t.lifecycle && t.lifecycle[id] == Context(s.lifecycle[id].factorKind, Destroyed, now, []))
            && (id !in s.lifecycle ==> r == Err(KeyNotFound) && t == s)
  {
  }

  // --------------------------------------------------- ownership over runs

  datatype Op =
    | DoGenerate(algorithm: Algorithm, drawn: Drawn, now: int)
    | DoImport(algorithm: Algorithm, drawn: Drawn, now: int)
    | DoRegister(id: ContextId, factorKind: FactorKind, drawn: Drawn, now: int)
    | DoActivate(id: ContextId, now: int)
    | DoRotate(id: ContextId, drawn: Drawn, now: int)
    | DoDestroy(id: ContextId, now: int)
    | DoDelete(kid: Kid)
    | DoRestart(order: seq<Kid>)

  /** A restart exports the store and restores it in a new process. */
  function Step(s: State, op: Op): State {
    match op
    case DoGenerate(algorithm, drawn, now) => Generate(s, algorithm, drawn, now).0
    case DoImport(algorithm, drawn, now) => Generate(s, algorithm, drawn, now).0
    case DoRegister(id, factorKind, drawn, now) => Register(s, id, factorKind, drawn, now)
    case DoActivate(id, now) => Activate(s, id, now).0
    case DoRotate(id, drawn, now) => Rotate(s, id, drawn, now).0
    case DoDestroy(id, now) => Destroy(s, id, now).0
    case DoDelete(kid) => Delete(s, kid).0
    case DoRestart(order) => if IterationOrder(s.keys, order) then Restore(Export(s, order)).value else s
  }

  /** What happened so far: every identifier drawn, those stored without a context (generated or
      imported directly, or drawn by rotating an unknown context), and those deleted directly. */
  datatype History = History(issued: set<Kid>, unowned: set<Kid>, deleted: set<Kid>)

  function Note(h: History, s: State, op: Op): History {
    match op
    case DoGenerate(algorithm, drawn, _) =>
      if algorithm.Bls12381G1Schnorr? then h else History(h.issued + {drawn.kid}, h.unowned + {drawn.kid}, h.deleted)
    case DoImport(algorithm, drawn, _) =>
      if algorithm.Bls12381G1Schnorr? then h else History(h.issued + {drawn.kid}, h.unowned + {drawn.kid}, h.deleted)
    case DoRegister(_, _, drawn, _) => h.(issued := h.issued + {drawn.kid})
    case DoRotate(id, drawn, _) =>
      History(h.issued + {drawn.kid}, if id in s.lifecycle then h.unowned else h.unowned + {drawn.kid}, h.deleted)
    case DoDelete(kid) => if kid in s.keys then h.(deleted := h.deleted + {kid}) else h
    case _ => h
  }

  /** Identifiers are thumbprints of fresh keys, so a new one names nothing seen before; a
      restart walks the stored keys. */
  predicate Possible(s: State, h: History, op: Op) {
    match op
    case DoGenerate(_, drawn, _) => drawn.kid !in h.issued
    case DoImport(_, drawn, _) => drawn.kid !in h.issued
    case DoRegister(_, _, drawn, _) => drawn.kid !in h.issued
    case DoRotate(_, drawn, _) => drawn.kid !in h.issued
    case DoRestart(order) => IterationOrder(s.keys, order)
    case _ => true
  }

  /** Contexts share no key, and the store is exactly the owned and the unowned keys less those
      that were deleted directly. */
  ghost predicate Conserved(s: State, h: History) {
    && OwnedOnce(s.lifecycle)
    && (forall kid | Owned(s.lifecycle, kid) :: kid in h.issued && kid !in h.unowned)
    && h.unowned <= h.issued && h.deleted <= h.issued
    && (forall kid :: kid in s.keys <==> (Owned(s.lifecycle, kid) || kid in h.unowned) && kid !in h.deleted)
    && (forall kid | kid in s.keys :: s.keys[kid].kid == kid)
  }

  /** The state and history after a run; `None` when an identifier was not fresh. */
  function Run(ops: seq<Op>): Option<(State, History)> {
    if ops == [] then Some((State(map[], map[]), History({}, {}, {})))
    else
      var op := ops[|ops| - 1];
      match Run(ops[..|ops| - 1])
      case None => None
      case Some((s, h)) => if Possible(s, h, op) then Some((Step(s, op), Note(h, s, op))) else None
  }

  lemma StepConserves(s: State, h: History, op: Op)
    requires Conserved(s, h) && Possible(s, h, op)
    ensures Conserved(Step(s, op), Note(h, s, op))
  {
    var t := Step(s, op);
    match op
    case DoRegister(id, factorKind, drawn, now) => RegisterConserves(s, h, id, factorKind, drawn, now);
    case DoRotate(id, drawn, now) => RotateConserves(s, h, id, drawn, now);
    case DoDestroy(id, now) => DestroyConserves(s, h, id, now);
    case DoActivate(id, now) =>
      SameLists(s.lifecycle, t.lifecycle);
    case DoRestart(order) => RestoreUndoesExport(s, order);
    case _ =>
  }

  lemma RegisterConserves(s: State, h: History, id: ContextId, factorKind: FactorKind, drawn: Drawn, now: int)
    requires Conserved(s, h) && drawn.kid !in h.issued
    ensures Conserved(Register(s, id, factorKind, drawn, now), h.(issued := h.issued + {drawn.kid}))
  {
    assert !Owned(s.lifecycle, drawn.kid);
    ReplacedList(s.lifecycle, id, Context(factorKind, Registered, now, [drawn.kid]));
    assert forall kid :: Owns(s.lifecycle, id, kid) ==> Owned(s.lifecycle, kid);
  }

  lemma RotateConserves(s: State, h: History, id: ContextId, drawn: Drawn, now: int)
    requires Conserved(s, h) && drawn.kid !in h.issued
    ensures Conserved(Rotate(s, id, drawn, now).0, Note(h, s, DoRotate(id, drawn, now)))
  {
    assert !Owned(s.lifecycle, drawn.kid);
    if id in s.lifecycle {
      var ctx := s.lifecycle[id];
      var grown := ctx.(keyIds := ctx.keyIds + [drawn.kid], updatedAt := now);
      assert forall kid :: Owns(s.lifecycle, id, kid) ==> Owned(s.lifecycle, kid);
      assert forall kid | kid in ctx.keyIds :: Owns(s.lifecycle, id, kid);
      ReplacedList(s.lifecycle, id, grown);
    }
  }

  lemma DestroyConserves(s: State, h: History, id: ContextId, now: int)
    requires Conserved(s, h)
    ensures Conserved(Destroy(s, id, now).0, h)
  {
    if id in s.lifecycle {
      ReplacedList(s.lifecycle, id, s.lifecycle[id].(state := Destroyed, updatedAt := now, keyIds := []));
      assert forall kid :: Owns(s.lifecycle, id, kid) ==> Owned(s.lifecycle, kid);
    }
  }

  /** Every run conserves ownership. */
  lemma {:induction false} EveryRunConserves(ops: seq<Op>)
    requires Run(ops).Some?
    ensures Conserved(Run(ops).value.0, Run(ops).value.1)
  {
    if ops != [] {
      var n := |ops| - 1;
      EveryRunConserves(ops[..n]);
      var (s, h) := Run(ops[..n]).value;
      StepConserves(s, h, ops[n]);
    }
  }

  /** After any run, destroying a context removes its keys and nothing else: every key of another
      context, and every unowned key, is still stored as it was. */
  lemma DestroyRemovesExactlyItsOwn(ops: seq<Op>, id: ContextId, now: int)
    requires Run(ops).Some? && id in Run(ops).value.0.lifecycle
    ensures var (s, h) := Run(ops).value;
            var t := Destroy(s, id, now).0;
            && (forall kid :: kid in t.keys <==> kid in s.keys && kid !in s.lifecycle[id].keyIds)
            && (forall kid | kid in t.keys :: t.keys[kid] == s.keys[kid])
            && (forall other, kid | other != id && Owns(s.lifecycle, other, kid) && kid in s.keys ::
                  kid in t.keys && Owns(t.lifecycle, other, kid))
            && (forall kid | kid in h.unowned && kid in s.keys :: kid in t.keys)
  {
    hide Run;
    EveryRunConserves(ops);
    var (s, h) := Run(ops).value;
    forall kid | kid in s.lifecycle[id].keyIds ensures Owns(s.lifecycle, id, kid) && Owned(s.lifecycle, kid) {
      assert Owns(s.lifecycle, id, kid);
    }
  }

  /** Registering a context again leaves it with the new key alone and leaks none of the old ones. */
  lemma ReRegisterLeaksNothing(ops: seq<Op>, id: ContextId, factorKind: FactorKind, drawn: Drawn, now: int)
    requires Run(ops).Some? && drawn.kid !in Run(ops).value.1.issued
    ensures var (s, h) := Run(ops).value;
            var t := Register(s, id, factorKind, drawn, now);
            && t.lifecycle[id].keyIds == [drawn.kid]
            && (forall kid :: kid in t.keys <==> kid == drawn.kid || (kid in s.keys && !Owns(s.lifecycle, id, kid)))
            && (forall other, kid | other != id :: Owns(t.lifecycle, other, kid) <==> Owns(s.lifecycle, other, kid))
  {
    hide Run;
    EveryRunConserves(ops);
    var (s, h) := Run(ops).value;
    assert forall kid | Owns(s.lifecycle, id, kid) :: Owned(s.lifecycle, kid);
  }
}
