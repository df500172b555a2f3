/** The fido2 store over whole runs, restarts included (src/plugins/fido2_sign.rs). */
module Fido2Runs {
  import opened Results
  import opened Keys
  import opened Lifecycle
  import opened Fido2State

  datatype Op =
    | DoGenerate(key: StoredKey)
    | DoRegister(id: ContextId, factorKind: FactorKind, key: StoredKey, now: int)
    | DoActivate(id: ContextId, now: int)
    | DoRotate(id: ContextId, key: StoredKey, now: int)
    | DoDestroy(id: ContextId, now: int)
    | DoDelete(kid: Kid)
    | DoRestart(order: seq<Kid>)

  /** Identifiers drawn so far, and those of keys generated outside any context. */
  datatype History = History(issued: set<Kid>, unowned: set<Kid>)

  /** The state after one call; a restart exports and restores, and `None` is one that is refused. */
  function Step(s: State, op: Op): Option<State> {
    match op
    case DoGenerate(key) => Some(Store(s, key))
    case DoRegister(id, factorKind, key, now) => Some(Register(s, id, factorKind, key, now).0)
    case DoActivate(id, now) => Some(Activate(s, id, now).0)
    case DoRotate(id, key, now) => Some(Rotate(s, id, key, now).0)
    case DoDestroy(id, now) => Some(Destroy(s, id, now).0)
    case DoDelete(kid) => Some(Delete(s, kid).0)
    case DoRestart(order) =>
      if !IterationOrder(s.keys, order) then None
      else match Restore(Export(s, order)) case Ok(t) => Some(t) case Err(_) => None
  }

  function Note(h: History, s: State, op: Op): History {
    match op
    case DoGenerate(key) => History(h.issued + {key.kid}, h.unowned + {key.kid})
    case DoRegister(_, factorKind, key, _) => if factorKind == RawSign then h.(issued := h.issued + {key.kid}) else h
    case DoRotate(id, key, _) =>
      History(h.issued + {key.kid}, if id in s.lifecycle then h.unowned else h.unowned + {key.kid})
    case _ => h
  }

  /** Identifiers are thumbprints of fresh keys. */
  predicate Fresh(h: History, op: Op) {
    match op
    case DoGenerate(key) => key.kid !in h.issued
    case DoRegister(_, _, key, _) => key.kid !in h.issued
    case DoRotate(_, key, _) => key.kid !in h.issued
    case _ => true
  }

  function Run(s: State, h: History, ops: seq<Op>): Option<(State, History)> {
    if ops == [] then Some((s, h))
    else
      var op := ops[|ops| - 1];
      match Run(s, h, ops[..|ops| - 1])
      case None => None
      case Some((t, g)) =>
        if !Fresh(g, op) then None
        else match Step(t, op) case None => None case Some(u) => Some((u, Note(g, t, op)))
  }

  // ------------------------------------------------------ filed throughout

  /** Whatever an accepted blob holds, its keys are filed under their own identifiers. */
  lemma RestoredIsFiled(blob: Blob)
    requires Restore(blob).Ok?
    ensures Filed(Restore(blob).value)
  {
    forall kid | kid in FirstWins(blob.keys) ensures FirstWins(blob.keys)[kid].kid == kid {
      FirstWinsIsFirstMatch(blob.keys, kid);
    }
  }

  /** Every run from an accepted blob, or from nothing, keeps every key filed under its own
      identifier: exports, listings and restores are exact at every point of it. */
  lemma {:induction false} EveryRunKeepsFiled(s: State, h: History, ops: seq<Op>)
    requires Filed(s) && Run(s, h, ops).Some?
    ensures Filed(Run(s, h, ops).value.0)
  {
    if ops != [] {
      var n := |ops| - 1;
      EveryRunKeepsFiled(s, h, ops[..n]);
      var t := Run(s, h, ops[..n]).value.0;
      if ops[n].DoRestart? {
        RestoredIsFiled(Export(t, ops[n].order));
      }
    }
  }

  /** After any run an export depends on nothing but the keys, lists each of them once, oldest first,
      and can be restored exactly when each has the coordinate width of one of the two curves. */
  lemma ExportAfterAnyRun(blob: Blob, h: History, ops: seq<Op>, order: seq<Kid>, order': seq<Kid>)
    requires Restore(blob).Ok? && Run(Restore(blob).value, h, ops).Some?
    requires var s := Run(Restore(blob).value, h, ops).value.0;
             IterationOrder(s.keys, order) && IterationOrder(s.keys, order')
    ensures var s := Run(Restore(blob).value, h, ops).value.0;
            && Export(s, order) == Export(s, order')
            && (forall k: StoredKey :: k in Export(s, order).keys <==> k.kid in s.keys && s.keys[k.kid] == k)
            && (Restore(Export(s, order)) == Ok(s) <==> forall kid | kid in s.keys :: ValidWidths(s.keys[kid]))
            && Listing(s, order) == Sorting.MapSeq(Info, Export(s, order').keys)
  {
    hide Run, Export, Listing, ValidWidths;
    RestoredIsFiled(blob);
    EveryRunKeepsFiled(Restore(blob).value, h, ops);
    var s := Run(Restore(blob).value, h, ops).value.0;
    ExportIsDeterministic(s, order, order');
    RestoreUndoesExport(s, order);
    ListingFollowsExport(s, order, order');
  }

  // ------------------------------------------------------------- ownership

  /** Contexts share no key, and a stored key belongs to one or was generated outside all. */
  ghost predicate Accounted(s: State, h: History) {
    && Filed(s)
    && OwnedOnce(s.lifecycle)
    && (forall kid | Owned(s.lifecycle, kid) :: kid in h.issued && kid !in h.unowned)
    && h.unowned <= h.issued
    && (forall kid | kid in s.keys :: Owned(s.lifecycle, kid) || kid in h.unowned)
  }

  const NOTHING := State(map[], map[])
  const NO_HISTORY := History({}, {})

  lemma StepAccounts(s: State, h: History, op: Op)
    requires Accounted(s, h) && Fresh(h, op) && Step(s, op).Some?
    ensures Accounted(Step(s, op).value, Note(h, s, op))
  {
    hide OwnedOnce;
    var t := Step(s, op).value;
    match op
    case DoRegister(id, factorKind, key, now) =>
      if factorKind == RawSign {
        assert forall kid :: Owns(s.lifecycle, id, kid) ==> Owned(s.lifecycle, kid);
        ReplacedList(s.lifecycle, id, Context(factorKind, Registered, now, [key.kid]));
      }
    case DoRotate(id, key, now) =>
      if id in s.lifecycle {
        RotateAccounts(s, h, id, key, now);
      }
    case DoActivate(id, now) => SameLists(s.lifecycle, t.lifecycle);
    case DoDestroy(id, now) =>
      if id in s.lifecycle {
        ReplacedList(s.lifecycle, id, s.lifecycle[id].(state := Destroyed, updatedAt := now, keyIds := []));
      }
    case DoRestart(order) => RestoreUndoesExport(s, order);
    case _ =>
  }

  lemma RotateAccounts(s: State, h: History, id: ContextId, key: StoredKey, now: int)
    requires Accounted(s, h) && key.kid !in h.issued && id in s.lifecycle
    ensures Accounted(Rotate(s, id, key, now).0, h.(issued := h.issued + {key.kid}))
  {
    var ctx := s.lifecycle[id];
    var grown := Context(ctx.factorKind, Registered, now, ctx.keyIds + [key.kid]);
    assert forall kid :: Owns(s.lifecycle, id, kid) ==> Owned(s.lifecycle, kid);
    assert forall kid | kid in ctx.keyIds :: Owns(s.lifecycle, id, kid);
    ReplacedList(s.lifecycle, id, grown);
    assert Rotate(s, id, key, now).0.lifecycle == s.lifecycle[id := grown];
  }

  lemma {:induction false} EveryRunAccounts(ops: seq<Op>)
    requires Run(NOTHING, NO_HISTORY, ops).Some?
    ensures var (s, h) := Run(NOTHING, NO_HISTORY, ops).value; Accounted(s, h)
  {
    hide Step, Note, Fresh;
    if ops != [] {
      var n := |ops| - 1;
      EveryRunAccounts(ops[..n]);
      var (s, h) := Run(NOTHING, NO_HISTORY, ops[..n]).value;
      StepAccounts(s, h, ops[n]);
    }
  }

  /** After any run, destroying a context takes no key along that is not its own exactly when no
      other context lists a stored key and none was generated outside the contexts. */
  lemma DestroySparesOthersExactly(ops: seq<Op>, id: ContextId, now: int)
    requires Run(NOTHING, NO_HISTORY, ops).Some? && id in Run(NOTHING, NO_HISTORY, ops).value.0.lifecycle
    ensures var (s, h) := Run(NOTHING, NO_HISTORY, ops).value;
            var t := Destroy(s, id, now).0;
            (forall kid | kid in s.keys && !Owns(s.lifecycle, id, kid) :: kid in t.keys)
            <==> && (forall other, kid | other != id && Owns(s.lifecycle, other, kid) :: kid !in s.keys)
                 && (forall kid | kid in h.unowned :: kid !in s.keys)
  {
    hide Run;
    EveryRunAccounts(ops);
    var (s, h) := Run(NOTHING, NO_HISTORY, ops).value;
    forall kid | kid in s.keys && !Owns(s.lifecycle, id, kid) && kid !in h.unowned
      ensures exists other :: other != id && Owns(s.lifecycle, other, kid)
    {
      var other :| Owns(s.lifecycle, other, kid);
    }
    assert forall kid | Owns(s.lifecycle, id, kid) :: Owned(s.lifecycle, kid);
  }

  /** So two enrolled contexts are enough for one's destruction to take the other's key. */
  lemma DestroyTakesAnothersKey(a: ContextId, b: ContextId, first: StoredKey, second: StoredKey, now: int)
    requires a != b && first.kid != second.kid
    ensures var ops := [DoRegister(a, RawSign, first, now), DoRegister(b, RawSign, second, now)];
            && Run(NOTHING, NO_HISTORY, ops).Some?
            && var s := Run(NOTHING, NO_HISTORY, ops).value.0;
               var (t, r) := Destroy(s, a, now);
               && Owns(s.lifecycle, a, first.kid) && first.kid in s.keys
               && Owns(s.lifecycle, b, second.kid) && second.kid in s.keys
               && r == Ok(()) && Owns(t.lifecycle, b, second.kid) && second.kid !in t.keys
  {
    var one := Register(NOTHING, a, RawSign, first, now).0;
    var two := Register(one, b, RawSign, second, now).0;
    assert one.keys == map[first.kid := first];
    assert two.keys == map[first.kid := first, second.kid := second];
    assert two.lifecycle[a].keyIds == [first.kid] && two.lifecycle[b].keyIds == [second.kid];
    RunGoesOn([], DoRegister(a, RawSign, first, now));
    RunGoesOn([DoRegister(a, RawSign, first, now)], DoRegister(b, RawSign, second, now));
    assert [] + [DoRegister(a, RawSign, first, now)] == [DoRegister(a, RawSign, first, now)];
    assert [DoRegister(a, RawSign, first, now)] + [DoRegister(b, RawSign, second, now)]
        == [DoRegister(a, RawSign, first, now), DoRegister(b, RawSign, second, now)];
  }

  lemma RunGoesOn(ops: seq<Op>, op: Op)
    requires Run(NOTHING, NO_HISTORY, ops).Some?
    ensures var (s, h) := Run(NOTHING, NO_HISTORY, ops).value;
            Fresh(h, op) && Step(s, op).Some? ==>
              Run(NOTHING, NO_HISTORY, ops + [op]) == Some((Step(s, op).value, Note(h, s, op)))
  {
    assert (ops + [op])[..|ops|] == ops;
  }
}
