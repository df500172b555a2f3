/** The software store under interleaving calls (src/plugins/softkey.rs). Each call is its critical
    sections in order; between them any other call may run. Purging inside a registration holds the
    contexts' lock throughout, and what can fall into it touches other keys, so it is one step. */
module SoftkeySteps {
  import opened Results
  import opened Keys
  import opened Lifecycle
  import S = Softkey

  type CallId = nat

  datatype Job =
    | Generate(drawn: S.Drawn, now: int)
    | Register(id: ContextId, factorKind: FactorKind, drawn: S.Drawn, now: int)
    | Activate(id: ContextId, now: int)
    | Rotate(id: ContextId, drawn: S.Drawn, now: int)
    | Destroy(id: ContextId, now: int)
    | Delete(kid: Kid)
  {
    predicate Draws() {
      Generate? || Register? || Rotate?
    }
  }

  /** A destruction remembers the keys it copied and how long the log was then. */
  datatype Phase =
    | Waiting
    | Drawn
    | Copied(kids: seq<Kid>, since: nat)
    | Removed(kids: seq<Kid>, since: nat)
    | Done

  datatype Event =
    | Drew(kid: Kid)
    | Attached(id: ContextId, kid: Kid)
    | RemovedKeys(kids: seq<Kid>)
    | DeletedKey(kid: Kid)
    | Cleared(id: ContextId, since: nat, dropped: seq<Kid>)

  datatype World = World(store: S.State, phases: seq<Phase>, log: seq<Event>)

  function Start(jobs: seq<Job>): World {
    World(S.State(map[], map[]), seq(|jobs|, _ => Waiting), [])
  }

  function Draw(w: World, c: CallId, drawn: S.Drawn, now: int, next: Phase): World
    requires c < |w.phases|
  {
    World(S.Generate(w.store, ES256, drawn, now).0, w.phases[c := next], w.log + [Drew(drawn.kid)])
  }

  /** The next critical section of call `c`. */
  function Advance(jobs: seq<Job>, w: World, c: CallId): (t: Option<World>)
    requires |w.phases| == |jobs| && c < |jobs|
    ensures t.Some? ==> |t.value.phases| == |jobs|
  {
    var contexts := w.store.lifecycle;
    match (jobs[c], w.phases[c])
    case (Generate(drawn, now), Waiting) => Some(Draw(w, c, drawn, now, Done))
    case (Register(_, _, drawn, now), Waiting) => Some(Draw(w, c, drawn, now, Drawn))
    case (Register(id, factorKind, drawn, now), Drawn) =>
      var (registered, stale) := RegisterContext(contexts, id, factorKind, drawn.kid, now);
      Some(World(S.State(Without(w.store.keys, stale), registered), w.phases[c := Done],
                 w.log + [RemovedKeys(stale), Attached(id, drawn.kid)]))
    case (Activate(id, now), Waiting) =>
      Some(w.(store := S.Activate(w.store, id, now).0, phases := w.phases[c := Done]))
    case (Rotate(_, drawn, now), Waiting) => Some(Draw(w, c, drawn, now, Drawn))
    case (Rotate(id, drawn, now), Drawn) =>
      var (pushed, r) := RotatePushKey(contexts, id, drawn.kid, now);
      Some(World(w.store.(lifecycle := pushed), w.phases[c := Done],
                 if r.Ok? then w.log + [Attached(id, drawn.kid)] else w.log))
    case (Destroy(id, _), Waiting) =>
      Some(w.(phases := w.phases[c := if id in contexts then Copied(contexts[id].keyIds, |w.log|) else Done]))
    case (Destroy(_, _), Copied(kids, since)) =>
      Some(World(w.store.(keys := Without(w.store.keys, kids)), w.phases[c := Removed(kids, since)], w.log + [RemovedKeys(kids)]))
    case (Destroy(id, now), Removed(_, since)) =>
      if id !in contexts then Some(w.(phases := w.phases[c := Done]))
      else
        var cleared := contexts[id].(state := Destroyed, updatedAt := now, keyIds := []);
        Some(World(w.store.(lifecycle := contexts[id := cleared]), w.phases[c := Done],
                   w.log + [Cleared(id, since, contexts[id].keyIds)]))
    case (Delete(kid), Waiting) =>
      if kid !in w.store.keys then Some(w.(phases := w.phases[c := Done]))
      else Some(World(S.Delete(w.store, kid).0, w.phases[c := Done], w.log + [DeletedKey(kid)]))
    case _ => None
  }

  /** A schedule says whose critical section comes next. */
  function Run(jobs: seq<Job>, schedule: seq<CallId>): (r: Option<World>)
    ensures r.Some? ==> |r.value.phases| == |jobs|
  {
    if schedule == [] then Some(Start(jobs))
    else
      var c := schedule[|schedule| - 1];
      match Run(jobs, schedule[..|schedule| - 1])
      case None => None
      case Some(w) => if c < |jobs| then Advance(jobs, w, c) else None
  }

  /** Identifiers are thumbprints of fresh keys, so no two calls draw one. */
  predicate DistinctDraws(jobs: seq<Job>) {
    forall c, d | 0 <= c < d < |jobs| && jobs[c].Draws() && jobs[d].Draws() :: jobs[c].drawn.kid != jobs[d].drawn.kid
  }

  // ---------------------------------------------------------- what the log says

  ghost predicate Gone(log: seq<Event>, kid: Kid) {
    exists k :: 0 <= k < |log| && log[k].RemovedKeys? && kid in log[k].kids
  }

  /** `kid` was on the list of `id` that a later destruction cleared. */
  ghost predicate DroppedAfter(log: seq<Event>, id: ContextId, kid: Kid, j: nat) {
    exists k :: j < k < |log| && log[k].Cleared? && log[k].id == id && kid in log[k].dropped
  }

  /** `kid` came to the list after the destruction that cleared it had copied the list. */
  ghost predicate Overtaken(log: seq<Event>, kid: Kid) {
    exists j, k :: 0 <= j < k < |log| && AttachedThenCleared(log, kid, j, k) && log[k].since <= j
  }

  predicate AttachedThenCleared(log: seq<Event>, kid: Kid, j: nat, k: nat)
    requires j < k < |log|
  {
    log[j].Attached? && log[j].kid == kid && log[k].Cleared? && log[k].id == log[j].id && kid in log[k].dropped
  }

  ghost predicate WasAttached(log: seq<Event>, kid: Kid) {
    exists j :: 0 <= j < |log| && log[j].Attached? && log[j].kid == kid
  }

  /** Stored, once attached to a context, and on no list: nothing will ever remove it. */
  ghost predicate Orphan(w: World, kid: Kid) {
    kid in w.store.keys && WasAttached(w.log, kid) && !Owned(w.store.lifecycle, kid)
  }

  // -------------------------------------------------------------- invariant

  /** No key is attached twice. */
  predicate AttachedOnce(log: seq<Event>) {
    forall i, j | 0 <= i < j < |log| && log[i].Attached? && log[j].Attached? :: log[i].kid != log[j].kid
  }

  /** A listed key was attached; an attached one is still listed, was removed, or was dropped later. */
  ghost predicate ListsFollow(log: seq<Event>, contexts: Contexts) {
    && (forall id, kid | Owns(contexts, id, kid) :: Attached(id, kid) in log)
    && (forall j | 0 <= j < |log| && log[j].Attached? ::
          Owns(contexts, log[j].id, log[j].kid) || Gone(log, log[j].kid) || DroppedAfter(log, log[j].id, log[j].kid, j))
  }

  /** A dropped key is listed nowhere; it was attached after the copy, or removed. */
  ghost predicate DropsHold(log: seq<Event>, contexts: Contexts) {
    forall k | 0 <= k < |log| && log[k].Cleared? :: forall kid | kid in log[k].dropped ::
      !Owned(contexts, kid) && LateOrGone(log, k, log[k].id, log[k].since, kid)
  }

  ghost predicate LateOrGone(log: seq<Event>, k: nat, id: ContextId, since: nat, kid: Kid)
    requires k <= |log|
  {
    exists j :: 0 <= j < k && log[j] == Attached(id, kid) && (since <= j || Gone(log, kid))
  }

  /** The store is what was drawn and neither removed nor deleted. */
  ghost predicate Stock(log: seq<Event>, keys: map<Kid, S.StoredKey>) {
    forall kid :: kid in keys <==> Drew(kid) in log && !Gone(log, kid) && DeletedKey(kid) !in log
  }

  ghost predicate DrawnFirst(log: seq<Event>) {
    forall kid | Gone(log, kid) || DeletedKey(kid) in log || WasAttached(log, kid) :: Drew(kid) in log
  }

  ghost predicate Core(log: seq<Event>, s: S.State) {
    && AttachedOnce(log)
    && ListsFollow(log, s.lifecycle)
    && DropsHold(log, s.lifecycle)
    && Stock(log, s.keys)
    && DrawnFirst(log)
  }

  /** What a destruction in progress knows of its context. */
  ghost predicate CopyHolds(log: seq<Event>, contexts: Contexts, id: ContextId, kids: seq<Kid>, since: nat) {
    && since <= |log|
    && (forall j | 0 <= j < since && log[j].Attached? && log[j].id == id && Owns(contexts, id, log[j].kid) :: log[j].kid in kids)
    && (forall kid | kid in kids :: Attached(id, kid) in log)
  }

  ghost predicate CallHolds(job: Job, phase: Phase, log: seq<Event>, contexts: Contexts) {
    && (job.Draws() && phase.Waiting? ==> Drew(job.drawn.kid) !in log)
    && (job.Draws() && (phase.Waiting? || phase.Drawn?) ==> !WasAttached(log, job.drawn.kid))
    && (job.Draws() && phase.Drawn? ==> Drew(job.drawn.kid) in log)
    && (phase.Copied? || phase.Removed? ==> job.Destroy? && CopyHolds(log, contexts, job.id, phase.kids, phase.since))
    && (phase.Removed? ==> forall kid | kid in phase.kids :: Gone(log, kid))
  }

  ghost predicate Inv(jobs: seq<Job>, w: World) {
    && |w.phases| == |jobs|
    && Core(w.log, w.store)
    && forall c | 0 <= c < |jobs| :: CallHolds(jobs[c], w.phases[c], w.log, w.store.lifecycle)
  }

  // ------------------------------------------------------- one more log entry

  lemma OneMoreEntry(log: seq<Event>, e: Event)
    ensures forall kid :: Gone(log + [e], kid) <==> Gone(log, kid) || (e.RemovedKeys? && kid in e.kids)
    ensures forall kid :: WasAttached(log + [e], kid) <==> WasAttached(log, kid) || (e.Attached? && kid == e.kid)
    ensures forall x :: x in log + [e] <==> x in log || x == e
  {
    var grown := log + [e];
    assert grown[|log|] == e;
    forall kid ensures Gone(grown, kid) <==> Gone(log, kid) || (e.RemovedKeys? && kid in e.kids) {
      if Gone(log, kid) {
        var k :| 0 <= k < |log| && log[k].RemovedKeys? && kid in log[k].kids;
        assert grown[k] == log[k];
      }
      if Gone(grown, kid) && !(e.RemovedKeys? && kid in e.kids) {
        var k :| 0 <= k < |grown| && grown[k].RemovedKeys? && kid in grown[k].kids;
        assert log[k] == grown[k];
      }
    }
    forall kid ensures WasAttached(grown, kid) <==> WasAttached(log, kid) || (e.Attached? && kid == e.kid) {
      if WasAttached(log, kid) {
        var j :| 0 <= j < |log| && log[j].Attached? && log[j].kid == kid;
        assert grown[j] == log[j];
      }
    }
  }

  /** Lists that gain at most the key just attached, and lose only removed or dropped keys. */
  ghost predicate ListsMove(log: seq<Event>, e: Event, before: Contexts, after: Contexts) {
    && (forall id, kid | Owns(after, id, kid) :: Owns(before, id, kid) || e == Attached(id, kid))
    && (e.Attached? ==> Owns(after, e.id, e.kid))
    && (forall id, kid | Owns(before, id, kid) && !Owns(after, id, kid) ::
          Gone(log, kid) || (e.Cleared? && e.id == id && kid in e.dropped))
  }

  /** What may be logged next. */
  ghost predicate MayFollow(log: seq<Event>, e: Event, after: Contexts) {
    match e
    case Drew(kid) => Drew(kid) !in log
    case Attached(_, kid) => Drew(kid) in log && !WasAttached(log, kid)
    case RemovedKeys(kids) => forall kid | kid in kids :: Drew(kid) in log
    case DeletedKey(kid) => Drew(kid) in log
    case Cleared(id, since, dropped) =>
      forall kid | kid in dropped :: !Owned(after, kid) && LateOrGone(log, |log|, id, since, kid)
  }

  /** What an entry does to the store. */
  ghost predicate StockMoves(e: Event, before: map<Kid, S.StoredKey>, after: map<Kid, S.StoredKey>) {
    forall kid :: kid in after <==>
      (kid in before || e == Drew(kid)) && !(e.RemovedKeys? && kid in e.kids) && e != DeletedKey(kid)
  }

  lemma EntryKeepsLists(log: seq<Event>, e: Event, before: Contexts, after: Contexts)
    requires ListsFollow(log, before) && ListsMove(log, e, before, after)
    ensures ListsFollow(log + [e], after)
  {
    hide Owns;
    OneMoreEntry(log, e);
    var grown := log + [e];
    forall j | 0 <= j < |grown| && grown[j].Attached?
      ensures Owns(after, grown[j].id, grown[j].kid) || Gone(grown, grown[j].kid) || DroppedAfter(grown, grown[j].id, grown[j].kid, j)
    {
      if j < |log| {
        var id, kid := log[j].id, log[j].kid;
        if DroppedAfter(log, id, kid, j) {
          var k :| j < k < |log| && log[k].Cleared? && log[k].id == id && kid in log[k].dropped;
          assert grown[k] == log[k];
        } else if !Gone(log, kid) && !Owns(after, id, kid) {
          assert grown[|log|] == e;
        }
      }
    }
  }

  lemma EntryKeepsDrops(log: seq<Event>, e: Event, before: Contexts, after: Contexts)
    requires DropsHold(log, before) && ListsMove(log, e, before, after) && MayFollow(log, e, after)
    ensures DropsHold(log + [e], after)
  {
    OneMoreEntry(log, e);
    var grown := log + [e];
    forall k, kid | 0 <= k < |grown| && grown[k].Cleared? && kid in grown[k].dropped
      ensures !Owned(after, kid) && LateOrGone(grown, k, grown[k].id, grown[k].since, kid)
    {
      var n := if k < |log| then k else |log|;
      assert LateOrGone(log, n, grown[k].id, grown[k].since, kid);
      var j :| 0 <= j < n && log[j] == Attached(grown[k].id, kid) && (grown[k].since <= j || Gone(log, kid));
      assert grown[j] == log[j];
      if k < |log| {
        assert WasAttached(log, kid);
        assert forall id :: Owns(after, id, kid) ==> Owns(before, id, kid) || e == Attached(id, kid);
        assert forall id :: Owns(before, id, kid) ==> Owned(before, kid);
      }
    }
  }

  lemma EntryKeepsCore(log: seq<Event>, e: Event, before: S.State, after: S.State)
    requires Core(log, before) && MayFollow(log, e, after.lifecycle)
    requires ListsMove(log, e, before.lifecycle, after.lifecycle) && StockMoves(e, before.keys, after.keys)
    ensures Core(log + [e], after)
  {
    hide ListsFollow, DropsHold, ListsMove, Gone, WasAttached, AttachedOnce, Owned, Stock, DrawnFirst, StockMoves, LateOrGone;
    EntryKeepsLists(log, e, before.lifecycle, after.lifecycle);
    EntryKeepsDrops(log, e, before.lifecycle, after.lifecycle);
    EntryKeepsOnce(log, e);
    EntryKeepsStock(log, e, before.keys, after.keys);
    EntryKeepsDrawn(log, e);
  }

  lemma EntryKeepsStock(log: seq<Event>, e: Event, before: map<Kid, S.StoredKey>, after: map<Kid, S.StoredKey>)
    requires Stock(log, before) && DrawnFirst(log) && StockMoves(e, before, after)
    requires e.Drew? ==> Drew(e.kid) !in log
    ensures Stock(log + [e], after)
  {
    hide Gone, WasAttached;
    OneMoreEntry(log, e);
    forall kid ensures kid in after <==> Drew(kid) in log + [e] && !Gone(log + [e], kid) && DeletedKey(kid) !in log + [e] {
      assert kid in before <==> Drew(kid) in log && !Gone(log, kid) && DeletedKey(kid) !in log;
      assert Drew(kid) !in log ==> !Gone(log, kid) && DeletedKey(kid) !in log;
    }
  }

  lemma EntryKeepsDrawn(log: seq<Event>, e: Event)
    requires DrawnFirst(log)
    requires e.Attached? || e.DeletedKey? ==> Drew(e.kid) in log
    requires e.RemovedKeys? ==> forall kid | kid in e.kids :: Drew(kid) in log
    ensures DrawnFirst(log + [e])
  {
    hide Gone, WasAttached;
    OneMoreEntry(log, e);
  }

  lemma EntryKeepsOnce(log: seq<Event>, e: Event)
    requires AttachedOnce(log) && (e.Attached? ==> !WasAttached(log, e.kid))
    ensures AttachedOnce(log + [e])
  {
    hide WasAttached;
    var grown := log + [e];
    forall i, j | 0 <= i < j < |grown| && grown[i].Attached? && grown[j].Attached? ensures grown[i].kid != grown[j].kid {
      AttachedIs(log, i);
    }
  }

  lemma AttachedIs(log: seq<Event>, i: nat)
    requires i < |log| && log[i].Attached?
    ensures WasAttached(log, log[i].kid)
  {
  }

  /** A call that is not the one stepping is not disturbed, unless the entry draws or attaches its key. */
  lemma EntryKeepsCall(job: Job, phase: Phase, log: seq<Event>, e: Event, before: Contexts, after: Contexts)
    requires CallHolds(job, phase, log, before) && ListsMove(log, e, before, after) && MayFollow(log, e, after)
    requires job.Draws() ==> e != Drew(job.drawn.kid) && !(e.Attached? && e.kid == job.drawn.kid)
    ensures CallHolds(job, phase, log + [e], after)
  {
    OneMoreEntry(log, e);
    hide Gone, Owned;
    if phase.Copied? || phase.Removed? {
      var grown := log + [e];
      forall j | 0 <= j < phase.since && grown[j].Attached? && grown[j].id == job.id && Owns(after, job.id, grown[j].kid)
        ensures grown[j].kid in phase.kids
      {
        assert grown[j] == log[j];
        assert WasAttached(log, log[j].kid);
      }
    }
  }

  // -------------------------------------------------------------- every step

  /** A step that logs one entry, about no key that another call draws. */
  lemma OneEntryStep(jobs: seq<Job>, w: World, c: CallId, e: Event, phase: Phase, after: S.State)
    requires Inv(jobs, w) && DistinctDraws(jobs) && c < |jobs|
    requires MayFollow(w.log, e, after.lifecycle)
    requires ListsMove(w.log, e, w.store.lifecycle, after.lifecycle) && StockMoves(e, w.store.keys, after.keys)
    requires e.Drew? || e.Attached? ==> jobs[c].Draws() && e.kid == jobs[c].drawn.kid
    requires CallHolds(jobs[c], phase, w.log + [e], after.lifecycle)
    ensures Inv(jobs, World(after, w.phases[c := phase], w.log + [e]))
  {
    EntryKeepsCore(w.log, e, w.store, after);
    hide Core, CallHolds, MayFollow, ListsMove, StockMoves;
    forall d | 0 <= d < |jobs| && d != c ensures CallHolds(jobs[d], w.phases[d], w.log + [e], after.lifecycle) {
      assert e.Drew? || e.Attached? ==> jobs[d].Draws() ==> jobs[d].drawn.kid != e.kid;
      EntryKeepsCall(jobs[d], w.phases[d], w.log, e, w.store.lifecycle, after.lifecycle);
    }
  }

  /** A step that logs nothing and moves no key. */
  lemma SilentStep(jobs: seq<Job>, w: World, c: CallId, phase: Phase, after: Contexts)
    requires Inv(jobs, w) && c < |jobs|
    requires forall id, kid :: Owns(w.store.lifecycle, id, kid) <==> Owns(after, id, kid)
    requires CallHolds(jobs[c], phase, w.log, after)
    ensures Inv(jobs, World(w.store.(lifecycle := after), w.phases[c := phase], w.log))
  {
    hide Gone, LateOrGone, DroppedAfter, Owns, Stock, DrawnFirst;
    assert forall kid :: Owned(w.store.lifecycle, kid) <==> Owned(after, kid);
  }

  lemma DrawStep(jobs: seq<Job>, w: World, c: CallId, drawn: S.Drawn, now: int, next: Phase)
    requires Inv(jobs, w) && DistinctDraws(jobs) && c < |jobs| && w.phases[c] == Waiting
    requires jobs[c].Draws() && jobs[c].drawn == drawn && (next == Done || next == Phase.Drawn)
    ensures Inv(jobs, Draw(w, c, drawn, now, next))
  {
    hide Core, Gone, Owned;
    OneMoreEntry(w.log, Drew(drawn.kid));
    OneEntryStep(jobs, w, c, Drew(drawn.kid), next, S.Generate(w.store, ES256, drawn, now).0);
  }

  /** Attaching the drawn key, to a list that loses only removed keys by it. */
  lemma AttachStep(jobs: seq<Job>, w: World, c: CallId, id: ContextId, after: Contexts)
    requires Inv(jobs, w) && DistinctDraws(jobs) && c < |jobs| && jobs[c].Draws() && w.phases[c] == Drawn
    requires ListsMove(w.log, Attached(id, jobs[c].drawn.kid), w.store.lifecycle, after)
    ensures Inv(jobs, World(w.store.(lifecycle := after), w.phases[c := Done], w.log + [Attached(id, jobs[c].drawn.kid)]))
  {
    hide Core, Gone, Owned, ListsMove;
    OneEntryStep(jobs, w, c, Attached(id, jobs[c].drawn.kid), Done, w.store.(lifecycle := after));
  }

  lemma RotateStep(jobs: seq<Job>, w: World, c: CallId)
    requires Inv(jobs, w) && DistinctDraws(jobs) && c < |jobs| && jobs[c].Rotate? && w.phases[c] == Drawn
    ensures Inv(jobs, Advance(jobs, w, c).value)
  {
    assert |w.phases| == |jobs|;
    hide Inv, Core, CallHolds;
    var id, kid, now := jobs[c].id, jobs[c].drawn.kid, jobs[c].now;
    var contexts := w.store.lifecycle;
    if id in contexts {
      RotationAttaches(w.log, contexts, id, kid, now);
      hide ListsMove;
      AttachStep(jobs, w, c, id, RotatePushKey(contexts, id, kid, now).0);
    } else {
      assert CallHolds(jobs[c], Done, w.log, contexts) by { DoneHolds(jobs[c], w.log, contexts); }
      SilentStep(jobs, w, c, Done, contexts);
    }
  }

  lemma RotationAttaches(log: seq<Event>, contexts: Contexts, id: ContextId, kid: Kid, now: int)
    requires id in contexts
    ensures ListsMove(log, Attached(id, kid), contexts, RotatePushKey(contexts, id, kid, now).0)
  {
    hide Gone;
  }

  lemma DoneHolds(job: Job, log: seq<Event>, contexts: Contexts)
    ensures CallHolds(job, Done, log, contexts)
  {
  }

  lemma PurgeStep(jobs: seq<Job>, w: World, c: CallId, stale: seq<Kid>)
    requires Inv(jobs, w) && DistinctDraws(jobs) && c < |jobs| && jobs[c].Register? && w.phases[c] == Drawn
    requires forall k | k in stale :: Owns(w.store.lifecycle, jobs[c].id, k)
    ensures Inv(jobs, World(w.store.(keys := Without(w.store.keys, stale)), w.phases[c := Phase.Drawn], w.log + [RemovedKeys(stale)]))
  {
    hide Gone, Owned;
    OneMoreEntry(w.log, RemovedKeys(stale));
    assert forall k | k in stale :: Drew(k) in w.log by { ListedIsDrawn(w.log, w.store, jobs[c].id, stale); }
    hide Core;
    OneEntryStep(jobs, w, c, RemovedKeys(stale), Phase.Drawn, w.store.(keys := Without(w.store.keys, stale)));
  }

  /** A registration seen as a purge and then an attachment. */
  lemma RegistrationIsTwo(jobs: seq<Job>, w: World, c: CallId)
    requires |w.phases| == |jobs| && c < |jobs| && jobs[c].Register? && w.phases[c] == Drawn
    ensures var id, kid := jobs[c].id, jobs[c].drawn.kid;
            var (after, stale) := RegisterContext(w.store.lifecycle, id, jobs[c].factorKind, kid, jobs[c].now);
            && Advance(jobs, w, c) == Some(World(S.State(Without(w.store.keys, stale), after), w.phases[c := Phase.Drawn][c := Done],
                                                 w.log + [RemovedKeys(stale)] + [Attached(id, kid)]))
            && (forall k | k in stale :: Owns(w.store.lifecycle, id, k))
            && ListsMove(w.log + [RemovedKeys(stale)], Attached(id, kid), w.store.lifecycle, after)
  {
    hide Gone;
    var id, kid := jobs[c].id, jobs[c].drawn.kid;
    var (after, stale) := RegisterContext(w.store.lifecycle, id, jobs[c].factorKind, kid, jobs[c].now);
    assert w.phases[c := Phase.Drawn][c := Done] == w.phases[c := Done];
    assert w.log + [RemovedKeys(stale)] + [Attached(id, kid)] == w.log + [RemovedKeys(stale), Attached(id, kid)];
    OneMoreEntry(w.log, RemovedKeys(stale));
  }

  lemma RegisterStep(jobs: seq<Job>, w: World, c: CallId)
    requires Inv(jobs, w) && DistinctDraws(jobs) && c < |jobs| && jobs[c].Register? && w.phases[c] == Drawn
    ensures Inv(jobs, Advance(jobs, w, c).value)
  {
    assert |w.phases| == |jobs|;
    hide Inv, Advance, Gone, ListsMove, Owns;
    RegistrationIsTwo(jobs, w, c);
    var (after, stale) := RegisterContext(w.store.lifecycle, jobs[c].id, jobs[c].factorKind, jobs[c].drawn.kid, jobs[c].now);
    PurgeStep(jobs, w, c, stale);
    var purged := World(w.store.(keys := Without(w.store.keys, stale)), w.phases[c := Phase.Drawn], w.log + [RemovedKeys(stale)]);
    AttachStep(jobs, purged, c, jobs[c].id, after);
  }

  lemma ListedIsDrawn(log: seq<Event>, s: S.State, id: ContextId, kids: seq<Kid>)
    requires Core(log, s) && forall k | k in kids :: Owns(s.lifecycle, id, k)
    ensures forall k | k in kids :: Drew(k) in log
  {
    hide Gone;
    forall k | k in kids ensures Drew(k) in log {
      assert Attached(id, k) in log;
      assert WasAttached(log, k);
    }
  }

  lemma DestroyStep(jobs: seq<Job>, w: World, c: CallId)
    requires Inv(jobs, w) && DistinctDraws(jobs) && c < |jobs| && jobs[c].Destroy? && w.phases[c] != Done
    requires Advance(jobs, w, c).Some?
    ensures Inv(jobs, Advance(jobs, w, c).value)
  {
    hide Gone, Owned;
    var id, now := jobs[c].id, jobs[c].now;
    var contexts := w.store.lifecycle;
    match w.phases[c]
    case Waiting =>
      if id in contexts {
        CopyIsExact(w.log, w.store, id);
        hide Core;
        SilentStep(jobs, w, c, Copied(contexts[id].keyIds, |w.log|), contexts);
      } else {
        hide Core;
        SilentStep(jobs, w, c, Done, contexts);
      }
    case Copied(kids, since) =>
      OneMoreEntry(w.log, RemovedKeys(kids));
      assert forall k | k in kids :: Drew(k) in w.log by { AttachedIsDrawn(w.log, w.store, id, kids); }
      hide Core;
      EntryKeepsCall(jobs[c], w.phases[c], w.log, RemovedKeys(kids), contexts, contexts);
      OneEntryStep(jobs, w, c, RemovedKeys(kids), Removed(kids, since), w.store.(keys := Without(w.store.keys, kids)));
    case Removed(kids, since) =>
      if id in contexts {
        var dropped := contexts[id].keyIds;
        var cleared := contexts[id := contexts[id].(state := Destroyed, updatedAt := now, keyIds := [])];
        DroppedIsLate(w.log, w.store, id, kids, since, cleared);
        hide Core;
        OneMoreEntry(w.log, Cleared(id, since, dropped));
        OneEntryStep(jobs, w, c, Cleared(id, since, dropped), Done, w.store.(lifecycle := cleared));
      } else {
        hide Core;
        SilentStep(jobs, w, c, Done, contexts);
      }
    case Drawn =>
  }

  lemma CopyIsExact(log: seq<Event>, s: S.State, id: ContextId)
    requires Core(log, s) && id in s.lifecycle
    ensures CopyHolds(log, s.lifecycle, id, s.lifecycle[id].keyIds, |log|)
  {
    hide Gone;
    assert forall kid | kid in s.lifecycle[id].keyIds :: Owns(s.lifecycle, id, kid);
  }

  lemma AttachedIsDrawn(log: seq<Event>, s: S.State, id: ContextId, kids: seq<Kid>)
    requires Core(log, s) && forall k | k in kids :: Attached(id, k) in log
    ensures forall k | k in kids :: Drew(k) in log
  {
    hide Gone;
    forall k | k in kids ensures Drew(k) in log {
      assert WasAttached(log, k);
    }
  }

  /** What is on the list when it is cleared was copied, and so removed, or came later. */
  lemma DroppedIsLate(log: seq<Event>, s: S.State, id: ContextId, kids: seq<Kid>, since: nat, after: Contexts)
    requires Core(log, s) && id in s.lifecycle && CopyHolds(log, s.lifecycle, id, kids, since)
    requires forall kid | kid in kids :: Gone(log, kid)
    requires id in after && after == s.lifecycle[id := after[id]] && after[id].keyIds == []
    ensures forall kid | kid in s.lifecycle[id].keyIds :: !Owned(after, kid) && LateOrGone(log, |log|, id, since, kid)
  {
    hide Gone;
    forall kid | kid in s.lifecycle[id].keyIds ensures !Owned(after, kid) && LateOrGone(log, |log|, id, since, kid) {
      assert Owns(s.lifecycle, id, kid);
      var j :| 0 <= j < |log| && log[j] == Attached(id, kid);
      forall other | Owns(s.lifecycle, other, kid) ensures other == id {
        var i :| 0 <= i < |log| && log[i] == Attached(other, kid);
        assert i == j;
      }
      assert forall other :: Owns(after, other, kid) ==> other != id && Owns(s.lifecycle, other, kid);
      assert j < since ==> log[j].kid in kids;
    }
  }

  lemma DeleteStep(jobs: seq<Job>, w: World, c: CallId)
    requires Inv(jobs, w) && DistinctDraws(jobs) && c < |jobs| && jobs[c].Delete? && w.phases[c] == Waiting
    ensures Inv(jobs, Advance(jobs, w, c).value)
  {
    hide Core, Gone, Owned;
    var kid := jobs[c].kid;
    if kid in w.store.keys {
      StoredIsDrawn(w.log, w.store, kid);
      OneMoreEntry(w.log, DeletedKey(kid));
      OneEntryStep(jobs, w, c, DeletedKey(kid), Done, S.Delete(w.store, kid).0);
    } else {
      SilentStep(jobs, w, c, Done, w.store.lifecycle);
    }
  }

  lemma StoredIsDrawn(log: seq<Event>, s: S.State, kid: Kid)
    requires Core(log, s) && kid in s.keys
    ensures Drew(kid) in log
  {
    hide Gone;
  }

  lemma AdvanceKeepsInv(jobs: seq<Job>, w: World, c: CallId)
    requires Inv(jobs, w) && DistinctDraws(jobs) && c < |jobs| && Advance(jobs, w, c).Some?
    ensures Inv(jobs, Advance(jobs, w, c).value)
  {
    assert |w.phases| == |jobs|;
    hide Inv, DistinctDraws;
    match jobs[c]
    case Generate(drawn, now) => DrawStep(jobs, w, c, drawn, now, Done);
    case Register(_, _, drawn, now) =>
      if w.phases[c].Waiting? {
        DrawStep(jobs, w, c, drawn, now, Phase.Drawn);
      } else {
        RegisterStep(jobs, w, c);
      }
    case Rotate(_, drawn, now) =>
      if w.phases[c].Waiting? {
        DrawStep(jobs, w, c, drawn, now, Phase.Drawn);
      } else {
        RotateStep(jobs, w, c);
      }
    case Activate(id, now) => ActivateStep(jobs, w, c);
    case Destroy(_, _) => DestroyStep(jobs, w, c);
    case Delete(_) => DeleteStep(jobs, w, c);
  }

  lemma ActivateStep(jobs: seq<Job>, w: World, c: CallId)
    requires Inv(jobs, w) && c < |jobs| && jobs[c].Activate? && w.phases[c] == Waiting
    ensures Inv(jobs, Advance(jobs, w, c).value)
  {
    hide Core, Gone;
    SilentStep(jobs, w, c, Done, S.Activate(w.store, jobs[c].id, jobs[c].now).0.lifecycle);
  }

  lemma {:induction false} EveryScheduleKeepsInv(jobs: seq<Job>, schedule: seq<CallId>)
    requires DistinctDraws(jobs) && Run(jobs, schedule).Some?
    ensures Inv(jobs, Run(jobs, schedule).value)
  {
    hide Advance;
    if schedule != [] {
      var n := |schedule| - 1;
      EveryScheduleKeepsInv(jobs, schedule[..n]);
      AdvanceKeepsInv(jobs, Run(jobs, schedule[..n]).value, schedule[n]);
    }
  }

  // ---------------------------------------------------------------- results

  /** In every interleaving, a key that was enrolled is stored without any context listing it exactly
      when it came to its context between the copying and the clearing of a destruction, and neither
      another call removed it nor a direct deletion did. */
  lemma OrphansExactly(jobs: seq<Job>, schedule: seq<CallId>, kid: Kid)
    requires DistinctDraws(jobs) && Run(jobs, schedule).Some?
    ensures var w := Run(jobs, schedule).value;
            Orphan(w, kid) <==> Overtaken(w.log, kid) && !Gone(w.log, kid) && DeletedKey(kid) !in w.log
  {
    EveryScheduleKeepsInv(jobs, schedule);
    hide Run, Gone;
    var w := Run(jobs, schedule).value;
    if Orphan(w, kid) {
      OrphanWasOvertaken(w.log, w.store, kid);
    }
    if Overtaken(w.log, kid) {
      OvertakenIsNotListed(w.log, w.store, kid);
    }
  }

  lemma OrphanWasOvertaken(log: seq<Event>, s: S.State, kid: Kid)
    requires Core(log, s) && kid in s.keys && WasAttached(log, kid) && !Owned(s.lifecycle, kid)
    ensures Overtaken(log, kid)
  {
    hide Gone;
    var j :| 0 <= j < |log| && log[j].Attached? && log[j].kid == kid;
    assert !Owns(s.lifecycle, log[j].id, kid);
    var k :| j < k < |log| && log[k].Cleared? && log[k].id == log[j].id && kid in log[k].dropped;
    assert LateOrGone(log, k, log[k].id, log[k].since, kid);
    var i :| 0 <= i < k && log[i] == Attached(log[k].id, kid) && log[k].since <= i;
    assert AttachedThenCleared(log, kid, i, k);
  }

  lemma OvertakenIsNotListed(log: seq<Event>, s: S.State, kid: Kid)
    requires Core(log, s) && Overtaken(log, kid)
    ensures WasAttached(log, kid) && !Owned(s.lifecycle, kid) && Drew(kid) in log
  {
    hide Gone;
    var j, k :| 0 <= j < k < |log| && AttachedThenCleared(log, kid, j, k) && log[k].since <= j;
    assert log[j].Attached? && log[j].kid == kid;
  }

  /** No key is attached to a context between a destruction's copying of its list and its clearing. */
  predicate NoOverlap(log: seq<Event>) {
    forall j, k | 0 <= j < k < |log| && log[j].Attached? && log[k].Cleared? && log[k].id == log[j].id :: j < log[k].since
  }

  /** So calls that do not overlap a destruction of their own context leave no key behind: what is
      stored is listed, or was never attached. */
  lemma WithoutOverlapNothingIsOrphaned(jobs: seq<Job>, schedule: seq<CallId>)
    requires DistinctDraws(jobs) && Run(jobs, schedule).Some? && NoOverlap(Run(jobs, schedule).value.log)
    ensures var w := Run(jobs, schedule).value;
            forall kid | kid in w.store.keys :: Owned(w.store.lifecycle, kid) || !WasAttached(w.log, kid)
  {
    hide Run, Gone, Owned, WasAttached;
    var w := Run(jobs, schedule).value;
    forall kid | kid in w.store.keys ensures Owned(w.store.lifecycle, kid) || !WasAttached(w.log, kid) {
      OrphansExactly(jobs, schedule, kid);
    }
  }

  /** And the overlap does happen: a rotation that attaches its key after a destruction has removed
      what it copied, and before it clears the list, leaves that key stored and on no list. */
  lemma RotateIntoDestroyOrphans(jobs: seq<Job>, schedule: seq<CallId>, destroy: CallId, rotate: CallId)
    requires DistinctDraws(jobs) && Run(jobs, schedule).Some? && destroy < |jobs| && rotate < |jobs|
    requires jobs[destroy].Destroy? && jobs[rotate].Rotate? && jobs[rotate].id == jobs[destroy].id
    requires var w := Run(jobs, schedule).value;
             && w.phases[destroy].Removed? && w.phases[rotate] == Drawn
             && jobs[rotate].id in w.store.lifecycle && jobs[rotate].drawn.kid in w.store.keys
    ensures var r := Run(jobs, schedule + [rotate] + [destroy]);
            r.Some? && Orphan(r.value, jobs[rotate].drawn.kid)
  {
    var w := Run(jobs, schedule).value;
    var id, kid := jobs[rotate].id, jobs[rotate].drawn.kid;
    assert (schedule + [rotate])[..|schedule|] == schedule;
    assert (schedule + [rotate] + [destroy])[..|schedule| + 1] == schedule + [rotate];
    var attached := Run(jobs, schedule + [rotate]).value;
    assert attached.log[|w.log|] == Attached(id, kid);
    assert kid in attached.store.lifecycle[id].keyIds by {
      assert attached.store.lifecycle[id].keyIds[|w.store.lifecycle[id].keyIds|] == kid;
    }
    var r := Run(jobs, schedule + [rotate] + [destroy]).value;
    EveryScheduleKeepsInv(jobs, schedule + [rotate]);
    EveryScheduleKeepsInv(jobs, schedule + [rotate] + [destroy]);
    hide Run, Advance, Inv;
    var dropped := attached.store.lifecycle[id].keyIds;
    assert r.log[|attached.log|] == Cleared(id, w.phases[destroy].since, dropped);
    assert WasAttached(r.log, kid) by { assert r.log[|w.log|] == Attached(id, kid); }
    assert !Owned(r.store.lifecycle, kid) by { DroppedIsNotListed(jobs, r, |attached.log|, kid); }
  }

  lemma DroppedIsNotListed(jobs: seq<Job>, w: World, k: nat, kid: Kid)
    requires Inv(jobs, w) && k < |w.log| && w.log[k].Cleared? && kid in w.log[k].dropped
    ensures !Owned(w.store.lifecycle, kid)
  {
    hide Gone, Owned, LateOrGone;
  }
}
