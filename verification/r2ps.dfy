/** OPAQUE signing on the shared R2PS client, in every interleaving of its users
    (src/plugins/r2ps.rs). Any number of calls run at once. Each is suspended while its PIN prompt
    is open, and holds the client mutex from before its authentication until its outcome is made. */
module R2ps {
  import opened Bytes
  import opened Results
  import opened Factors

  type CallId = nat

  /** What a call of the plugin does with the client. `Request` stands for key listing, generation,
      export, registration and revocation: locked requests that establish no session. */
  datatype Job = Sign(options: SignOptions) | ActivateOpaque | ActivateFido2 | Request

  /** `opaqueMode` is whether the configured mode is the known one for this path. */
  datatype Plugin = Plugin(opaqueMode: bool, nfc: string -> string, jobs: seq<Job>)

  /** Sessions are named by the log position of the authentication that established them. */
  datatype Session = Inherited | Established(at: nat)

  /** What the server sees. */
  datatype Event =
    | Authenticated(call: CallId, pin: Option<bytes>)
    | AuthRefused(call: CallId)
    | Signed(call: CallId, session: Session)
    | SignRefused(call: CallId)
    | Requested(call: CallId)

  /** `signedAt` is where the server's log has this outcome's signature. */
  datatype Outcome = Outcome(signedAt: nat, factors: AuthFactors)

  datatype Phase =
    | NotStarted
    | Prompting
    | Ready
    | Locked
    | Authed
    | Used(signedAt: nat)
    | Returned(outcome: Outcome)
    | Finished
    | Failed

  /** One call's local variables: the PIN it collected and what its recorder remembers. */
  datatype Call = Call(phase: Phase, pin: Option<bytes>, recorded: seq<Option<string>>)

  datatype State = State(session: Option<Session>, holder: Option<CallId>, calls: seq<Call>, log: seq<Event>)

  datatype Action =
    | Begin
    | Answer(answer: Result<bytes>)
    | Acquire
    | AuthOk
    | AuthFail(keep: bool)
    | SignOk
    | SignFail(keep: bool)
    | Ask(keep: bool)
    | Finish

  predicate Holding(phase: Phase) {
    phase.Locked? || phase.Authed? || phase.Used?
  }

  function Initial(p: Plugin, inherited: bool): State {
    State(if inherited then Some(Inherited) else None, None,
          seq(|p.jobs|, _ => Call(NotStarted, None, [])), [])
  }

  // ------------------------------------------------------------------ steps

  /** Everything up to the prompt; looking at the session needs the mutex to be free. */
  function Start(p: Plugin, s: State, c: CallId): Option<Phase>
    requires c < |p.jobs|
  {
    match p.jobs[c]
    case Sign(options) =>
      if Validate(options).Err? || !p.opaqueMode then Some(Failed)
      else if options.requireFresh then Some(Prompting)
      else if s.holder.Some? then None
      else if s.session.Some? then Some(Ready)
      else Some(Prompting)
    case ActivateOpaque => Some(Prompting)
    case ActivateFido2 => Some(Ready)
    case Request => Some(Ready)
  }

  /** Whether a call that holds the mutex authenticates before anything else. */
  predicate Authenticates(job: Job, call: Call) {
    job.ActivateOpaque? || job.ActivateFido2? || (job.Sign? && call.pin.Some?)
  }

  function Goto(s: State, c: CallId, phase: Phase): State
    requires c < |s.calls|
  {
    s.(calls := s.calls[c := s.calls[c].(phase := phase)])
  }

  /** The mutex is released as the call returns. */
  function Leave(s: State, c: CallId, phase: Phase): State
    requires c < |s.calls|
  {
    Goto(s, c, phase).(holder := None)
  }

  function Log(s: State, e: Event): State {
    s.(log := s.log + [e])
  }

  /** A refused or unrelated request leaves the session as it was or loses it. */
  function Maybe(s: State, keep: bool): State {
    s.(session := if keep then s.session else None)
  }

  /** What one step of call `c` makes of the state; `None` where it cannot take that step. */
  ghost function Apply(p: Plugin, s: State, c: CallId, a: Action): (r: Option<State>)
    requires |s.calls| == |p.jobs| && c < |p.jobs|
    ensures r.Some? ==> |r.value.calls| == |s.calls|
  {
    var job, call := p.jobs[c], s.calls[c];
    match (call.phase, a)
    case (NotStarted, Begin) =>
      (match Start(p, s, c) case None => None case Some(phase) => Some(Goto(s, c, phase)))
    case (Prompting, Answer(Err(_))) => Some(Goto(s, c, Failed))
    case (Prompting, Answer(Ok(pin))) =>
      Some(s.(calls := s.calls[c := Call(Ready, Some(pin), call.recorded + [ClassifyPin(p.nfc, "r2ps", pin)])]))
    case (Ready, Acquire) =>
      if s.holder.Some? then None else Some(Goto(s, c, Locked).(holder := Some(c)))
    case (Locked, AuthOk) =>
      if !Authenticates(job, call) then None
      else Some(Log(Goto(s, c, Authed), Authenticated(c, call.pin)).(session := Some(Established(|s.log|))))
    case (Locked, AuthFail(keep)) =>
      if !Authenticates(job, call) then None
      else Some(Maybe(Log(Leave(s, c, Failed), AuthRefused(c)), keep))
    case (Locked, Ask(keep)) =>
      if !job.Request? then None else Some(Maybe(Log(s, Requested(c)), keep))
    case (Locked, Finish) =>
      if !job.Request? then None else Some(Leave(s, c, Finished))
    case (Authed, Finish) =>
      if job.Sign? then None else Some(Leave(s, c, Finished))
    case (_, SignOk) =>
      if !MaySign(job, call) || s.session.None? then None
      else Some(Log(Goto(s, c, Used(|s.log|)), Signed(c, s.session.value)))
    case (_, SignFail(keep)) =>
      if !MaySign(job, call) then None
      else Some(Maybe(Log(Leave(s, c, Failed), SignRefused(c)), keep))
    case (Used(at), Finish) =>
      if !job.Sign? then None
      else Some(Leave(s, c, Returned(Outcome(at, R2psOpaqueFactors(LastOf(call.recorded), job.options)))))
    case _ => None
  }

  /** A sign reaches its signature authenticated, or straight away when it collected no PIN. */
  predicate MaySign(job: Job, call: Call) {
    job.Sign? && (call.phase.Authed? || (call.phase.Locked? && call.pin.None?))
  }

  /** A whole run: who takes which step, in order. */
  ghost function Run(p: Plugin, s: State, steps: seq<(CallId, Action)>): (r: Option<State>)
    requires |s.calls| == |p.jobs|
    ensures r.Some? ==> |r.value.calls| == |p.jobs|
  {
    if steps == [] then Some(s)
    else
      var n := |steps| - 1;
      match Run(p, s, steps[..n])
      case None => None
      case Some(t) => if steps[n].0 < |p.jobs| then Apply(p, t, steps[n].0, steps[n].1) else None
  }

  // -------------------------------------------------------------- invariant

  /** The session the log says is the current one, unless it was lost. */
  function Latest(log: seq<Event>): Session {
    if log == [] then Inherited
    else if log[|log| - 1].Authenticated? then Established(|log| - 1)
    else Latest(log[..|log| - 1])
  }

  predicate SignedUnderLatest(log: seq<Event>) {
    forall k | 0 <= k < |log| && log[k].Signed? :: log[k].session == Latest(log[..k])
  }

  /** Each call's entries stand together. */
  predicate Contiguous(log: seq<Event>) {
    forall i, j, k | 0 <= i < j < k < |log| && log[i].call == log[k].call :: log[j].call == log[i].call
  }

  /** The entries of `c` are those from `from` up to but not including `to`. */
  predicate EntriesAre(log: seq<Event>, c: CallId, from: int, to: int) {
    forall i | 0 <= i < |log| :: log[i].call == c <==> from <= i < to
  }

  predicate EntriesEndTheLog(log: seq<Event>, c: CallId) {
    forall i, j | 0 <= i < j < |log| && log[i].call == c :: log[j].call == c
  }

  /** The signature of `c` at `at`, led in by its own authentication when it collected a PIN. */
  predicate SignedBlock(log: seq<Event>, c: CallId, pin: Option<bytes>, at: nat) {
    && at < |log| && log[at].Signed? && log[at].call == c
    && (pin.None? ==> EntriesAre(log, c, at, at + 1))
    && (pin.Some? ==>
          && at >= 1
          && log[at - 1] == Authenticated(c, pin)
          && log[at].session == Established(at - 1)
          && EntriesAre(log, c, at - 1, at + 1))
  }

  /** What a call's phase says of its entries. */
  predicate Entries(log: seq<Event>, job: Job, c: CallId, call: Call) {
    match call.phase
    case NotStarted => EntriesAre(log, c, 0, 0)
    case Prompting => EntriesAre(log, c, 0, 0)
    case Ready => EntriesAre(log, c, 0, 0)
    case Locked => if job.Request? then EntriesEndTheLog(log, c) else EntriesAre(log, c, 0, 0)
    case Authed =>
      && log != [] && log[|log| - 1] == Authenticated(c, call.pin)
      && EntriesAre(log, c, |log| - 1, |log|)
    case Used(at) => at == |log| - 1 && SignedBlock(log, c, call.pin, at)
    case Returned(o) => SignedBlock(log, c, call.pin, o.signedAt)
    case Finished => true
    case Failed => true
  }

  /** What a call's phase says of its own variables. */
  ghost predicate Locals(p: Plugin, job: Job, call: Call) {
    && (call.pin.None? ==> call.recorded == [])
    && (call.pin.Some? ==> call.recorded == [ClassifySecret(call.pin.value)])
    && (call.phase.NotStarted? || call.phase.Prompting? ==> call.pin.None?)
    && (job.Sign? && !call.phase.NotStarted? && !call.phase.Failed? ==> OptionsAccepted(job.options))
    && (job.Sign? && job.options.requireFresh && call.pin.None? ==>
          call.phase.NotStarted? || call.phase.Prompting? || call.phase.Failed?)
    && (call.phase.Authed? && job.Sign? ==> call.pin.Some?)
    && (call.phase.Used? || call.phase.Returned? ==> job.Sign?)
    && (call.phase.Returned? ==>
          call.phase.outcome.factors == R2psOpaqueFactors(LastOf(call.recorded), job.options))
  }

  ghost predicate Inv(p: Plugin, s: State) {
    && |s.calls| == |p.jobs|
    && (forall c | 0 <= c < |p.jobs| :: Holding(s.calls[c].phase) <==> s.holder == Some(c))
    && (forall c | 0 <= c < |p.jobs| :: Entries(s.log, p.jobs[c], c, s.calls[c]))
    && (forall c | 0 <= c < |p.jobs| :: Locals(p, p.jobs[c], s.calls[c]))
    && Contiguous(s.log)
    && SignedUnderLatest(s.log)
    && (s.session.Some? ==> s.session.value == Latest(s.log))
  }

  /** Appending an entry of the call that holds the mutex disturbs nobody else's block. */
  lemma OthersUndisturbed(log: seq<Event>, e: Event, job: Job, d: CallId, call: Call)
    requires Entries(log, job, d, call)
    requires d != e.call && !Holding(call.phase)
    ensures Entries(log + [e], job, d, call)
  {
  }

  lemma LogGrows(log: seq<Event>, e: Event)
    requires Contiguous(log) && SignedUnderLatest(log)
    requires EntriesEndTheLog(log, e.call)
    requires e.Signed? ==> e.session == Latest(log)
    ensures Contiguous(log + [e]) && SignedUnderLatest(log + [e])
    ensures Latest(log + [e]) == if e.Authenticated? then Established(|log|) else Latest(log)
  {
    ContiguousGrows(log, e);
    SignedGrows(log, e);
    hide Contiguous, SignedUnderLatest, EntriesEndTheLog;
    assert (log + [e])[..|log|] == log;
  }

  lemma ContiguousGrows(log: seq<Event>, e: Event)
    requires Contiguous(log) && EntriesEndTheLog(log, e.call)
    ensures Contiguous(log + [e])
  {
    var grown := log + [e];
    forall i, j, k | 0 <= i < j < k < |grown| && grown[i].call == grown[k].call ensures grown[j].call == grown[i].call {
      assert log[i] == grown[i] && log[j] == grown[j];
      assert k < |log| ==> log[k] == grown[k];
    }
  }

  lemma SignedGrows(log: seq<Event>, e: Event)
    requires SignedUnderLatest(log) && (e.Signed? ==> e.session == Latest(log))
    ensures SignedUnderLatest(log + [e])
  {
    hide Latest;
    var grown := log + [e];
    forall k | 0 <= k < |grown| && grown[k].Signed? ensures grown[k].session == Latest(grown[..k]) {
      assert grown[..k] == log[..k];
      assert log[..|log|] == log;
    }
  }

  /** The call that steps keeps its own part of the invariant. */
  lemma OwnStep(p: Plugin, s: State, c: CallId, a: Action)
    requires Inv(p, s) && c < |p.jobs| && Apply(p, s, c, a).Some?
    ensures var t := Apply(p, s, c, a).value;
            && Entries(t.log, p.jobs[c], c, t.calls[c])
            && Locals(p, p.jobs[c], t.calls[c])
            && (Holding(t.calls[c].phase) <==> t.holder == Some(c))
  {
    OwnLocals(p, s, c, a);
    OwnEntries(p, s, c, a);
    hide Apply, Inv, Entries, Locals, Holding;
  }

  lemma OwnEntries(p: Plugin, s: State, c: CallId, a: Action)
    requires Inv(p, s) && c < |p.jobs| && Apply(p, s, c, a).Some?
    ensures var t := Apply(p, s, c, a).value;
            && Entries(t.log, p.jobs[c], c, t.calls[c])
            && (Holding(t.calls[c].phase) <==> t.holder == Some(c))
  {
    hide R2psOpaqueFactors, ClassifySecret, Validate, Contiguous, SignedUnderLatest, EntriesAre, EntriesEndTheLog;
    SilentEnds(s.log, c);
    AppendOwn(s.log, Authenticated(c, s.calls[c].pin), c);
    AppendOwn(s.log, Requested(c), c);
    if s.session.Some? {
      AppendOwn(s.log, Signed(c, s.session.value), c);
    }
  }

  lemma SilentEnds(log: seq<Event>, c: CallId)
    ensures EntriesAre(log, c, 0, 0) ==> EntriesEndTheLog(log, c)
  {
  }

  lemma AppendOwn(log: seq<Event>, e: Event, c: CallId)
    requires e.call == c
    ensures EntriesAre(log, c, 0, 0) ==> EntriesAre(log + [e], c, |log|, |log| + 1)
    ensures EntriesAre(log, c, |log| - 1, |log|) ==> EntriesAre(log + [e], c, |log| - 1, |log| + 1)
    ensures EntriesEndTheLog(log, c) ==> EntriesEndTheLog(log + [e], c)
  {
    var grown := log + [e];
    assert forall i | 0 <= i < |log| :: grown[i] == log[i];
  }

  lemma OwnLocals(p: Plugin, s: State, c: CallId, a: Action)
    requires Inv(p, s) && c < |p.jobs| && Apply(p, s, c, a).Some?
    ensures Locals(p, p.jobs[c], Apply(p, s, c, a).value.calls[c])
  {
    hide R2psOpaqueFactors, ClassifySecret, Validate, Entries, Contiguous, SignedUnderLatest, Latest;
  }

  /** A step grows the log by at most one entry of its own call, made while holding the mutex. */
  lemma StepFrame(p: Plugin, s: State, c: CallId, a: Action)
    requires Inv(p, s) && c < |p.jobs| && Apply(p, s, c, a).Some?
    ensures var t := Apply(p, s, c, a).value;
            && |t.calls| == |s.calls|
            && (forall d | 0 <= d < |p.jobs| && d != c :: t.calls[d] == s.calls[d])
            && (t.log == s.log ||
                (|t.log| == |s.log| + 1 && t.log == s.log + [t.log[|s.log|]] && t.log[|s.log|].call == c
                 && s.holder == Some(c) && EntriesEndTheLog(s.log, c)
                 && (t.log[|s.log|].Signed? ==> t.log[|s.log|].session == Latest(s.log))))
            && (t.session.None? || (t.session == s.session && (t.log == s.log || !t.log[|s.log|].Authenticated?))
                || (t.log != s.log && t.log[|s.log|].Authenticated? && t.session == Some(Established(|s.log|))))
            && (t.holder == s.holder || (s.holder == None && t.holder == Some(c)) || (s.holder == Some(c) && t.holder == None))
  {
    hide R2psOpaqueFactors, ClassifySecret, Validate, Locals;
  }

  lemma StepKeepsInv(p: Plugin, s: State, c: CallId, a: Action)
    requires Inv(p, s) && c < |p.jobs| && Apply(p, s, c, a).Some?
    ensures Inv(p, Apply(p, s, c, a).value)
  {
    var t := Apply(p, s, c, a).value;
    OwnStep(p, s, c, a);
    StepFrame(p, s, c, a);
    hide Apply, Locals, Entries, Contiguous, SignedUnderLatest, Latest, Holding, EntriesEndTheLog;
    hide R2psOpaqueFactors, ClassifySecret, Validate;
    if t.log != s.log {
      LogGrows(s.log, t.log[|s.log|]);
    }
    forall d | 0 <= d < |p.jobs| ensures Locals(p, p.jobs[d], t.calls[d]) {
      assert Locals(p, p.jobs[d], s.calls[d]);
    }
    forall d | 0 <= d < |p.jobs| ensures Holding(t.calls[d].phase) <==> t.holder == Some(d) {
      assert Holding(s.calls[d].phase) <==> s.holder == Some(d);
    }
    forall d | 0 <= d < |p.jobs| && d != c ensures Entries(t.log, p.jobs[d], d, t.calls[d]) {
      assert Entries(s.log, p.jobs[d], d, s.calls[d]);
      if t.log != s.log {
        OthersUndisturbed(s.log, t.log[|s.log|], p.jobs[d], d, s.calls[d]);
      }
    }
  }

  lemma {:induction false} EveryRunKeepsInv(p: Plugin, inherited: bool, steps: seq<(CallId, Action)>)
    requires Run(p, Initial(p, inherited), steps).Some?
    ensures Inv(p, Run(p, Initial(p, inherited), steps).value)
  {
    if steps != [] {
      var n := |steps| - 1;
      EveryRunKeepsInv(p, inherited, steps[..n]);
      StepKeepsInv(p, Run(p, Initial(p, inherited), steps[..n]).value, steps[n].0, steps[n].1);
    }
  }

  // ---------------------------------------------------------------- results

  ghost predicate Reaches(p: Plugin, inherited: bool, steps: seq<(CallId, Action)>, s: State) {
    Run(p, Initial(p, inherited), steps) == Some(s)
  }

  /** `c` has returned a signature with these factors. */
  predicate Reported(s: State, c: CallId, o: Outcome) {
    c < |s.calls| && s.calls[c].phase == Returned(o)
  }

  /** The signature was made under the session that `pin`, entered by the same call, had just established. */
  predicate UnderOwnSession(s: State, c: CallId, o: Outcome, pin: bytes) {
    && 1 <= o.signedAt < |s.log|
    && s.log[o.signedAt - 1] == Authenticated(c, Some(pin))
    && s.log[o.signedAt] == Signed(c, Established(o.signedAt - 1))
  }

  predicate Entered(steps: seq<(CallId, Action)>, c: CallId, pin: bytes) {
    (c, Answer(Ok(pin))) in steps
  }

  /** The PIN a call holds is one its own prompt returned in this run. */
  lemma {:induction false} PinsAreEntered(p: Plugin, inherited: bool, steps: seq<(CallId, Action)>, s: State, c: CallId, pin: bytes)
    requires Reaches(p, inherited, steps, s)
    requires c < |s.calls| && s.calls[c].pin == Some(pin)
    ensures Entered(steps, c, pin)
  {
    hide R2psOpaqueFactors, ClassifySecret, Validate;
    if steps != [] {
      var n := |steps| - 1;
      var before := Run(p, Initial(p, inherited), steps[..n]).value;
      assert steps == steps[..n] + [steps[n]];
      if before.calls[c].pin == Some(pin) {
        PinsAreEntered(p, inherited, steps[..n], before, c, pin);
      }
    }
  }

  /** In every interleaving, a reported knowledge factor is the class of the PIN this very call
      collected, and the signature was made under the session that PIN established. Two categories
      are reported exactly when the call collected a PIN that has a class. */
  lemma KnowledgeIsTheCallsOwn(p: Plugin, inherited: bool, steps: seq<(CallId, Action)>, s: State, c: CallId, o: Outcome)
    requires Reaches(p, inherited, steps, s) && Reported(s, c, o)
    ensures forall f | f in o.factors.factors && f.category == Knowledge ::
              exists pin :: Entered(steps, c, pin) && ClassifySecret(pin) == Some(f.method_) && UnderOwnSession(s, c, o, pin)
    ensures TwoCategories(o.factors.factors) <==>
              s.calls[c].pin.Some? && ClassifySecret(s.calls[c].pin.value).Some?
    ensures o.factors.shortfall == None <==> TwoCategories(o.factors.factors)
  {
    EveryRunKeepsInv(p, inherited, steps);
    hide R2psOpaqueFactors, ClassifySecret, R2psWebAuthnFactors, Run, Contiguous, SignedUnderLatest, OptionsAccepted, TwoCategories;
    var call := s.calls[c];
    assert Locals(p, p.jobs[c], call) && Entries(s.log, p.jobs[c], c, call);
    if call.pin.Some? {
      PinsAreEntered(p, inherited, steps, s, c, call.pin.value);
    }
    var pin := LastOf(call.recorded);
    KnownClass(call);
    R2psFactorsAreSound(false, None, pin, p.jobs[c].options);
  }

  lemma KnownClass(call: Call)
    requires call.pin.None? ==> call.recorded == []
    requires call.pin.Some? ==> call.recorded == [ClassifySecret(call.pin.value)]
    ensures var pin := LastOf(call.recorded);
            && (pin.Some? <==> call.pin.Some?)
            && (pin.Some? ==> pin.value == ClassifySecret(call.pin.value))
            && (PinClassKnown(pin) ==> pin.value.value in Knowledge.Methods())
  {
  }

  /** A sign that asked for fresh authentication returns a signature only after its own prompt and
      its own authentication, whatever session was cached or established meanwhile. */
  lemma FreshSignAuthenticates(p: Plugin, inherited: bool, steps: seq<(CallId, Action)>, s: State, c: CallId, o: Outcome)
    requires Reaches(p, inherited, steps, s) && Reported(s, c, o)
    requires p.jobs[c].Sign? && p.jobs[c].options.requireFresh
    ensures exists pin :: Entered(steps, c, pin) && UnderOwnSession(s, c, o, pin)
  {
    EveryRunKeepsInv(p, inherited, steps);
    hide Run, Contiguous, SignedUnderLatest;
    assert Locals(p, p.jobs[c], s.calls[c]) && Entries(s.log, p.jobs[c], c, s.calls[c]);
    PinsAreEntered(p, inherited, steps, s, c, s.calls[c].pin.value);
  }

  function BlockStart(call: Call, o: Outcome): int {
    o.signedAt - if call.pin.Some? then 1 else 0
  }

  /** The server sees each call's requests in one piece, every signature under the session
      established last, and for a returned signature nothing of that call but it and the
      authentication right before it. */
  lemma LogIsSerial(p: Plugin, inherited: bool, steps: seq<(CallId, Action)>, s: State)
    requires Reaches(p, inherited, steps, s)
    ensures Contiguous(s.log) && SignedUnderLatest(s.log)
    ensures forall c: CallId, o: Outcome | Reported(s, c, o) ::
              EntriesAre(s.log, c, BlockStart(s.calls[c], o), o.signedAt + 1)
  {
    EveryRunKeepsInv(p, inherited, steps);
    hide Run, Contiguous, SignedUnderLatest;
    forall c: CallId, o: Outcome | Reported(s, c, o)
      ensures EntriesAre(s.log, c, BlockStart(s.calls[c], o), o.signedAt + 1)
    {
      assert Entries(s.log, p.jobs[c], c, s.calls[c]);
    }
  }

  // ------------------------------------------------------- when a PIN is asked for

  /** How a sign begins: refused without a prompt where its options or the mode are not acceptable;
      prompted where it must be fresh or no session is cached; and otherwise not prompted at all. */
  lemma SignBegins(p: Plugin, s: State, c: CallId)
    requires |s.calls| == |p.jobs| && c < |p.jobs| && p.jobs[c].Sign? && s.calls[c].phase == NotStarted
    ensures var t := Apply(p, s, c, Begin);
            var options := p.jobs[c].options;
            var refused := !OptionsAccepted(options) || !p.opaqueMode;
            && (refused ==> t.Some? && t.value.calls[c].phase == Failed)
            && (!refused && options.requireFresh ==> t.Some? && t.value.calls[c].phase == Prompting)
            && (!refused && !options.requireFresh && s.holder == None && s.session == None ==>
                  t.Some? && t.value.calls[c].phase == Prompting)
            && (!refused && !options.requireFresh && s.holder == None && s.session != None ==>
                  t.Some? && t.value.calls[c].phase == Ready && t.value.calls[c].pin == s.calls[c].pin)
            && (t.Some? ==> t.value.session == s.session && t.value.log == s.log && t.value.holder == s.holder)
  {
    hide Validate;
  }

  /** A prompt that is refused ends its call: it falls back to no cached session. */
  lemma RefusedPromptEnds(p: Plugin, s: State, c: CallId, answer: Result<bytes>)
    requires |s.calls| == |p.jobs| && c < |p.jobs| && s.calls[c].phase == Prompting && answer.Err?
    ensures var t := Apply(p, s, c, Answer(answer));
            && t.Some? && t.value == s.(calls := s.calls[c := s.calls[c].(phase := Failed)])
            && forall a :: Apply(p, t.value, c, a) == None
  {
  }

  /** A failed authentication ends its call: nothing is signed under the session it was to replace. */
  lemma FailedAuthenticationEnds(p: Plugin, s: State, c: CallId, keep: bool)
    requires |s.calls| == |p.jobs| && c < |p.jobs| && Apply(p, s, c, AuthFail(keep)).Some?
    ensures var t := Apply(p, s, c, AuthFail(keep)).value;
            && t.calls[c].phase == Failed && t.holder == None && t.log == s.log + [AuthRefused(c)]
            && forall a :: Apply(p, t, c, a) == None
  {
  }

  /** A returned signature is reported with the held remote key, and the PIN's class exactly when
      the call collected a PIN that has one. */
  lemma ReportsExactly(p: Plugin, inherited: bool, steps: seq<(CallId, Action)>, s: State, c: CallId, o: Outcome)
    requires Reaches(p, inherited, steps, s) && Reported(s, c, o)
    ensures var held := AuthFactor(Possession, "key_in_remote_wscd");
            o.factors ==
            if s.calls[c].pin.None? then AuthFactors([held], Some(NoSecondFactor))
            else match ClassifySecret(s.calls[c].pin.value)
                 case Some(class_) => AuthFactors([held, AuthFactor(Knowledge, class_)], None)
                 case None => AuthFactors([held], Some(PinUnclassified))
  {
    EveryRunKeepsInv(p, inherited, steps);
    hide Run, Contiguous, SignedUnderLatest, ClassifySecret, DeriveFactors, Validate, Entries;
    var call := s.calls[c];
    assert Locals(p, p.jobs[c], call);
    var options := p.jobs[c].options;
    if call.pin.Some? {
      KnownClass(call);
      ReportedWithPin(REMOTE_KEY, LastOf(call.recorded), false, None, options, NoSecondFactor);
    } else {
      ReportedWithoutPin(REMOTE_KEY, false, None, options, NoSecondFactor);
    }
  }
}
