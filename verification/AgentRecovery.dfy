/** Recovery discipline over whole runs: once a failure is open, no change is dispatched before a read
    has succeeded. The one exception is a read batch that drops the recovery flags. */
module AgentRecovery {
  import opened Wrappers
  import opened AgentState
  import opened AgentTool
  import opened AgentBatch
  import opened AgentModel
  import opened AgentRun
  import opened AgentFacts
  import opened AgentTidy

  /** A failure handed back for diagnosis, or an effectful call that failed or timed out while the run went on. */
  predicate Hazard(cfg: Config, e: Event) {
    e.kind.Diagnosed? || (cfg.Effectful(e.op) && (e.kind.Unresolved? || e.kind.CommandFailed?))
  }

  predicate ReadSucceeded(cfg: Config, e: Event) {
    cfg.IsRead(e.op) && e.kind.Returned?
  }

  predicate ChangeDispatched(cfg: Config, e: Event) {
    cfg.Effectful(e.op) && e.dispatched
  }

  /** Between a hazard and a later dispatched change, some read succeeded. */
  ghost predicate Disciplined(cfg: Config, log: seq<Event>) {
    forall i, j | 0 <= i < j < |log| && Hazard(cfg, log[i]) && ChangeDispatched(cfg, log[j]) ::
      exists k :: i < k < j && ReadSucceeded(cfg, log[k])
  }

  /** Some hazard has had no successful read after it. */
  predicate HazardOpen(cfg: Config, log: seq<Event>) {
    log != [] &&
    var last := log[|log| - 1];
    !ReadSucceeded(cfg, last) && (Hazard(cfg, last) || HazardOpen(cfg, log[..|log| - 1]))
  }

  lemma {:induction false} HazardOpenMeaning(cfg: Config, log: seq<Event>)
    ensures HazardOpen(cfg, log) <==>
            exists i :: 0 <= i < |log| && Hazard(cfg, log[i]) && forall k | i < k < |log| :: !ReadSucceeded(cfg, log[k])
  {
    if log != [] {
      var init := log[..|log| - 1];
      HazardOpenMeaning(cfg, init);
      if HazardOpen(cfg, log) && !Hazard(cfg, log[|log| - 1]) {
        var i :| 0 <= i < |init| && Hazard(cfg, init[i]) && forall k | i < k < |init| :: !ReadSucceeded(cfg, init[k]);
        assert Hazard(cfg, log[i]) && forall k | i < k < |log| :: !ReadSucceeded(cfg, log[k]);
      }
      if i :| 0 <= i < |log| && Hazard(cfg, log[i]) && forall k | i < k < |log| :: !ReadSucceeded(cfg, log[k]) {
        if i < |init| {
          assert Hazard(cfg, init[i]) && forall k | i < k < |init| :: !ReadSucceeded(cfg, init[k]);
        }
      }
    }
  }

  lemma HazardOpenAppend(cfg: Config, log: seq<Event>, e: Event)
    ensures HazardOpen(cfg, log + [e]) <==> !ReadSucceeded(cfg, e) && (Hazard(cfg, e) || HazardOpen(cfg, log))
  {
    assert (log + [e])[..|log|] == log;
  }

  lemma DisciplinedAppend(cfg: Config, log: seq<Event>, e: Event)
    requires Disciplined(cfg, log)
    requires ChangeDispatched(cfg, e) ==> !HazardOpen(cfg, log)
    ensures Disciplined(cfg, log + [e])
  {
    var all := log + [e];
    forall i, j | 0 <= i < j < |all| && Hazard(cfg, all[i]) && ChangeDispatched(cfg, all[j])
      ensures exists k :: i < k < j && ReadSucceeded(cfg, all[k])
    {
      if j < |log| {
        var k :| i < k < j && ReadSucceeded(cfg, log[k]);
        assert ReadSucceeded(cfg, all[k]);
      } else {
        HazardOpenMeaning(cfg, log);
        assert Hazard(cfg, log[i]);
        var k :| i < k < |log| && ReadSucceeded(cfg, log[k]);
        assert ReadSucceeded(cfg, all[k]);
      }
    }
  }

  /** What the registry never does: ask for an approval of a read. */
  predicate Honest(cfg: Config, op: Operation, env: ToolEnv) {
    env.outcome.Raised? && env.outcome.code.ApprovalRequired? ==> cfg.Effectful(op)
  }

  /** How each kind of handling leaves the recovery flags. */
  ghost predicate FlagRule(cfg: Config, s: State, op: Operation, u: Update, kind: Kind) {
    match kind
    case Diagnosed =>
      && u.status.Running?
      && u.recoveryRead == Some(s.recoveryRead || cfg.Effectful(op) || s.recoveryDiagnosis)
      && u.recoveryDiagnosis == Some(!s.recoveryDiagnosis || cfg.Effectful(op))
    case Unresolved =>
      u.status.Running? && cfg.goalLoop && u.recoveryRead == Some(s.recoveryRead || cfg.Effectful(op)) && u.recoveryDiagnosis.None?
    case CommandFailed =>
      u.status.Running? && cfg.Effectful(op) && u.recoveryRead == Some(true) && u.recoveryDiagnosis.None?
    case Returned =>
      && (cfg.IsRead(op) ==> !u.recoveryRead.GetOr(s.recoveryRead) && !u.recoveryDiagnosis.GetOr(s.recoveryDiagnosis))
      && (!cfg.IsRead(op) ==> u.recoveryRead.None? && u.recoveryDiagnosis.None?)
      && !u.status.Paused?
    case Denied => !u.status.Paused?
    case AskedApproval => u.status.Paused? && u.recoveryRead.None? && u.recoveryDiagnosis.None?
    case Repaired => u.status.Running? && u.recoveryRead.None? && u.recoveryDiagnosis.None?
    case Ended => u.status.Stopped? && u.recoveryRead.None? && u.recoveryDiagnosis.None?
    case Lost => false
  }

  lemma FailureFlags(cfg: Config, s: State, index: nat, remaining: int, env: ToolEnv, code: Code, schemaValid: bool,
                     fingerprint: Option<nat>, commandSize: Option<nat>, record: Record)
    requires index < |s.calls| && cfg.Valid()
    requires record.status.AwaitingApproval? ==> fingerprint.Some?
    ensures var (u, kind) := HandleFailure(cfg, s, index, remaining, env, code, schemaValid, fingerprint, commandSize, record);
            FlagRule(cfg, s, s.calls[index].op, u, kind)
            && !kind.Denied? && !kind.Returned?
            && (kind.AskedApproval? ==> record.status.AwaitingApproval?)
  {
  }

  lemma SchemaFlags(cfg: Config, s: State, index: nat, remaining: int, env: ToolEnv, code: Code, schemaValid: bool,
                     fingerprint: Option<nat>, commandSize: Option<nat>, record: Record)
    requires index < |s.calls| && cfg.Valid()
    requires record.status.AwaitingApproval? ==> fingerprint.Some?
    ensures var (u, kind) := HandleSchema(cfg, s, index, remaining, env, code, schemaValid, fingerprint, commandSize, record);
            FlagRule(cfg, s, s.calls[index].op, u, kind)
            && !kind.Denied? && !kind.Returned?
            && (kind.AskedApproval? ==> record.status.AwaitingApproval?)
  {
    hide HandleFailure;
    var repairable := !schemaValid && code.InvalidArguments? && s.calls[index].op.tool in cfg.registry && |s.calls| == 1
                      && (TrailingRepairs(s.results) < 2 || cfg.goalLoop);
    var marked := if repairable then record.(phase := InputValidation) else record;
    FailureFlags(cfg, s, index, remaining, env, code, schemaValid, fingerprint, commandSize, marked);
  }

  lemma RepetitionFlags(cfg: Config, s: State, index: nat, remaining: int, env: ToolEnv, code: Code, schemaValid: bool,
                     fingerprint: Option<nat>, commandSize: Option<nat>, record: Record)
    requires index < |s.calls| && cfg.Valid()
    requires record.status.AwaitingApproval? ==> fingerprint.Some?
    ensures var (u, kind) := HandleRepetition(cfg, s, index, remaining, env, code, schemaValid, fingerprint, commandSize, record);
            FlagRule(cfg, s, s.calls[index].op, u, kind)
            && !kind.Denied? && !kind.Returned?
            && (kind.AskedApproval? ==> record.status.AwaitingApproval?)
  {
    hide HandleSchema;
    var marked := if code.ToolRepetition? then record.(phase := RepetitionGuard) else record;
    SchemaFlags(cfg, s, index, remaining, env, code, schemaValid, fingerprint, commandSize, marked);
  }

  lemma TimeoutFlags(cfg: Config, s: State, index: nat, remaining: int, env: ToolEnv, code: Code, schemaValid: bool,
                     fingerprint: Option<nat>, commandSize: Option<nat>, record: Record)
    requires index < |s.calls| && cfg.Valid()
    requires record.status.AwaitingApproval? ==> fingerprint.Some?
    ensures var (u, kind) := HandleTimeout(cfg, s, index, remaining, env, code, schemaValid, fingerprint, commandSize, record);
            FlagRule(cfg, s, s.calls[index].op, u, kind)
            && !kind.Denied? && !kind.Returned?
            && (kind.AskedApproval? ==> record.status.AwaitingApproval?)
  {
    hide HandleRepetition;
    var unresolved := cfg.goalLoop && schemaValid && !record.status.AwaitingApproval? && TimedOut(code)
                      && (|s.calls| == 1 || forall c | c in s.calls :: cfg.IsRead(c.op));
    var marked := if unresolved then record.(phase := OutcomeUnknown) else record;
    RepetitionFlags(cfg, s, index, remaining, env, code, schemaValid, fingerprint, commandSize, marked);
  }

  lemma ErrorFlags(cfg: Config, s: State, index: nat, remaining: int, env: ToolEnv, code: Code, schemaValid: bool,
                   fingerprint: Option<nat>, commandSize: Option<nat>)
    requires index < |s.calls| && cfg.Valid()
    ensures var (u, kind) := HandleError(cfg, s, index, remaining, env, code, schemaValid, fingerprint, commandSize);
            FlagRule(cfg, s, s.calls[index].op, u, kind)
            && !kind.Denied? && !kind.Returned?
            && (kind.AskedApproval? ==> code.ApprovalRequired? && fingerprint.Some?)
  {
    hide HandleTimeout, Count;
    TimeoutFlags(cfg, s, index, remaining, env, code, schemaValid, fingerprint, commandSize,
                 FailureRecord(cfg, s.calls[index], code, fingerprint));
  }

  lemma HandleFlags(cfg: Config, s: State, index: nat, remaining: int, env: ToolEnv)
    requires index < |s.calls| && cfg.Valid()
    ensures var (u, kind) := Handle(cfg, s, index, remaining, env);
            FlagRule(cfg, s, s.calls[index].op, u, kind)
            && (kind.Denied? <==> s.calls[index].callId in s.rejected)
            && (kind.Denied? && u.status.Running? ==> u.recoveryRead == Some(false) && u.recoveryDiagnosis == Some(false))
            && (kind.AskedApproval? ==>
                  IsDispatched(cfg, s, s.calls[index], env) && env.outcome.Raised? && env.outcome.code.ApprovalRequired?)
  {
    hide HandleError, Repeated;
    var call := s.calls[index];
    if call.callId !in s.rejected {
      match Admit(cfg, s, call, env)
      case Refused(code, schemaValid) => ErrorFlags(cfg, s, index, remaining, env, code, schemaValid, None, None);
      case Dispatched(Value(_, _)) =>
      case Dispatched(Crashed) =>
      case Dispatched(Raised(code, fingerprint, commandSize)) =>
        ErrorFlags(cfg, s, index, remaining, env, code, true, fingerprint, commandSize);
    }
  }

  /** A change is only dispatched while both recovery flags are down. */
  lemma DispatchNeedsClearFlags(cfg: Config, s: State, call: Call, env: ToolEnv)
    ensures IsDispatched(cfg, s, call, env) && cfg.Effectful(call.op) ==> !s.recoveryRead && !s.recoveryDiagnosis
  {
  }

  /** The handler itself reports a code that the run gives to calls it refuses before any dispatch. */
  predicate Borrowed(env: ToolEnv) {
    env.outcome.Raised? && (env.outcome.code.UnknownTool? || env.outcome.code.ToolRepetition?)
  }

  /** A dispatched change that does not succeed while the run goes on is a hazard, unless its handler borrowed a code of
      the run's own: then it is taken for a refused call. */
  lemma UnsuccessfulChangeIsHazard(cfg: Config, s: State, index: nat, remaining: int, env: ToolEnv)
    requires index < |s.calls| && cfg.Effectful(s.calls[index].op) && IsDispatched(cfg, s, s.calls[index], env)
    ensures var call := s.calls[index];
            var (u, kind) := Handle(cfg, s, index, remaining, env);
            u.status.Running? && !kind.Returned? ==>
              || Hazard(cfg, Event(call.callId, call.op, call.round, true, kind))
              || (kind.Repaired? && Borrowed(env))
  {
  }

  // ----- read batches -----

  /** After the last successful read, a diagnosed failure is followed by a timed-out sibling. */
  predicate TimeoutHidesDiagnosis(cfg: Config, events: seq<Event>) {
    events != [] &&
    var last, before := events[|events| - 1], events[..|events| - 1];
    !ReadSucceeded(cfg, last) && !last.kind.Diagnosed?
    && if last.kind.Unresolved? then HazardOpen(cfg, before) else TimeoutHidesDiagnosis(cfg, before)
  }

  /** The batch that loses the guard: it starts with only the diagnosis flag up. */
  predicate DropsGuard(cfg: Config, s: State, events: seq<Event>) {
    s.recoveryDiagnosis && !s.recoveryRead && TimeoutHidesDiagnosis(cfg, events)
  }

  ghost predicate ReadGroup(cfg: Config, s: State, group: seq<Call>, envs: seq<ToolEnv>) {
    && cfg.Valid() && |group| == |envs|
    && forall k | 0 <= k < |group| ::
         cfg.IsRead(group[k].op) && group[k].callId !in s.rejected && OpenCall(s.results, group[k].callId)
         && Honest(cfg, group[k].op, envs[k])
  }

  /** The merge after some siblings, related to what they recorded; `log` is the history before the batch. */
  ghost predicate MergeFlags(cfg: Config, s: State, log: seq<Event>, events: seq<Event>, m: Merge) {
    && m.pending == []
    && (HazardOpen(cfg, log + events) && !DropsGuard(cfg, s, events) ==> m.recoveryRead || m.recoveryDiagnosis)
    && (DropsGuard(cfg, s, events) ==> !m.recoveryRead && !m.recoveryDiagnosis && HazardOpen(cfg, events))
    && (!s.recoveryRead && !s.recoveryDiagnosis && HazardOpen(cfg, log + events) ==> m.recoveryDiagnosis)
    && (HazardOpen(cfg, log + events) && !HazardOpen(cfg, events) ==>
          m.recoveryDiagnosis == s.recoveryDiagnosis && m.recoveryRead == s.recoveryRead)
    && (s.recoveryDiagnosis && HazardOpen(cfg, events) ==> !m.recoveryDiagnosis)
    && (HazardOpen(cfg, events) ==> HazardOpen(cfg, log + events))
    && Disciplined(cfg, log + events)
  }

  /** A sibling read of the batch, and how its update moves the flags. */
  ghost predicate SiblingRead(cfg: Config, s: State, m: Merge, e: Event, u: Update, next: Merge) {
    && cfg.IsRead(e.op) && !e.kind.AskedApproval? && !e.kind.Denied? && !e.kind.CommandFailed? && !e.kind.Lost?
    && next.pending == m.pending
    && match e.kind
       case Diagnosed => next.recoveryRead == (s.recoveryRead || s.recoveryDiagnosis) && next.recoveryDiagnosis == !s.recoveryDiagnosis
       case Unresolved => cfg.goalLoop && next.recoveryRead == s.recoveryRead && next.recoveryDiagnosis == m.recoveryDiagnosis
       case Returned => true
       case _ => next.recoveryRead == m.recoveryRead && next.recoveryDiagnosis == m.recoveryDiagnosis
  }

  /** How one turn of the merge loop moves the flags. */
  lemma AbsorbFlags(cfg: Config, s: State, m: Merge, index: nat, u: Update)
    requires index < |s.calls|
    ensures var next, call := Absorb(cfg, s, m, index, u), s.calls[index];
            var read := cfg.IsRead(call.op) && u.status.Running? && SucceededIn(u.results.GetOr([]), call.callId);
            && next.recoveryRead == (!read && u.recoveryRead.GetOr(m.recoveryRead))
            && next.recoveryDiagnosis == (!read && u.recoveryDiagnosis.GetOr(m.recoveryDiagnosis))
  {
    hide DropCall, OnlyCall, SucceededIn;
  }

  lemma SiblingIsRead(cfg: Config, s: State, m: Merge, k: nat, call: Call, env: ToolEnv, share: nat, u: Update, e: Event)
    requires cfg.Valid() && Member(cfg, s, k, call, env, share, u, e) && cfg.IsRead(call.op) && Honest(cfg, call.op, env)
    requires call.callId !in s.rejected && OpenCall(s.results, call.callId)
    ensures SiblingRead(cfg, s, m, e, u, Absorb(cfg, s, m, s.callIndex + k, u))
  {
    hide Handle, Absorb, RecordRule, OpenCall, Shape;
    HandleFlags(cfg, s, s.callIndex + k, share, env);
    AbsorbFlags(cfg, s, m, s.callIndex + k, u);
    AbsorbQueue(cfg, s, m, k, call, env, share, u, e);
    SucceededMeansReturned(cfg, s, k, call, env, share, u, e);
  }

  lemma SucceededMeansReturned(cfg: Config, s: State, k: nat, call: Call, env: ToolEnv, share: nat, u: Update, e: Event)
    requires Member(cfg, s, k, call, env, share, u, e) && OpenCall(s.results, call.callId)
    ensures SucceededIn(u.results.GetOr([]), call.callId) <==> e.kind.Returned?
  {
    hide Handle;
    forall r | r in u.results.value && r.callId == call.callId ensures r == NewRecord(u).value || r.status.AwaitingApproval? {
      DropPauseKeeps(s.results, call.callId, r);
    }
    assert NewRecord(u).value in u.results.value;
  }

  lemma SiblingStep(cfg: Config, s: State, log: seq<Event>, events: seq<Event>, m: Merge, e: Event, u: Update, next: Merge)
    requires MergeFlags(cfg, s, log, events, m) && SiblingRead(cfg, s, m, e, u, next)
    ensures MergeFlags(cfg, s, log, events + [e], next)
  {
    assert log + (events + [e]) == (log + events) + [e];
    HazardOpenAppend(cfg, log + events, e);
    HazardOpenAppend(cfg, events, e);
    DisciplinedAppend(cfg, log + events, e);
    assert (events + [e])[..|events|] == events;
  }

  lemma {:induction false} MergeFlagsUpTo(cfg: Config, s: State, log: seq<Event>, group: seq<Call>, envs: seq<ToolEnv>,
                                          share: nat, updates: seq<Update>, events: seq<Event>, n: nat)
    requires Siblings(cfg, s, group, envs, share, updates, events) && n <= |envs| && ReadGroup(cfg, s, group, envs)
    requires Disciplined(cfg, log) && (HazardOpen(cfg, log) ==> s.recoveryRead || s.recoveryDiagnosis)
    ensures |events| == |envs| && MergeFlags(cfg, s, log, events[..n], MergeUpTo(cfg, s, updates, n))
  {
    hide Siblings, Member, MergeUpTo, Absorb, MergeFlags, SiblingRead, ReadGroup, Disciplined, HazardOpen;
    SiblingSizes(cfg, s, group, envs, share, updates, events);
    MergeUnfold(cfg, s, updates, n);
    if n == 0 {
      MergeFlagsStart(cfg, s, log);
      assert events[..0] == [];
    } else {
      var k := n - 1;
      MergeFlagsUpTo(cfg, s, log, group, envs, share, updates, events, k);
      var m := MergeUpTo(cfg, s, updates, k);
      MemberAt(cfg, s, group, envs, share, updates, events, k);
      ReadGroupAt(cfg, s, group, envs, k);
      SiblingIsRead(cfg, s, m, k, group[k], envs[k], share, updates[k], events[k]);
      SiblingStep(cfg, s, log, events[..k], m, events[k], updates[k], Absorb(cfg, s, m, s.callIndex + k, updates[k]));
      assert events[..n] == events[..k] + [events[k]];
    }
  }

  lemma ReadGroupAt(cfg: Config, s: State, group: seq<Call>, envs: seq<ToolEnv>, k: nat)
    requires ReadGroup(cfg, s, group, envs) && k < |envs|
    ensures |group| == |envs| && cfg.Valid() && cfg.IsRead(group[k].op) && group[k].callId !in s.rejected
    ensures OpenCall(s.results, group[k].callId) && Honest(cfg, group[k].op, envs[k])
  {
    hide OpenCall, Honest;
  }

  lemma MergeFlagsStart(cfg: Config, s: State, log: seq<Event>)
    requires Disciplined(cfg, log) && (HazardOpen(cfg, log) ==> s.recoveryRead || s.recoveryDiagnosis)
    ensures MergeFlags(cfg, s, log, [], StartMerge(s))
  {
    assert log + [] == log;
  }

  /** Exactly when a read batch keeps the guard: unless it drops it, an open hazard leaves a recovery flag up. */
  lemma BatchKeepsGuard(cfg: Config, s: State, envs: seq<ToolEnv>, log: seq<Event>)
    requires cfg.Valid() && 1 < |envs| <= cfg.maxOutput - s.outputBytes && s.callIndex + |envs| <= |s.calls|
    requires ReadGroup(cfg, s, Group(s, |envs|), envs)
    requires Disciplined(cfg, log) && (HazardOpen(cfg, log) ==> s.recoveryRead || s.recoveryDiagnosis)
    ensures var (u, events) := BatchResult(cfg, s, envs);
            var t := Apply(s, u);
            && Disciplined(cfg, log + events) && !t.status.Paused?
            && ((HazardOpen(cfg, log + events) ==> t.recoveryRead || t.recoveryDiagnosis) <==> !DropsGuard(cfg, s, events))
  {
    hide Handle, Shape, Absorb, MergeUpTo, SiblingUpdates, Conclude, Apply, Member, ReadGroup;
    var n, share := |envs|, Share(cfg, s, |envs|);
    SiblingsAre(cfg, s, share, envs);
    var (updates, events) := SiblingUpdates(cfg, s, share, envs);
    MergeFlagsUpTo(cfg, s, log, Group(s, n), envs, share, updates, events, n);
    assert events[..n] == events;
    ConcludeCases(s, n, MergeUpTo(cfg, s, updates, n));
  }

  // ----- whole runs -----

  predicate HonestInput(cfg: Config, r: Run, input: Input)
    requires Accepts(cfg, r, input)
  {
    var envs := Outcomes(input);
    forall i | 0 <= i < |envs| :: Honest(cfg, r.s.calls[r.s.callIndex + i].op, envs[i])
  }

  function Outcomes(input: Input): seq<ToolEnv> {
    if input.FromTools? || input.Interrupted? then input.envs else []
  }

  lemma HonestAt(cfg: Config, r: Run, envs: seq<ToolEnv>, k: nat)
    requires Accepts(cfg, r, FromTools(envs)) && HonestInput(cfg, r, FromTools(envs)) && k < |envs|
    ensures Honest(cfg, r.s.calls[r.s.callIndex + k].op, envs[k])
  {
    hide Honest;
    assert Outcomes(FromTools(envs))[k] == envs[k];
  }

  predicate KeepsGuard(cfg: Config, r: Run, input: Input)
    requires Accepts(cfg, r, input)
  {
    input.FromTools? && |input.envs| > 1 ==> !DropsGuard(cfg, r.s, ToolUpdate(cfg, r.s, input.envs).1)
  }

  ghost predicate HonestRun(cfg: Config, inputs: seq<Input>)
    requires ValidRun(cfg, inputs)
  {
    inputs == [] || (HonestRun(cfg, inputs[..|inputs| - 1])
                     && HonestInput(cfg, After(cfg, inputs[..|inputs| - 1]), inputs[|inputs| - 1]))
  }

  ghost predicate GuardKeptThroughout(cfg: Config, inputs: seq<Input>)
    requires ValidRun(cfg, inputs)
  {
    inputs == [] || (GuardKeptThroughout(cfg, inputs[..|inputs| - 1])
                     && KeepsGuard(cfg, After(cfg, inputs[..|inputs| - 1]), inputs[|inputs| - 1]))
  }

  /** The invariant: an open hazard is covered by a flag, and no verdict is pending while one is open. */
  ghost predicate Covered(cfg: Config, s: State, log: seq<Event>) {
    && Disciplined(cfg, log)
    && (s.status.Running? && HazardOpen(cfg, log) ==> s.recoveryRead || s.recoveryDiagnosis)
    && (s.status.Paused? ==> Queue(s) != [] && !HazardOpen(cfg, log) && cfg.Effectful(Queue(s)[0].op))
    && (s.status.Running? && Queue(s) != [] && Queue(s)[0].callId in s.rejected ==>
          !HazardOpen(cfg, log) && cfg.Effectful(Queue(s)[0].op))
  }

  lemma CoveredSingle(cfg: Config, s: State, env: ToolEnv, remaining: int, log: seq<Event>, issued: set<nat>)
    requires cfg.Valid() && TidyState(s, issued) && s.status.Running? && s.callIndex < |s.calls|
    requires Honest(cfg, s.calls[s.callIndex].op, env) && Covered(cfg, s, log)
    ensures var call := s.calls[s.callIndex];
            var (u, kind) := Handle(cfg, s, s.callIndex, remaining, env);
            Covered(cfg, Apply(s, u), log + [Event(call.callId, call.op, call.round, IsDispatched(cfg, s, call, env), kind)])
  {
    hide Handle, Disciplined, TidyState, Shape, IsDispatched;
    var call := s.calls[s.callIndex];
    var (u, kind) := Handle(cfg, s, s.callIndex, remaining, env);
    var e := Event(call.callId, call.op, call.round, IsDispatched(cfg, s, call, env), kind);
    HandleFlags(cfg, s, s.callIndex, remaining, env);
    HandleShape(cfg, s, s.callIndex, remaining, env);
    DispatchNeedsClearFlags(cfg, s, call, env);
    DisciplinedAppend(cfg, log, e);
    HazardOpenAppend(cfg, log, e);
    QueueAfter(cfg, s, u, kind, issued);
  }

  /** After one call the queue waits at it, or holds only calls without a verdict. */
  lemma QueueAfter(cfg: Config, s: State, u: Update, kind: Kind, issued: set<nat>)
    requires TidyState(s, issued) && s.status.Running? && s.callIndex < |s.calls| && Shape(cfg, s, s.callIndex, u, kind)
    ensures var t := Apply(s, u);
            && Queue(s) != [] && Queue(s)[0] == s.calls[s.callIndex]
            && (t.status.Paused? <==> kind.AskedApproval?) && (t.status.Paused? ==> Queue(t) == Queue(s))
            && (t.status.Running? && Queue(t) != [] ==> Queue(t)[0].callId !in t.rejected)
  {
    hide RecordRule, OpenQueue;
    var t := Apply(s, u);
    if t.status.Running? && Queue(t) != [] {
      assert Queue(t)[0] == Queue(s)[1];
      NextHasNoVerdict(s, issued);
    }
  }

  lemma NextHasNoVerdict(s: State, issued: set<nat>)
    requires TidyState(s, issued) && s.status.Running? && |Queue(s)| > 1
    ensures Queue(s)[1].callId !in s.rejected
  {
    assert Queue(s)[1] in Queue(s)[1..];
  }

  lemma CoveredTools(cfg: Config, r: Run, envs: seq<ToolEnv>)
    requires cfg.Valid() && Tidy(r) && Ready(cfg, r, envs) && Covered(cfg, r.s, Flatten(r.history))
    requires HonestInput(cfg, r, FromTools(envs)) && KeepsGuard(cfg, r, FromTools(envs))
    ensures var next := Next(cfg, r, FromTools(envs)); Covered(cfg, next.s, Flatten(next.history))
  {
    hide Handle, BatchResult, Covered, TidyState, Apply, Flatten;
    var s, log := r.s, Flatten(r.history);
    var (u, events) := ToolUpdate(cfg, s, envs);
    FlattenStep(r.history, events);
    if |envs| > 1 {
      GroupReads(cfg, r, envs);
      CoveredBatch(cfg, s, envs, log, r.issued);
    } else if cfg.maxOutput - s.outputBytes > 0 {
      HonestAt(cfg, r, envs, 0);
      CoveredSingle(cfg, s, envs[0], cfg.maxOutput - s.outputBytes, log, r.issued);
    } else {
      CoveredStop(cfg, s, u, log);
      assert log + [] == log;
    }
    CoveredCheckpoint(cfg, Apply(s, u), log + events);
  }

  lemma CoveredStop(cfg: Config, s: State, u: Update, log: seq<Event>)
    requires Covered(cfg, s, log) && u == Bare(Stopped, Some(OutputBudgetExceeded))
    ensures Covered(cfg, Apply(s, u), log)
  {
  }

  lemma CoveredCheckpoint(cfg: Config, s: State, log: seq<Event>)
    requires Covered(cfg, s, log)
    ensures Covered(cfg, Checkpointed(cfg, s), log)
  {
  }

  /** The members of a batch are undecided, open reads. */
  lemma GroupReads(cfg: Config, r: Run, envs: seq<ToolEnv>)
    requires cfg.Valid() && Tidy(r) && Ready(cfg, r, envs) && |envs| > 1
    requires Covered(cfg, r.s, Flatten(r.history)) && HonestInput(cfg, r, FromTools(envs))
    ensures ReadGroup(cfg, r.s, Group(r.s, |envs|), envs)
  {
    hide Flatten, HazardOpen, Disciplined, Honest, OpenCall;
    var s, group, queue := r.s, Group(r.s, |envs|), Queue(r.s);
    forall k | 0 <= k < |group|
      ensures cfg.IsRead(group[k].op) && group[k].callId !in s.rejected && OpenCall(s.results, group[k].callId)
              && Honest(cfg, group[k].op, envs[k])
    {
      assert group[k] == queue[k] == s.calls[s.callIndex + k];
      assert queue[k] in queue;
      if k > 0 { assert queue[1..][k - 1] == queue[k]; }
      HonestAt(cfg, r, envs, k);
    }
  }

  lemma CoveredBatch(cfg: Config, s: State, envs: seq<ToolEnv>, log: seq<Event>, issued: set<nat>)
    requires cfg.Valid() && 1 < |envs| <= cfg.maxOutput - s.outputBytes && s.callIndex + |envs| <= |s.calls|
    requires ReadGroup(cfg, s, Group(s, |envs|), envs) && TidyState(s, issued) && s.status.Running?
    requires Covered(cfg, s, log) && !DropsGuard(cfg, s, BatchResult(cfg, s, envs).1)
    ensures var (u, events) := BatchResult(cfg, s, envs); Covered(cfg, Apply(s, u), log + events)
  {
    hide Handle, Shape, Absorb, MergeUpTo, SiblingUpdates, Conclude, Apply, ReadGroup, HazardOpen, Disciplined, OpenQueue, OpenCall;
    BatchKeepsGuard(cfg, s, envs, log);
    var n := |envs|;
    var (updates, events) := SiblingUpdates(cfg, s, Share(cfg, s, n), envs);
    ConcludeCases(s, n, MergeUpTo(cfg, s, updates, n));
    var rest := s.calls[s.callIndex + n..];
    if rest != [] {
      assert rest[0] == Queue(s)[n] == Queue(s)[1..][n - 1];
      RestHasNoVerdict(s, n, issued);
    }
  }

  lemma RestHasNoVerdict(s: State, n: nat, issued: set<nat>)
    requires TidyState(s, issued) && s.status.Running? && 0 < n < |Queue(s)|
    ensures Queue(s)[n].callId !in s.rejected
  {
    assert Queue(s)[1..][n - 1] == Queue(s)[n];
  }

  lemma CoveredQuiet(cfg: Config, s: State, t: State, log: seq<Event>)
    requires Covered(cfg, s, log) && Quiet(s, t) && s.status.Running?
    ensures Covered(cfg, t, log)
  {
  }

  lemma CoveredAdmitted(cfg: Config, s: State, proposals: seq<Proposal>, t: State, log: seq<Event>)
    requires Covered(cfg, s, log) && s.status.Running? && (t == Admitted(s, proposals) || AsAdmitted(s, proposals, t))
    requires forall p | p in proposals :: p.callId !in s.rejected
    ensures Covered(cfg, t, log)
  {
    hide Disciplined, HazardOpen, Admitted;
    AdmittedParts(s, proposals);
    if t.status.Running? && Queue(t) != [] {
      assert proposals[0] in proposals;
      assert Queue(t)[0] == t.calls[0];
    }
  }

  lemma CoveredModel(cfg: Config, r: Run, reply: Reply)
    requires Tidy(r) && r.node.Model? && FreshIds(r, Proposals(reply)) && Covered(cfg, r.s, Flatten(r.history))
    ensures Covered(cfg, CallModel(cfg, r.s, reply), Flatten(r.history))
  {
    hide Covered, CallModel, Admitted, Effectless, Flatten, OpenQueue, Quiet;
    ModelCases(cfg, r.s, reply);
    EffectlessAre(cfg, Proposals(reply));
    var t, log := CallModel(cfg, r.s, reply), Flatten(r.history);
    if Quiet(r.s, t) {
      CoveredQuiet(cfg, r.s, t, log);
    } else if t == Admitted(r.s, Proposals(reply)) {
      CoveredAdmitted(cfg, r.s, Proposals(reply), t, log);
    } else {
      CoveredAdmitted(cfg, r.s, Effectless(cfg, Proposals(reply)), t, log);
    }
  }

  lemma CoveredVerdict(cfg: Config, r: Run, fingerprint: nat, approved: bool, code: Code)
    requires Tidy(r) && Accepts(cfg, r, FromOperator(fingerprint, approved, code)) && Covered(cfg, r.s, Flatten(r.history))
    ensures Covered(cfg, Resume(r.s, fingerprint, approved, code).value, Flatten(r.history))
  {
    hide Disciplined, HazardOpen, Flatten, OpenQueue;
    var s := Resume(r.s, fingerprint, approved, code).value;
    assert Queue(s) == Queue(r.s);
  }

  lemma LostKeepsDiscipline(cfg: Config, s: State, log: seq<Event>, events: seq<Event>, lost: seq<Event>)
    requires Covered(cfg, s, log) && s.status.Running?
    requires |lost| == |events| && forall i | 0 <= i < |events| :: lost[i] == events[i].(kind := Lost)
    requires forall e | e in events :: ChangeDispatched(cfg, e) ==> !s.recoveryRead && !s.recoveryDiagnosis
    ensures Covered(cfg, s, log + lost) && (HazardOpen(cfg, log + lost) <==> HazardOpen(cfg, log))
  {
    if events == [] {
      assert log + lost == log;
    } else {
      var n := |events| - 1;
      LostKeepsDiscipline(cfg, s, log, events[..n], lost[..n]);
      assert log + lost == (log + lost[..n]) + [lost[n]];
      assert events[n] in events;
      DisciplinedAppend(cfg, log + lost[..n], lost[n]);
      HazardOpenAppend(cfg, log + lost[..n], lost[n]);
    }
  }

  /** What the events of a tool step dispatched. */
  lemma DispatchedChanges(cfg: Config, s: State, envs: seq<ToolEnv>)
    requires s.callIndex < |s.calls| && |envs| == Width(cfg, s)
    ensures forall e | e in ToolUpdate(cfg, s, envs).1 :: ChangeDispatched(cfg, e) ==> !s.recoveryRead && !s.recoveryDiagnosis
  {
    hide Handle, Shape, SiblingUpdates, Conclude, MergeUpTo;
    var (u, events) := ToolUpdate(cfg, s, envs);
    if |envs| > 1 {
      var share := Share(cfg, s, |envs|);
      SiblingsAre(cfg, s, share, envs);
      var (updates, events') := SiblingUpdates(cfg, s, share, envs);
      var group := Group(s, |envs|);
      forall e | e in events && ChangeDispatched(cfg, e) ensures !s.recoveryRead && !s.recoveryDiagnosis {
        var k :| 0 <= k < |events'| && events'[k] == e;
        assert Member(cfg, s, k, group[k], envs[k], share, updates[k], events'[k]);
        DispatchNeedsClearFlags(cfg, s, group[k], envs[k]);
      }
    } else {
      DispatchNeedsClearFlags(cfg, s, s.calls[s.callIndex], envs[0]);
    }
  }

  lemma CoveredNext(cfg: Config, r: Run, input: Input)
    requires cfg.Valid() && Tidy(r) && Accepts(cfg, r, input) && Covered(cfg, r.s, Flatten(r.history))
    requires HonestInput(cfg, r, input) && KeepsGuard(cfg, r, input)
    ensures var next := Next(cfg, r, input); Covered(cfg, next.s, Flatten(next.history))
  {
    hide Covered, CallModel, ReviewGoal, ToolUpdate, TidyState, Flatten, Resume;
    var log := Flatten(r.history);
    FlattenStep(r.history, []);
    assert log + [] == log;
    match input
    case FromModel(reply) => CoveredModel(cfg, r, reply);
    case FromTools(envs) => CoveredTools(cfg, r, envs);
    case Interrupted(envs) =>
      var events := ToolUpdate(cfg, r.s, envs).1;
      DispatchedChanges(cfg, r.s, envs);
      LostKeepsDiscipline(cfg, r.s, log, events, AsLost(events));
      FlattenStep(r.history, AsLost(events));
    case FromReview(review) =>
      QuietReview(cfg, r.s, review);
      CoveredQuiet(cfg, r.s, ReviewGoal(cfg, r.s, review), log);
    case FromOperator(fingerprint, approved, code) => CoveredVerdict(cfg, r, fingerprint, approved, code);
  }

  lemma {:induction false} CoveredAlways(cfg: Config, inputs: seq<Input>)
    requires cfg.Valid() && ValidRun(cfg, inputs) && HonestRun(cfg, inputs) && GuardKeptThroughout(cfg, inputs)
    ensures var r := After(cfg, inputs); Covered(cfg, r.s, Flatten(r.history))
  {
    hide Covered;
    if inputs == [] {
      CoveredStart(cfg);
    } else {
      var before := inputs[..|inputs| - 1];
      CoveredAlways(cfg, before);
      TidyAlways(cfg, before);
      CoveredNext(cfg, After(cfg, before), inputs[|inputs| - 1]);
    }
  }

  lemma CoveredStart(cfg: Config)
    ensures Covered(cfg, Start().s, Flatten(Start().history))
  {
  }

  /** Main result: in every run whose read batches keep the guard, no change is dispatched after a hazard
      before some read has succeeded. */
  lemma RecoveryDiscipline(cfg: Config, inputs: seq<Input>)
    requires cfg.Valid() && ValidRun(cfg, inputs) && HonestRun(cfg, inputs) && GuardKeptThroughout(cfg, inputs)
    ensures Disciplined(cfg, Flatten(After(cfg, inputs).history))
  {
    CoveredAlways(cfg, inputs);
  }

  lemma {:induction false} NoTimeoutNoDrop(cfg: Config, events: seq<Event>)
    requires forall k | 0 <= k < |events| :: !events[k].kind.Unresolved?
    ensures !TimeoutHidesDiagnosis(cfg, events)
  {
    if events != [] {
      NoTimeoutNoDrop(cfg, events[..|events| - 1]);
    }
  }
}
