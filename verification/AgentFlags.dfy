/** What a raised recovery flag means: outside goal loops some failure is still open, in every run. With the covered
    runs of AgentRecovery the flags and the open failures are then the same thing. */
module AgentFlags {
  import opened Wrappers
  import opened AgentState
  import opened AgentTool
  import opened AgentBatch
  import opened AgentModel
  import opened AgentRun
  import opened AgentFacts
  import opened AgentTidy
  import opened AgentRecovery
  import opened AgentBatchRisk

  predicate FlagUp(s: State) {
    s.recoveryRead || s.recoveryDiagnosis
  }

  /** A run that may go on has a flag up only for a failure that is open. */
  ghost predicate Justified(cfg: Config, s: State, log: seq<Event>) {
    Live(s) && FlagUp(s) ==> HazardOpen(cfg, log)
  }

  lemma JustifiedSingle(cfg: Config, s: State, env: ToolEnv, remaining: int, log: seq<Event>)
    requires cfg.Valid() && s.status.Running? && s.callIndex < |s.calls| && Justified(cfg, s, log)
    ensures var call := s.calls[s.callIndex];
            var (u, kind) := Handle(cfg, s, s.callIndex, remaining, env);
            Justified(cfg, Apply(s, u), log + [Event(call.callId, call.op, call.round, IsDispatched(cfg, s, call, env), kind)])
  {
    hide Handle, IsDispatched, HazardOpen;
    var call := s.calls[s.callIndex];
    var (u, kind) := Handle(cfg, s, s.callIndex, remaining, env);
    HandleFlags(cfg, s, s.callIndex, remaining, env);
    HazardOpenAppend(cfg, log, Event(call.callId, call.op, call.round, IsDispatched(cfg, s, call, env), kind));
  }

  // ----- read batches -----

  /** The merge after some siblings, as long as none of them ended the run. */
  ghost predicate MergeJustified(cfg: Config, m: Merge, log: seq<Event>) {
    m.failure.None? && (m.recoveryRead || m.recoveryDiagnosis) ==> HazardOpen(cfg, log)
  }

  lemma SiblingJustified(cfg: Config, s: State, m: Merge, k: nat, call: Call, env: ToolEnv, share: nat, u: Update, e: Event,
                         log: seq<Event>)
    requires cfg.Valid() && !cfg.goalLoop && Member(cfg, s, k, call, env, share, u, e) && cfg.IsRead(call.op)
    requires OpenCall(s.results, call.callId) && MergeJustified(cfg, m, log)
    ensures MergeJustified(cfg, Absorb(cfg, s, m, s.callIndex + k, u), log + [e])
  {
    hide Handle, Absorb, RecordRule, OpenCall, Shape, HazardOpen, IsDispatched;
    HandleFlags(cfg, s, s.callIndex + k, share, env);
    AbsorbFlags(cfg, s, m, s.callIndex + k, u);
    AbsorbQueue(cfg, s, m, k, call, env, share, u, e);
    SucceededMeansReturned(cfg, s, k, call, env, share, u, e);
    HazardOpenAppend(cfg, log, e);
  }

  lemma {:induction false} MergeJustifiedUpTo(cfg: Config, s: State, log: seq<Event>, group: seq<Call>, envs: seq<ToolEnv>,
                                              share: nat, updates: seq<Update>, events: seq<Event>, n: nat)
    requires cfg.Valid() && !cfg.goalLoop && Siblings(cfg, s, group, envs, share, updates, events) && n <= |envs|
    requires forall c | c in group :: cfg.IsRead(c.op) && OpenCall(s.results, c.callId)
    requires FlagUp(s) ==> HazardOpen(cfg, log)
    ensures |events| == |envs| && MergeJustified(cfg, MergeUpTo(cfg, s, updates, n), log + events[..n])
  {
    hide Siblings, Member, MergeUpTo, Absorb, HazardOpen, OpenCall;
    SiblingSizes(cfg, s, group, envs, share, updates, events);
    MergeUnfold(cfg, s, updates, n);
    if n == 0 {
      assert log + events[..0] == log;
    } else {
      var k := n - 1;
      MergeJustifiedUpTo(cfg, s, log, group, envs, share, updates, events, k);
      MemberAt(cfg, s, group, envs, share, updates, events, k);
      assert group[k] in group;
      SiblingJustified(cfg, s, MergeUpTo(cfg, s, updates, k), k, group[k], envs[k], share, updates[k], events[k], log + events[..k]);
      assert log + events[..n] == (log + events[..k]) + [events[k]];
    }
  }

  lemma JustifiedBatch(cfg: Config, s: State, envs: seq<ToolEnv>, log: seq<Event>, issued: set<nat>)
    requires cfg.Valid() && !cfg.goalLoop && TidyState(s, issued) && s.status.Running? && Justified(cfg, s, log)
    requires 0 < |envs| <= cfg.maxOutput - s.outputBytes && s.callIndex + |envs| <= |s.calls|
    requires forall i | s.callIndex <= i < s.callIndex + |envs| :: cfg.IsParallelSafe(s.calls[i].op)
    ensures var (u, events) := BatchResult(cfg, s, envs); Justified(cfg, Apply(s, u), log + events)
  {
    hide Siblings, Member, MergeUpTo, SiblingUpdates, Conclude, Apply, HazardOpen, OpenCall, TidyState, MergeJustified;
    var n, share := |envs|, Share(cfg, s, |envs|);
    SiblingsAre(cfg, s, share, envs);
    var (updates, events) := SiblingUpdates(cfg, s, share, envs);
    var group, m := Group(s, n), MergeUpTo(cfg, s, updates, n);
    GroupIsQueued(s, group, envs, cfg, share, updates, events, issued);
    GroupOfReads(cfg, s, n);
    MergeJustifiedUpTo(cfg, s, log, group, envs, share, updates, events, n);
    assert events[..n] == events;
    JustifiedMerge(cfg, s, n, m, log + events);
  }

  lemma GroupOfReads(cfg: Config, s: State, n: nat)
    requires cfg.Valid() && s.callIndex + n <= |s.calls|
    requires forall i | s.callIndex <= i < s.callIndex + n :: cfg.IsParallelSafe(s.calls[i].op)
    ensures forall c | c in Group(s, n) :: cfg.IsRead(c.op)
  {
    forall c | c in Group(s, n) ensures cfg.IsRead(c.op) {
      var k :| 0 <= k < n && Group(s, n)[k] == c;
      assert s.calls[s.callIndex + k] == c;
    }
  }

  lemma JustifiedMerge(cfg: Config, s: State, n: nat, m: Merge, log: seq<Event>)
    requires s.callIndex + n <= |s.calls| && MergeJustified(cfg, m, log)
    ensures Justified(cfg, Apply(s, Conclude(s, n, m)), log)
  {
    hide HazardOpen;
  }

  // ----- whole runs -----

  lemma JustifiedTools(cfg: Config, r: Run, envs: seq<ToolEnv>)
    requires cfg.Valid() && !cfg.goalLoop && Tidy(r) && Ready(cfg, r, envs) && Justified(cfg, r.s, Flatten(r.history))
    ensures var next := Next(cfg, r, FromTools(envs)); Justified(cfg, next.s, Flatten(next.history))
  {
    hide Handle, BatchResult, TidyState, Apply, Flatten, HazardOpen;
    var s, log := r.s, Flatten(r.history);
    var (u, events) := ToolUpdate(cfg, s, envs);
    FlattenStep(r.history, events);
    if |envs| > 1 {
      JustifiedBatch(cfg, s, envs, log, r.issued);
    } else if cfg.maxOutput - s.outputBytes > 0 {
      JustifiedSingle(cfg, s, envs[0], cfg.maxOutput - s.outputBytes, log);
    } else {
      assert !Live(Apply(s, u)) by { StopEnds(s, OutputBudgetExceeded); }
    }
  }

  lemma StopEnds(s: State, code: Code)
    ensures !Live(Apply(s, Bare(Stopped, Some(code))))
  {
  }

  lemma JustifiedModel(cfg: Config, r: Run, reply: Reply)
    requires r.s.status.Running? && Justified(cfg, r.s, Flatten(r.history))
    ensures Justified(cfg, CallModel(cfg, r.s, reply), Flatten(r.history))
  {
    hide CallModel, Admitted, Effectless, Flatten, HazardOpen;
    ModelCases(cfg, r.s, reply);
    AdmittedParts(r.s, Proposals(reply));
    AdmittedParts(r.s, Effectless(cfg, Proposals(reply)));
  }

  lemma JustifiedLost(cfg: Config, log: seq<Event>, lost: seq<Event>)
    requires forall e | e in lost :: e.kind.Lost?
    ensures HazardOpen(cfg, log + lost) <==> HazardOpen(cfg, log)
  {
    if lost == [] {
      assert log + lost == log;
    } else {
      var n := |lost| - 1;
      assert lost[n] in lost;
      JustifiedLost(cfg, log, lost[..n]);
      assert log + lost == (log + lost[..n]) + [lost[n]];
      HazardOpenAppend(cfg, log + lost[..n], lost[n]);
    }
  }

  lemma JustifiedNext(cfg: Config, r: Run, input: Input)
    requires cfg.Valid() && !cfg.goalLoop && Tidy(r) && Accepts(cfg, r, input) && Justified(cfg, r.s, Flatten(r.history))
    ensures var next := Next(cfg, r, input); Justified(cfg, next.s, Flatten(next.history))
  {
    hide CallModel, ReviewGoal, ToolUpdate, TidyState, Flatten, HazardOpen;
    var log := Flatten(r.history);
    FlattenStep(r.history, []);
    assert log + [] == log;
    match input
    case FromModel(reply) => JustifiedModel(cfg, r, reply);
    case FromTools(envs) => JustifiedTools(cfg, r, envs);
    case Interrupted(envs) =>
      var lost := AsLost(ToolUpdate(cfg, r.s, envs).1);
      FlattenStep(r.history, lost);
      JustifiedLost(cfg, log, lost);
    case FromReview(review) => QuietReview(cfg, r.s, review);
    case FromOperator(fingerprint, approved, code) => ResumeAgrees(r.s, fingerprint, approved, code);
  }

  /** Outside goal loops a raised flag always stands for an open failure, whatever the registry does. */
  lemma {:induction false} FlagsAreJustified(cfg: Config, inputs: seq<Input>)
    requires cfg.Valid() && !cfg.goalLoop && ValidRun(cfg, inputs)
    ensures var r := After(cfg, inputs); Justified(cfg, r.s, Flatten(r.history))
  {
    hide Justified, Next, Accepts;
    if inputs == [] {
      JustifiedStart(cfg);
    } else {
      var before := inputs[..|inputs| - 1];
      FlagsAreJustified(cfg, before);
      TidyAlways(cfg, before);
      JustifiedNext(cfg, After(cfg, before), inputs[|inputs| - 1]);
    }
  }

  lemma JustifiedStart(cfg: Config)
    ensures Justified(cfg, Start().s, Flatten(Start().history))
  {
  }

  /** Main meaning of the flags: in an honest run outside goal loops that is about to act, a flag is up exactly while a
      failure is open. */
  lemma FlagsMeanOpenHazard(cfg: Config, inputs: seq<Input>)
    requires cfg.Valid() && !cfg.goalLoop && ValidRun(cfg, inputs) && HonestRun(cfg, inputs)
    ensures var r := After(cfg, inputs);
            Live(r.s) ==> (FlagUp(r.s) <==> HazardOpen(cfg, Flatten(r.history)))
  {
    RecoveryDisciplineOutsideGoals(cfg, inputs);
    CoveredAlways(cfg, inputs);
    FlagsAreJustified(cfg, inputs);
  }
}
