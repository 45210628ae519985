/** Which read batches put the recovery guard at risk, told from the state alone before the batch starts. */
module AgentBatchRisk {
  import opened Wrappers
  import opened AgentState
  import opened AgentTool
  import opened AgentBatch
  import opened AgentModel
  import opened AgentRun
  import opened AgentFacts
  import opened AgentTidy
  import opened AgentRecovery

  /** A goal run is about to overlap reads, the queue holds nothing but reads, and only the diagnosis flag is up. */
  predicate AtRisk(cfg: Config, s: State) {
    && cfg.goalLoop && s.recoveryDiagnosis && !s.recoveryRead
    && s.callIndex < |s.calls| && Width(cfg, s) > 1
    && forall c | c in s.calls :: cfg.IsRead(c.op)
  }

  // ----- without the risk no outcome drops the guard -----

  /** A timed-out call stays in the run only in a goal loop, and only among reads or alone. */
  lemma TimeoutNeedsReads(cfg: Config, s: State, index: nat, remaining: int, env: ToolEnv)
    requires index < |s.calls| && Handle(cfg, s, index, remaining, env).1.Unresolved?
    ensures cfg.goalLoop && (|s.calls| == 1 || forall c | c in s.calls :: cfg.IsRead(c.op))
  {
    hide DropPause, Count, TrailingRepairs, Repeated, Without, CountedAfter, CallCountAfter;
  }

  lemma NoRiskKeepsGuard(cfg: Config, r: Run, input: Input)
    requires cfg.Valid() && Accepts(cfg, r, input) && !AtRisk(cfg, r.s)
    ensures KeepsGuard(cfg, r, input)
  {
    hide Handle, SiblingUpdates, Conclude, MergeUpTo, Member, TimeoutHidesDiagnosis;
    if input.FromTools? && |input.envs| > 1 && r.s.recoveryDiagnosis && !r.s.recoveryRead {
      var s, envs := r.s, input.envs;
      var share, group := Share(cfg, s, |envs|), Group(s, |envs|);
      SiblingsAre(cfg, s, share, envs);
      var (updates, events) := SiblingUpdates(cfg, s, share, envs);
      SiblingSizes(cfg, s, group, envs, share, updates, events);
      forall k | 0 <= k < |events| ensures !events[k].kind.Unresolved? {
        MemberAt(cfg, s, group, envs, share, updates, events, k);
        MemberKind(cfg, s, k, group[k], envs[k], share, updates[k], events[k]);
        if events[k].kind.Unresolved? { TimeoutNeedsReads(cfg, s, s.callIndex + k, share, envs[k]); }
      }
      NoTimeoutNoDrop(cfg, events);
    }
  }

  lemma MemberKind(cfg: Config, s: State, k: nat, call: Call, env: ToolEnv, share: nat, u: Update, e: Event)
    requires Member(cfg, s, k, call, env, share, u, e)
    ensures s.callIndex + k < |s.calls| && e.kind == Handle(cfg, s, s.callIndex + k, share, env).1 && e.op == call.op
  {
    hide Handle;
  }

  ghost predicate NeverAtRisk(cfg: Config, inputs: seq<Input>)
    requires ValidRun(cfg, inputs)
  {
    inputs == [] || (NeverAtRisk(cfg, inputs[..|inputs| - 1])
                     && !(After(cfg, inputs[..|inputs| - 1]).node.Execute? && AtRisk(cfg, After(cfg, inputs[..|inputs| - 1]).s)))
  }

  lemma {:induction false} NeverAtRiskKeepsGuard(cfg: Config, inputs: seq<Input>)
    requires cfg.Valid() && ValidRun(cfg, inputs) && NeverAtRisk(cfg, inputs)
    ensures GuardKeptThroughout(cfg, inputs)
  {
    hide AtRisk, Accepts, DropsGuard, Next;
    if inputs != [] {
      var before, input := inputs[..|inputs| - 1], inputs[|inputs| - 1];
      NeverAtRiskKeepsGuard(cfg, before);
      var r := After(cfg, before);
      if r.node.Execute? { NoRiskKeepsGuard(cfg, r, input); }
      else { OnlyToolStepsDrop(cfg, r, input); }
    }
  }

  lemma OnlyToolStepsDrop(cfg: Config, r: Run, input: Input)
    requires Accepts(cfg, r, input) && !r.node.Execute?
    ensures KeepsGuard(cfg, r, input)
  {
  }

  /** Main state-only result: a run none of whose tool steps starts at risk is disciplined, inside goal loops and out. */
  lemma DisciplineWithoutRisk(cfg: Config, inputs: seq<Input>)
    requires cfg.Valid() && ValidRun(cfg, inputs) && HonestRun(cfg, inputs) && NeverAtRisk(cfg, inputs)
    ensures Disciplined(cfg, Flatten(After(cfg, inputs).history))
  {
    NeverAtRiskKeepsGuard(cfg, inputs);
    RecoveryDiscipline(cfg, inputs);
  }

  lemma {:induction false} OutsideGoalsNeverAtRisk(cfg: Config, inputs: seq<Input>)
    requires !cfg.goalLoop && ValidRun(cfg, inputs)
    ensures NeverAtRisk(cfg, inputs)
  {
    if inputs != [] { OutsideGoalsNeverAtRisk(cfg, inputs[..|inputs| - 1]); }
  }

  /** Outside goal loops the discipline holds of every run. */
  lemma RecoveryDisciplineOutsideGoals(cfg: Config, inputs: seq<Input>)
    requires cfg.Valid() && !cfg.goalLoop && ValidRun(cfg, inputs) && HonestRun(cfg, inputs)
    ensures GuardKeptThroughout(cfg, inputs) && Disciplined(cfg, Flatten(After(cfg, inputs).history))
  {
    OutsideGoalsNeverAtRisk(cfg, inputs);
    NeverAtRiskKeepsGuard(cfg, inputs);
    RecoveryDiscipline(cfg, inputs);
  }

  // ----- at risk, honest outcomes can drop the guard -----

  const SIZES: NoticeSizes := NoticeSizes(1, 1, 1, 1, 1, 1)

  function Failing(code: Code): ToolEnv { ToolEnv(true, Raised(code, None, None), SIZES, false) }

  /** The first read fails, all others time out. */
  function WorstOutcomes(n: nat): (envs: seq<ToolEnv>)
    ensures |envs| == n
    ensures forall k | 0 <= k < n :: envs[k] == Failing(if k == 0 then ExecutionFailed else ExecutionTimeout)
  {
    seq(n, k requires 0 <= k < n => Failing(if k == 0 then ExecutionFailed else ExecutionTimeout))
  }

  /** The call reaches the registry if its arguments are valid. */
  predicate Unblocked(cfg: Config, s: State, call: Call) {
    cfg.IsRead(call.op) && call.callId !in s.rejected && !Repeated(call, s.results)
  }

  lemma FailedReadIsDiagnosed(cfg: Config, s: State, index: nat, remaining: int)
    requires cfg.Valid() && index < |s.calls| && remaining > 0 && Unblocked(cfg, s, s.calls[index])
    ensures Handle(cfg, s, index, remaining, Failing(ExecutionFailed)).1.Diagnosed?
  {
    hide Repeated, Count, DropPause, TrailingRepairs, CountedAfter, CallCountAfter;
  }

  lemma SlowReadIsUnresolved(cfg: Config, s: State, index: nat, remaining: int)
    requires cfg.Valid() && cfg.goalLoop && index < |s.calls| && remaining > 0 && Unblocked(cfg, s, s.calls[index])
    requires forall c | c in s.calls :: cfg.IsRead(c.op)
    ensures Handle(cfg, s, index, remaining, Failing(ExecutionTimeout)).1.Unresolved?
  {
    hide Repeated, Count, DropPause, TrailingRepairs, CountedAfter, CallCountAfter;
  }

  /** A diagnosed failure followed only by time-outs. */
  lemma {:induction false} TimeoutsHide(cfg: Config, events: seq<Event>)
    requires |events| > 1 && events[0].kind.Diagnosed? && forall k | 1 <= k < |events| :: events[k].kind.Unresolved?
    ensures TimeoutHidesDiagnosis(cfg, events)
  {
    DiagnosisStaysOpen(cfg, events[..|events| - 1]);
  }

  lemma {:induction false} DiagnosisStaysOpen(cfg: Config, events: seq<Event>)
    requires |events| > 0 && events[0].kind.Diagnosed? && forall k | 1 <= k < |events| :: events[k].kind.Unresolved?
    ensures HazardOpen(cfg, events)
  {
    if |events| > 1 { DiagnosisStaysOpen(cfg, events[..|events| - 1]); }
  }

  lemma WorstBatchDrops(cfg: Config, s: State)
    requires cfg.Valid() && AtRisk(cfg, s) && forall c | c in Group(s, Width(cfg, s)) :: Unblocked(cfg, s, c)
    ensures DropsGuard(cfg, s, BatchResult(cfg, s, WorstOutcomes(Width(cfg, s))).1)
  {
    hide Handle, SiblingUpdates, Conclude, MergeUpTo, Member, Unblocked, TimeoutHidesDiagnosis, GroupSize;
    var n := Width(cfg, s);
    var envs, share, group := WorstOutcomes(n), Share(cfg, s, n), Group(s, n);
    SiblingsAre(cfg, s, share, envs);
    var (updates, events) := SiblingUpdates(cfg, s, share, envs);
    SiblingSizes(cfg, s, group, envs, share, updates, events);
    forall k | 0 <= k < n ensures if k == 0 then events[k].kind.Diagnosed? else events[k].kind.Unresolved? {
      MemberAt(cfg, s, group, envs, share, updates, events, k);
      MemberKind(cfg, s, k, group[k], envs[k], share, updates[k], events[k]);
      assert group[k] in group && s.calls[s.callIndex + k] == group[k];
      if k == 0 { FailedReadIsDiagnosed(cfg, s, s.callIndex, share); }
      else { SlowReadIsUnresolved(cfg, s, s.callIndex + k, share); }
    }
    TimeoutsHide(cfg, events);
  }

  /** The guard after a batch with these outcomes. */
  ghost predicate GuardAfter(cfg: Config, s: State, log: seq<Event>, envs: seq<ToolEnv>)
    requires 1 < |envs| <= cfg.maxOutput - s.outputBytes && s.callIndex + |envs| <= |s.calls|
  {
    var (u, events) := BatchResult(cfg, s, envs);
    var t := Apply(s, u);
    HazardOpen(cfg, log + events) ==> t.recoveryRead || t.recoveryDiagnosis
  }

  ghost predicate AllHonest(cfg: Config, s: State, envs: seq<ToolEnv>)
    requires s.callIndex + |envs| <= |s.calls|
  {
    forall k | 0 <= k < |envs| :: Honest(cfg, s.calls[s.callIndex + k].op, envs[k])
  }

  /** Honest outcomes of the next batch after which a failure is open with both flags down. */
  ghost predicate HonestLoss(cfg: Config, s: State, log: seq<Event>, envs: seq<ToolEnv>)
    requires s.callIndex < |s.calls|
  {
    && |envs| == Width(cfg, s) && |envs| > 1 && AllHonest(cfg, s, envs)
    && !GuardAfter(cfg, s, log, envs)
  }

  /** A batch of undecided reads of a covered run. */
  lemma BatchIsReadGroup(cfg: Config, r: Run, envs: seq<ToolEnv>)
    requires cfg.Valid() && Tidy(r) && Ready(cfg, r, envs) && |envs| > 1 && Covered(cfg, r.s, Flatten(r.history))
    requires AllHonest(cfg, r.s, envs)
    ensures ReadGroup(cfg, r.s, Group(r.s, |envs|), envs)
  {
    hide Covered, Tidy, Honest;
    assert Outcomes(FromTools(envs)) == envs;
    assert HonestInput(cfg, r, FromTools(envs));
    GroupReads(cfg, r, envs);
  }

  lemma GuardAfterExactly(cfg: Config, r: Run, envs: seq<ToolEnv>)
    requires cfg.Valid() && Tidy(r) && Ready(cfg, r, envs) && |envs| > 1 && Covered(cfg, r.s, Flatten(r.history))
    requires AllHonest(cfg, r.s, envs)
    ensures GuardAfter(cfg, r.s, Flatten(r.history), envs) <==> !DropsGuard(cfg, r.s, BatchResult(cfg, r.s, envs).1)
    ensures !AtRisk(cfg, r.s) ==> GuardAfter(cfg, r.s, Flatten(r.history), envs)
  {
    hide AtRisk, AllHonest, Flatten, ReadGroup, BatchResult, DropsGuard, HazardOpen, Disciplined, TidyState;
    BatchIsReadGroup(cfg, r, envs);
    BatchKeepsGuard(cfg, r.s, envs, Flatten(r.history));
    if !AtRisk(cfg, r.s) { NoRiskKeepsGuard(cfg, r, FromTools(envs)); }
  }

  lemma CoveredBatchMayDrop(cfg: Config, r: Run)
    requires cfg.Valid() && Tidy(r) && r.node.Execute? && Width(cfg, r.s) > 1 && Covered(cfg, r.s, Flatten(r.history))
    requires forall c | c in Group(r.s, Width(cfg, r.s)) :: Unblocked(cfg, r.s, c)
    ensures (exists envs :: HonestLoss(cfg, r.s, Flatten(r.history), envs)) <==> AtRisk(cfg, r.s)
  {
    hide AtRisk, Unblocked, Covered, TidyState, AllHonest, Flatten, GuardAfter, Width, BatchResult;
    var s, log, n := r.s, Flatten(r.history), Width(cfg, r.s);
    if AtRisk(cfg, s) {
      WorstBatchDrops(cfg, s);
      WorstIsHonest(cfg, s, n);
      GuardAfterExactly(cfg, r, WorstOutcomes(n));
      assert HonestLoss(cfg, s, log, WorstOutcomes(n));
    } else {
      forall envs | |envs| == n && AllHonest(cfg, s, envs) ensures GuardAfter(cfg, s, log, envs) {
        GuardAfterExactly(cfg, r, envs);
      }
    }
  }

  lemma WorstIsHonest(cfg: Config, s: State, n: nat)
    requires s.callIndex + n <= |s.calls|
    ensures AllHonest(cfg, s, WorstOutcomes(n))
  {
  }

  /** Main exactness result: in an honest run that has kept the guard so far, before a batch of unblocked reads, honest
      outcomes that lose the guard exist exactly when the state is at risk. */
  lemma BatchMayDropIffAtRisk(cfg: Config, inputs: seq<Input>)
    requires cfg.Valid() && ValidRun(cfg, inputs) && HonestRun(cfg, inputs) && GuardKeptThroughout(cfg, inputs)
    requires var r := After(cfg, inputs); r.node.Execute? && r.s.callIndex < |r.s.calls| && Width(cfg, r.s) > 1
    requires var s := After(cfg, inputs).s; forall c | c in Group(s, Width(cfg, s)) :: Unblocked(cfg, s, c)
    ensures var r := After(cfg, inputs);
            (exists envs :: HonestLoss(cfg, r.s, Flatten(r.history), envs)) <==> AtRisk(cfg, r.s)
  {
    hide AtRisk, Unblocked, Covered, HonestLoss, Width;
    TidyAlways(cfg, inputs);
    CoveredAlways(cfg, inputs);
    CoveredBatchMayDrop(cfg, After(cfg, inputs));
  }
}
