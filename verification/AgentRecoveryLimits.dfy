/** Where the recovery discipline fails: a concrete goal run whose read batch drops the guard, and what a lost guard
    leads to. */
module AgentRecoveryLimits {
  import opened Wrappers
  import opened AgentState
  import opened AgentTool
  import opened AgentBatch
  import opened AgentModel
  import opened AgentRun
  import opened AgentTidy
  import opened AgentRecovery

  /** Two tools: an overlapping read (0) and a change (1), in a goal loop without limits. */
  const GOAL: Config := Config(map[0 := Spec(Read, false, true, false), 1 := Spec(Write, true, false, false)], {},
                               true, false, None, None, 1000, 3)

  const SIZES: NoticeSizes := NoticeSizes(1, 1, 1, 1, 1, 1)

  function Fails(code: Code): ToolEnv { ToolEnv(true, Raised(code, None, None), SIZES, false) }

  /** A failed read; a batch of two reads, one failing and one timing out; then a change. */
  const STEP1: Input := FromModel(Message([Proposal(Operation(0, 0), 0, 10, false)], 0))
  const STEP2: Input := FromTools([Fails(ExecutionFailed)])
  const STEP3: Input := FromModel(Message([Proposal(Operation(0, 1), 0, 11, false), Proposal(Operation(0, 2), 0, 12, false)], 0))
  const STEP4: Input := FromTools([Fails(ExecutionFailed), Fails(ExecutionTimeout)])
  const STEP5: Input := FromModel(Message([Proposal(Operation(1, 0), 0, 13, false)], 0))
  const STEP6: Input := FromTools([ToolEnv(true, Value(0, 1), SIZES, false)])

  lemma Extend(cfg: Config, inputs: seq<Input>, input: Input)
    requires ValidRun(cfg, inputs) && HonestRun(cfg, inputs)
    requires Accepts(cfg, After(cfg, inputs), input) && HonestInput(cfg, After(cfg, inputs), input)
    ensures ValidRun(cfg, inputs + [input]) && HonestRun(cfg, inputs + [input])
    ensures After(cfg, inputs + [input]) == Next(cfg, After(cfg, inputs), input)
  {
    hide Next, Accepts, HonestInput;
    assert (inputs + [input])[..|inputs|] == inputs;
  }

  function Failed1(id: nat, op: Operation, code: Code, phase: Phase): Record {
    Record(id, op.tool, RecordStatus.Failed, Some(code), phase, Some(op), None)
  }

  const C10: Call := Call(10, Operation(0, 0), 0, 1)
  const C11: Call := Call(11, Operation(0, 1), 0, 2)
  const C12: Call := Call(12, Operation(0, 2), 0, 2)
  const C13: Call := Call(13, Operation(1, 0), 0, 3)
  const E10: Event := Event(10, Operation(0, 0), 1, true, Diagnosed)
  const E11: Event := Event(11, Operation(0, 1), 2, true, Diagnosed)
  const E12: Event := Event(12, Operation(0, 2), 2, true, Unresolved)
  const E13: Event := Event(13, Operation(1, 0), 3, true, Returned)

  const R10: Record := Failed1(10, Operation(0, 0), ExecutionFailed, FailureDiagnosis)
  const R11: Record := Failed1(11, Operation(0, 1), ExecutionFailed, FailureDiagnosis)
  const R12: Record := Failed1(12, Operation(0, 2), ExecutionTimeout, OutcomeUnknown)

  const RUN1: Run := Run(Execute, FreshState.(calls := [C10], modelRounds := 1), [[]], {10})
  const RUN2: Run := Run(Model, RUN1.s.(callIndex := 1, results := [R10], counted := [10], callCount := 1, outputBytes := 1,
                                        recoveryDiagnosis := true), [[], [E10]], {10})
  const RUN3: Run := Run(Execute, RUN2.s.(calls := [C11, C12], callIndex := 0, modelRounds := 2), [[], [E10], []], {10, 11, 12})
  const RUN4: Run := Run(Model, RUN3.s.(callIndex := 2, results := [R10, R11, R12], counted := [10, 11, 12], callCount := 3,
                                        outputBytes := 3, recoveryDiagnosis := false), [[], [E10], [], [E11, E12]], {10, 11, 12})
  const RUN5: Run := Run(Execute, RUN4.s.(calls := [C13], callIndex := 0, modelRounds := 3),
                         [[], [E10], [], [E11, E12], []], {10, 11, 12, 13})

  lemma Round1()
    ensures Accepts(GOAL, Start(), STEP1) && HonestInput(GOAL, Start(), STEP1) && Next(GOAL, Start(), STEP1) == RUN1
  {
    assert CallIds(STEP1.reply.proposals) == {10};
  }

  lemma Round2()
    ensures Accepts(GOAL, RUN1, STEP2) && HonestInput(GOAL, RUN1, STEP2) && Next(GOAL, RUN1, STEP2) == RUN2
  {
    assert Width(GOAL, RUN1.s) == 1;
  }

  lemma Round3()
    ensures Accepts(GOAL, RUN2, STEP3) && HonestInput(GOAL, RUN2, STEP3) && Next(GOAL, RUN2, STEP3) == RUN3
  {
    assert CallIds(STEP3.reply.proposals) == {11, 12} by {
      assert Proposal(Operation(0, 1), 0, 11, false) in STEP3.reply.proposals;
      assert STEP3.reply.proposals[1] == Proposal(Operation(0, 2), 0, 12, false);
    }
  }

  const U11: Update := Bare(Running, None).(results := Some([R10, R11]), counted := Some([10, 11]), callCount := Some(2),
    outputBytes := Some(2), callIndex := Some(1), recoveryRead := Some(true), recoveryDiagnosis := Some(false))
  const U12: Update := Bare(Running, None).(results := Some([R10, R12]), counted := Some([10, 12]), callCount := Some(2),
    outputBytes := Some(2), callIndex := Some(2), recoveryRead := Some(false))

  lemma Sibling11(env: ToolEnv)
    requires env == STEP4.envs[0]
    ensures ExecuteTool(GOAL, RUN3.s, 0, Some(499), env) == (U11, [E11])
  {
    assert !HasPhase(RUN3.s.results, FailureDiagnosis, C11.op);
    assert [R10][1..] == [] && DropPause([R10], 11) == [R10];
    assert [R10] + [R11] == [R10, R11] && [10] + [11] == [10, 11];
  }

  lemma Sibling12(env: ToolEnv)
    requires env == STEP4.envs[1]
    ensures ExecuteTool(GOAL, RUN3.s, 1, Some(499), env) == (U12, [E12])
  {
    assert !HasPhase(RUN3.s.results, FailureDiagnosis, C12.op);
    assert [R10][1..] == [] && DropPause([R10], 12) == [R10];
    assert [R10] + [R12] == [R10, R12] && [10] + [12] == [10, 12];
    assert forall c | c in RUN3.s.calls :: GOAL.IsRead(c.op);
  }

  lemma BatchOfTwo()
    ensures BatchResult(GOAL, RUN3.s, STEP4.envs) ==
            (Bare(Running, None).(results := Some([R10, R11, R12]), counted := Some([10, 11, 12]), callCount := Some(3),
               outputBytes := Some(3), callIndex := Some(2), recoveryRead := Some(false), recoveryDiagnosis := Some(false)),
             [E11, E12])
  {
    hide ExecuteTool, SiblingUpdates, MergeUpTo;
    var envs := STEP4.envs;
    Sibling11(envs[0]);
    Sibling12(envs[1]);
    SiblingsUnfold(envs[0], envs[1]);
    assert envs == [envs[0], envs[1]];
    assert [E11] + [E12] == [E11, E12];
    assert SiblingUpdates(GOAL, RUN3.s, 499, [envs[0], envs[1]]) == ([U11, U12], [E11] + [E12]);
    MergeOfTwo();
  }

  lemma SiblingNext(s: State, envs: seq<ToolEnv>, env: ToolEnv)
    requires s.callIndex + |envs| < |s.calls|
    ensures var (updates, events) := SiblingUpdates(GOAL, s, 499, envs);
            var (u, e) := ExecuteTool(GOAL, s, s.callIndex + |envs|, Some(499), env);
            SiblingUpdates(GOAL, s, 499, envs + [env]) == (updates + [u], events + e)
  {
    hide ExecuteTool;
    assert (envs + [env])[..|envs|] == envs;
  }

  lemma SiblingsUnfold(first: ToolEnv, second: ToolEnv)
    ensures var (u, e) := ExecuteTool(GOAL, RUN3.s, 0, Some(499), first);
            var (u', e') := ExecuteTool(GOAL, RUN3.s, 1, Some(499), second);
            SiblingUpdates(GOAL, RUN3.s, 499, [first, second]) == ([u, u'], e + e')
  {
    hide ExecuteTool;
    assert SiblingUpdates(GOAL, RUN3.s, 499, []) == ([], []);
    assert RUN3.s.callIndex == 0 && |RUN3.s.calls| == 2;
    var (u, e) := ExecuteTool(GOAL, RUN3.s, 0, Some(499), first);
    var (u', e') := ExecuteTool(GOAL, RUN3.s, 1, Some(499), second);
    SiblingNext(RUN3.s, [], first);
    assert [] + [first] == [first] && [] + [u] == [u] && [] + e == e;
    assert SiblingUpdates(GOAL, RUN3.s, 499, [first]) == ([u], e);
    SiblingNext(RUN3.s, [first], second);
    assert [first] + [second] == [first, second] && [u] + [u'] == [u, u'];
  }

  lemma MergeOfTwo()
    ensures MergeUpTo(GOAL, RUN3.s, [U11, U12], 2) == Merge([R10, R11, R12], [10, 11, 12], 3, false, false, [], None, None)
  {
    hide MergeUpTo;
    FirstSibling();
    SecondSibling();
    assert MergeUpTo(GOAL, RUN3.s, [U11, U12], 0) == StartMerge(RUN3.s) by { MergeZero([U11, U12]); }
    MergeNext([U11, U12], 1);
    MergeNext([U11, U12], 2);
  }

  lemma MergeZero(updates: seq<Update>)
    requires |updates| <= 2
    ensures MergeUpTo(GOAL, RUN3.s, updates, 0) == StartMerge(RUN3.s)
  {
  }

  lemma MergeNext(updates: seq<Update>, n: nat)
    requires 0 < n <= |updates| <= 2
    ensures MergeUpTo(GOAL, RUN3.s, updates, n) == Absorb(GOAL, RUN3.s, MergeUpTo(GOAL, RUN3.s, updates, n - 1), n - 1, updates[n - 1])
  {
  }

  lemma DropStep(r: Record, rest: seq<Record>, callId: nat)
    ensures DropCall([r] + rest, callId) == if r.callId == callId then DropCall(rest, callId) else [r] + DropCall(rest, callId)
    ensures OnlyCall([r] + rest, callId) == if r.callId == callId then [r] + OnlyCall(rest, callId) else OnlyCall(rest, callId)
  {
    assert ([r] + rest)[1..] == rest;
  }

  /** What two records leave for a third call, and what a report of one call among two keeps. */
  lemma DropPair(a: Record, b: Record)
    requires a.callId != b.callId
    ensures DropCall([a], b.callId) == [a] && OnlyCall([a, b], b.callId) == [b]
    ensures forall id | id != a.callId && id != b.callId :: DropCall([a, b], id) == [a, b]
  {
    assert [a] == [a] + [] && [b] == [b] + [] && [a, b] == [a] + [b];
    assert DropCall([], b.callId) == [] && OnlyCall([], b.callId) == [];
    DropStep(a, [], b.callId);
    DropStep(b, [], b.callId);
    DropStep(a, [b], b.callId);
    forall id | id != a.callId && id != b.callId ensures DropCall([a, b], id) == [a, b] {
      assert DropCall([], id) == [];
      DropStep(b, [], id);
      DropStep(a, [b], id);
    }
  }

  lemma FirstSibling()
    ensures Absorb(GOAL, RUN3.s, StartMerge(RUN3.s), 0, U11) == Merge([R10, R11], [10, 11], 2, true, false, [], None, None)
  {
    hide DropCall, OnlyCall;
    assert !SucceededIn([R10, R11], 11);
    DropPair(R10, R11);
    assert [R10] + [R11] == [R10, R11] && [10] + [11] == [10, 11];
  }

  lemma SecondSibling()
    ensures Absorb(GOAL, RUN3.s, Merge([R10, R11], [10, 11], 2, true, false, [], None, None), 1, U12)
            == Merge([R10, R11, R12], [10, 11, 12], 3, false, false, [], None, None)
  {
    hide DropCall, OnlyCall;
    assert !SucceededIn([R10, R12], 12);
    DropPair(R10, R11);
    DropPair(R10, R12);
    assert DropCall([R10, R11], 12) == [R10, R11] by { assert R12.callId == 12; }
    assert [R10, R11] + [R12] == [R10, R11, R12] && [10, 11] + [12] == [10, 11, 12];
  }

  lemma Round4()
    ensures Accepts(GOAL, RUN3, STEP4) && HonestInput(GOAL, RUN3, STEP4) && Next(GOAL, RUN3, STEP4) == RUN4
  {
    hide ExecuteTool, BatchResult;
    assert Width(GOAL, RUN3.s) == 2 by {
      assert Leading(GOAL, RUN3.s.calls, 0, 3) == 1 + Leading(GOAL, RUN3.s.calls, 1, 2);
      assert Leading(GOAL, RUN3.s.calls, 1, 2) == 1 + Leading(GOAL, RUN3.s.calls, 2, 1);
    }
    BatchOfTwo();
  }

  lemma Round5()
    ensures Accepts(GOAL, RUN4, STEP5) && HonestInput(GOAL, RUN4, STEP5) && Next(GOAL, RUN4, STEP5) == RUN5
  {
    assert CallIds(STEP5.reply.proposals) == {13};
  }

  /** The change goes through: both flags are down although no read has succeeded. */
  lemma Round6()
    ensures Accepts(GOAL, RUN5, STEP6) && HonestInput(GOAL, RUN5, STEP6)
    ensures Next(GOAL, RUN5, STEP6).history == [[], [E10], [], [E11, E12], [], [E13]]
  {
    assert Width(GOAL, RUN5.s) == 1;
    assert !HasPhase(RUN5.s.results, FailureDiagnosis, C13.op);
    assert !HasPhase(RUN5.s.results, OutcomeUnknown, C13.op);
  }

  const INPUTS: seq<Input> := [STEP1, STEP2, STEP3, STEP4, STEP5, STEP6]

  lemma RunFive()
    ensures ValidRun(GOAL, INPUTS[..5]) && HonestRun(GOAL, INPUTS[..5]) && After(GOAL, INPUTS[..5]) == RUN5
  {
    hide Next, Accepts, HonestInput;
    assert ValidRun(GOAL, []) && After(GOAL, []) == Start();
    Round1();
    Extend(GOAL, [], STEP1);
    assert [] + [STEP1] == INPUTS[..1];
    Round2();
    Extend(GOAL, INPUTS[..1], STEP2);
    assert INPUTS[..1] + [STEP2] == INPUTS[..2];
    Round3();
    Extend(GOAL, INPUTS[..2], STEP3);
    assert INPUTS[..2] + [STEP3] == INPUTS[..3];
    Round4();
    Extend(GOAL, INPUTS[..3], STEP4);
    assert INPUTS[..3] + [STEP4] == INPUTS[..4];
    Round5();
    Extend(GOAL, INPUTS[..4], STEP5);
    assert INPUTS[..4] + [STEP5] == INPUTS[..5];
  }

  /** An honest run that breaks the discipline. */
  lemma BatchCanDropTheGuard()
    ensures GOAL.Valid() && ValidRun(GOAL, INPUTS) && HonestRun(GOAL, INPUTS)
    ensures !Disciplined(GOAL, Flatten(After(GOAL, INPUTS).history))
  {
    hide Next, Accepts, HonestInput;
    RunFive();
    Round6();
    Extend(GOAL, INPUTS[..5], STEP6);
    assert INPUTS[..5] + [STEP6] == INPUTS;
    var log := [E10, E11, E12, E13];
    HistoryFlat();
    assert Hazard(GOAL, log[0]) && ChangeDispatched(GOAL, log[3]);
    assert forall k | 0 < k < 3 :: !ReadSucceeded(GOAL, log[k]);
  }

  lemma HistoryFlat()
    ensures Flatten([[], [E10], [], [E11, E12], [], [E13]]) == [E10, E11, E12, E13]
  {
    var h := [[], [E10], [], [E11, E12], [], [E13]];
    assert h[..5][..4] == h[..4] && h[..4][..3] == h[..3] && h[..3][..2] == h[..2] && h[..2][..1] == h[..1] && h[..1][..0] == [];
    assert Flatten(h[..1]) == [];
    assert Flatten(h[..2]) == [E10];
    assert Flatten(h[..3]) == [E10];
    assert Flatten(h[..4]) == [E10] + [E11, E12];
    assert Flatten(h[..5]) == [E10, E11, E12];
    assert Flatten(h) == [E10, E11, E12] + [E13];
  }

  // ----- a lost guard can always be used -----

  /** The model may still propose a change that nobody has proposed before. */
  predicate MayStillChange(cfg: Config, r: Run, op: Operation, id: nat) {
    var s := r.s;
    && r.node.Model? && !s.goalReview && !s.confirm && cfg.Effectful(op) && id !in r.issued
    && (cfg.maxRounds.Some? ==> s.modelRounds < cfg.maxRounds.value)
    && (cfg.maxCalls.Some? ==> s.callCount < cfg.maxCalls.value)
    && s.outputBytes < cfg.maxOutput
    && forall record | record in s.results :: record.digest != Some(op)
  }

  function Proposed(op: Operation, id: nat): Input {
    FromModel(Message([Proposal(op, 0, id, false)], 0))
  }

  lemma ProposalIsAdmitted(cfg: Config, r: Run, op: Operation, id: nat)
    requires Tidy(r) && MayStillChange(cfg, r, op, id) && !r.s.recoveryDiagnosis
    ensures Accepts(cfg, r, Proposed(op, id))
    ensures var next := Next(cfg, r, Proposed(op, id));
            && next.node.Execute? && next.history == r.history + [[]] && next.s.status.Running?
            && next.s.calls == [Call(id, op, 0, r.s.modelRounds + 1)] && next.s.callIndex == 0
            && next.s.results == r.s.results && next.s.rejected == r.s.rejected && next.s.outputBytes == r.s.outputBytes
            && next.s.recoveryRead == r.s.recoveryRead && next.s.recoveryDiagnosis == r.s.recoveryDiagnosis
  {
  }

  lemma ChangeIsDispatched(cfg: Config, r: Run, call: Call, env: ToolEnv)
    requires cfg.Valid() && cfg.Effectful(call.op) && r.node.Execute? && r.s.calls == [call] && r.s.callIndex == 0
    requires call.callId !in r.s.rejected && r.s.outputBytes < cfg.maxOutput && !r.s.recoveryRead && !r.s.recoveryDiagnosis
    requires forall record | record in r.s.results :: record.digest != Some(call.op)
    requires env.schemaValid && env.outcome.Value?
    ensures Accepts(cfg, r, FromTools([env])) && HonestInput(cfg, r, FromTools([env]))
    ensures exists e :: Next(cfg, r, FromTools([env])).history == r.history + [[e]] && ChangeDispatched(cfg, e)
  {
    assert GroupSize(cfg, r.s) == 0;
    assert Width(cfg, r.s) == 1;
    assert !Repeated(call, r.s.results);
    assert IsDispatched(cfg, r.s, call, env);
    var e := Event(call.callId, call.op, call.round, true, Returned);
    hide RouteTool;
    assert Next(cfg, r, FromTools([env])).history == r.history + [[e]];
  }

  lemma OpenHazardThenChange(cfg: Config, log: seq<Event>, e: Event)
    requires HazardOpen(cfg, log) && ChangeDispatched(cfg, e)
    ensures !Disciplined(cfg, log + [e])
  {
    HazardOpenMeaning(cfg, log);
    var i :| 0 <= i < |log| && Hazard(cfg, log[i]) && forall k | i < k < |log| :: !ReadSucceeded(cfg, log[k]);
    var all := log + [e];
    assert Hazard(cfg, all[i]) && ChangeDispatched(cfg, all[|log|]);
    assert forall k | i < k < |log| :: all[k] == log[k];
  }

  /** The guard is necessary: wherever both flags are down while a failure is open, and the model may still propose a
      change, two more honest steps break the discipline. */
  lemma LostGuardCanBeUsed(cfg: Config, inputs: seq<Input>, op: Operation, id: nat)
    requires cfg.Valid() && ValidRun(cfg, inputs) && HonestRun(cfg, inputs)
    requires MayStillChange(cfg, After(cfg, inputs), op, id)
    requires !After(cfg, inputs).s.recoveryRead && !After(cfg, inputs).s.recoveryDiagnosis
    requires HazardOpen(cfg, Flatten(After(cfg, inputs).history))
    ensures exists more :: ValidRun(cfg, inputs + more) && HonestRun(cfg, inputs + more)
                           && !Disciplined(cfg, Flatten(After(cfg, inputs + more).history))
  {
    hide Next, Accepts, HonestInput, Handle, Flatten, HazardOpen, MayStillChange;
    var r := After(cfg, inputs);
    TidyAlways(cfg, inputs);
    ProposalIsAdmitted(cfg, r, op, id);
    ModelIsHonest(cfg, r, Proposed(op, id));
    Extend(cfg, inputs, Proposed(op, id));
    var middle := After(cfg, inputs + [Proposed(op, id)]);
    var env := ToolEnv(true, Value(0, 1), SIZES, false);
    StillAllowed(cfg, r, op, id);
    ChangeIsDispatched(cfg, middle, middle.s.calls[0], env);
    Extend(cfg, inputs + [Proposed(op, id)], FromTools([env]));
    var more := [Proposed(op, id)] + [FromTools([env])];
    assert inputs + [Proposed(op, id)] + [FromTools([env])] == inputs + more;
    var e :| Next(cfg, middle, FromTools([env])).history == middle.history + [[e]] && ChangeDispatched(cfg, e);
    FlattenStep(r.history, []);
    FlattenStep(r.history + [[]], [e]);
    assert Flatten(r.history) + [] == Flatten(r.history);
    OpenHazardThenChange(cfg, Flatten(r.history), e);
  }

  lemma ModelIsHonest(cfg: Config, r: Run, input: Input)
    requires Accepts(cfg, r, input) && input.FromModel?
    ensures HonestInput(cfg, r, input)
  {
    hide Accepts;
  }

  lemma StillAllowed(cfg: Config, r: Run, op: Operation, id: nat)
    requires Tidy(r) && MayStillChange(cfg, r, op, id)
    ensures cfg.Effectful(op) && id !in r.s.rejected && r.s.outputBytes < cfg.maxOutput
    ensures forall record | record in r.s.results :: record.digest != Some(op)
  {
  }
}
