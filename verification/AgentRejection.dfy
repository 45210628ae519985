/** A recorded rejection lowers both recovery flags. When that keeps the guard, and a run in which it does not. */
module AgentRejection {
  import opened Wrappers
  import opened AgentState
  import opened AgentTool
  import opened AgentBatch
  import opened AgentModel
  import opened AgentRun
  import opened AgentFacts
  import opened AgentTidy
  import opened AgentRecovery
  import opened AgentFlags

  /** An open failure has a flag up. */
  ghost predicate Guarded(cfg: Config, r: Run) {
    HazardOpen(cfg, Flatten(r.history)) ==> FlagUp(r.s)
  }

  /** The event of the rejection that a verdict on a paused run leads to. */
  function Rejection(r: Run): Event
    requires r.s.callIndex < |r.s.calls|
  {
    var call := r.s.calls[r.s.callIndex];
    Event(call.callId, call.op, call.round, false, Denied)
  }

  /** A paused run is rejected: the verdict, then the step that records it. */
  lemma RejectionSteps(cfg: Config, r: Run, fingerprint: nat, code: Code, env: ToolEnv)
    requires cfg.Valid() && ReviewRouted(r) && Accepts(cfg, r, FromOperator(fingerprint, false, code))
    requires Width(cfg, r.s) == 1
    requires r.s.outputBytes < cfg.maxOutput && r.s.outputBytes + env.sizes.rejection <= cfg.maxOutput
    ensures r.s.callIndex < |r.s.calls|
    ensures var middle := Next(cfg, r, FromOperator(fingerprint, false, code));
            && Accepts(cfg, middle, FromTools([env]))
            && var after := Next(cfg, middle, FromTools([env]));
               && after.s.status.Running? && !FlagUp(after.s)
               && after.history == r.history + [[]] + [[Rejection(r)]]
  {
    var middle := Next(cfg, r, FromOperator(fingerprint, false, code));
    assert Width(cfg, middle.s) == Width(cfg, r.s);
  }

  lemma RejectionLeavesHazard(cfg: Config, log: seq<Event>, e: Event)
    requires e.kind.Denied?
    ensures HazardOpen(cfg, log + [e]) <==> HazardOpen(cfg, log)
  {
    HazardOpenAppend(cfg, log, e);
  }

  /** From a guarded pause at a call that is handled alone, the rejection keeps the guard exactly when no failure was open
      at the pause, and both flags down at the pause are enough for that. */
  lemma RejectionKeepsGuardExactly(cfg: Config, inputs: seq<Input>, fingerprint: nat, code: Code, env: ToolEnv)
    requires cfg.Valid() && ValidRun(cfg, inputs) && Guarded(cfg, After(cfg, inputs))
    requires Accepts(cfg, After(cfg, inputs), FromOperator(fingerprint, false, code))
    requires Width(cfg, After(cfg, inputs).s) == 1
    requires var s := After(cfg, inputs).s; s.outputBytes < cfg.maxOutput && s.outputBytes + env.sizes.rejection <= cfg.maxOutput
    ensures var r := After(cfg, inputs);
            var middle := Next(cfg, r, FromOperator(fingerprint, false, code));
            && Accepts(cfg, middle, FromTools([env]))
            && (Guarded(cfg, Next(cfg, middle, FromTools([env]))) <==> !HazardOpen(cfg, Flatten(r.history)))
            && (!FlagUp(r.s) ==> Guarded(cfg, Next(cfg, middle, FromTools([env]))))
  {
    hide Next, HazardOpen, Flatten;
    var r := After(cfg, inputs);
    ReviewAlwaysRouted(cfg, inputs);
    RejectionSteps(cfg, r, fingerprint, code, env);
    FlattenStep(r.history, []);
    FlattenStep(r.history + [[]], [Rejection(r)]);
    assert Flatten(r.history) + [] == Flatten(r.history);
    RejectionLeavesHazard(cfg, Flatten(r.history), Rejection(r));
  }

  /** Main rejection result: outside goal loops the two flags at the pause decide alone. In every guarded run, whatever
      the registry does, a rejection keeps the guard exactly when both flags were down when the run paused. */
  lemma RejectionKeepsGuardIffFlagsDown(cfg: Config, inputs: seq<Input>, fingerprint: nat, code: Code, env: ToolEnv)
    requires cfg.Valid() && !cfg.goalLoop && ValidRun(cfg, inputs) && Guarded(cfg, After(cfg, inputs))
    requires Accepts(cfg, After(cfg, inputs), FromOperator(fingerprint, false, code))
    requires Width(cfg, After(cfg, inputs).s) == 1
    requires var s := After(cfg, inputs).s; s.outputBytes < cfg.maxOutput && s.outputBytes + env.sizes.rejection <= cfg.maxOutput
    ensures var r := After(cfg, inputs);
            var middle := Next(cfg, r, FromOperator(fingerprint, false, code));
            && Accepts(cfg, middle, FromTools([env]))
            && (Guarded(cfg, Next(cfg, middle, FromTools([env]))) <==> !FlagUp(r.s))
  {
    hide Next, HazardOpen, Flatten;
    var r := After(cfg, inputs);
    RejectionKeepsGuardExactly(cfg, inputs, fingerprint, code, env);
    FlagsAreJustified(cfg, inputs);
  }

  // ----- a run in which a rejection drops the guard -----

  /** An overlapping read (0), a change (1), and a read that needs an approval (2); no goal loop. */
  const ASKING: Config := Config(map[0 := Spec(Read, false, true, false), 1 := Spec(Write, true, false, false),
                                     2 := Spec(Read, true, false, false)], {}, false, false, None, None, 1000, 3)

  const SIZES: NoticeSizes := NoticeSizes(1, 1, 1, 1, 1, 1)

  function Proposing(tool: nat, id: nat): Input {
    FromModel(Message([Proposal(Operation(tool, 0), 0, id, false)], 0))
  }

  function Raising(code: Code, fingerprint: Option<nat>): Input {
    FromTools([ToolEnv(true, Raised(code, fingerprint, None), SIZES, false)])
  }

  const SUCCEEDING: Input := FromTools([ToolEnv(true, Value(0, 1), SIZES, false)])

  /** A read fails; the other read asks, and is rejected; then a change. */
  const REJECTED: seq<Input> := [Proposing(0, 10), Raising(ExecutionFailed, None), Proposing(2, 11),
    Raising(ApprovalRequired, Some(7)), FromOperator(7, false, ApprovalRejected), SUCCEEDING, Proposing(1, 12), SUCCEEDING]

  const C10: Call := Call(10, Operation(0, 0), 0, 1)
  const C11: Call := Call(11, Operation(2, 0), 0, 2)
  const C12: Call := Call(12, Operation(1, 0), 0, 3)
  const R10: Record := Record(10, 0, RecordStatus.Failed, Some(ExecutionFailed), FailureDiagnosis, Some(C10.op), None)
  const ASKED: Record := Record(11, 2, AwaitingApproval, Some(ApprovalRequired), NoPhase, Some(C11.op), None)
  const DENIED: Record := Record(11, 2, RecordStatus.Failed, Some(ApprovalRejected), ApprovalDenied, Some(C11.op), None)
  const FAILED: Event := Event(10, C10.op, 1, true, Diagnosed)
  const PAUSED: Event := Event(11, C11.op, 2, true, AskedApproval)
  const VERDICT: Event := Event(11, C11.op, 2, false, Denied)
  const CHANGED: Event := Event(12, C12.op, 3, true, Returned)

  const RUN1: Run := Run(Execute, FreshState.(calls := [C10], modelRounds := 1), [[]], {10})
  const RUN2: Run := Run(Model, RUN1.s.(callIndex := 1, results := [R10], counted := [10], callCount := 1, outputBytes := 1,
                                        recoveryDiagnosis := true), [[], [FAILED]], {10})
  const RUN3: Run := Run(Execute, RUN2.s.(calls := [C11], callIndex := 0, modelRounds := 2), [[], [FAILED], []], {10, 11})
  const RUN4: Run := Run(End, RUN3.s.(status := Paused, error := Some(ApprovalRequired), results := [R10, ASKED],
                                      counted := [10, 11], callCount := 2, approvals := [7]), [[], [FAILED], [], [PAUSED]], {10, 11})
  const RUN5: Run := Run(Execute, RUN4.s.(status := Running, error := None, approvals := [], rejected := map[11 := ApprovalRejected]),
                         [[], [FAILED], [], [PAUSED], []], {10, 11})
  const RUN6: Run := Run(Model, RUN5.s.(callIndex := 1, results := [R10, DENIED], outputBytes := 2, recoveryDiagnosis := false),
                         [[], [FAILED], [], [PAUSED], [], [VERDICT]], {10, 11})
  const RUN7: Run := Run(Execute, RUN6.s.(calls := [C12], callIndex := 0, modelRounds := 3),
                         [[], [FAILED], [], [PAUSED], [], [VERDICT], []], {10, 11, 12})

  lemma Proposes(r: Run, tool: nat, id: nat)
    requires r.node.Model? && id !in r.issued
    ensures Accepts(ASKING, r, Proposing(tool, id))
    ensures Next(ASKING, r, Proposing(tool, id))
      == Run(Execute, r.s.(calls := [Call(id, Operation(tool, 0), 0, r.s.modelRounds + 1)], callIndex := 0,
                           modelRounds := r.s.modelRounds + 1, status := Running, error := None),
             r.history + [[]], r.issued + {id})
         || r.s.goalReview || r.s.confirm
  {
    assert CallIds(Proposing(tool, id).reply.proposals) == {id} by {
      assert Proposing(tool, id).reply.proposals[0].callId == id;
    }
  }

  lemma ReadFails()
    ensures Accepts(ASKING, RUN1, REJECTED[1]) && Next(ASKING, RUN1, REJECTED[1]) == RUN2
  {
    assert Width(ASKING, RUN1.s) == 1;
  }

  lemma ReadAsks()
    ensures Accepts(ASKING, RUN3, REJECTED[3]) && Next(ASKING, RUN3, REJECTED[3]) == RUN4
  {
    assert Width(ASKING, RUN3.s) == 1;
    assert !HasPhase(RUN3.s.results, FailureDiagnosis, C11.op);
    assert [R10][1..] == [] && DropPause([R10], 11) == [R10];
    assert [R10] + [ASKED] == [R10, ASKED] && [10] + [11] == [10, 11];
  }

  lemma OperatorRejects()
    ensures Accepts(ASKING, RUN4, REJECTED[4]) && Next(ASKING, RUN4, REJECTED[4]) == RUN5
  {
    assert [7][1..] == [];
  }

  lemma DropPauseStep(r: Record, rest: seq<Record>, callId: nat)
    ensures DropPause([r] + rest, callId)
      == if r.callId == callId && r.status.AwaitingApproval? then DropPause(rest, callId) else [r] + DropPause(rest, callId)
  {
    assert ([r] + rest)[1..] == rest;
  }

  lemma PauseIsDropped()
    ensures DropPause([R10, ASKED], 11) == [R10]
  {
    hide DropPause;
    DropPauseStep(R10, [ASKED], 11);
    DropPauseStep(ASKED, [], 11);
    assert [R10] + [ASKED] == [R10, ASKED] && [ASKED] + [] == [ASKED];
    assert DropPause([], 11) == [] by { NothingDropped(11); }
    assert [R10] + [] == [R10];
  }

  lemma NothingDropped(callId: nat)
    ensures DropPause([], callId) == []
  {
  }

  lemma VerdictIsRecorded()
    ensures Accepts(ASKING, RUN5, REJECTED[5]) && Next(ASKING, RUN5, REJECTED[5]) == RUN6
  {
    hide DropPause;
    assert Width(ASKING, RUN5.s) == 1;
    PauseIsDropped();
    assert [R10] + [DENIED] == [R10, DENIED];
  }

  lemma ChangeRuns()
    ensures Accepts(ASKING, RUN7, REJECTED[7])
    ensures Next(ASKING, RUN7, REJECTED[7]).history == [[], [FAILED], [], [PAUSED], [], [VERDICT], [], [CHANGED]]
  {
    assert Width(ASKING, RUN7.s) == 1;
    assert !HasPhase(RUN7.s.results, FailureDiagnosis, C12.op) && !HasPhase(RUN7.s.results, ApprovalDenied, C12.op);
  }

  lemma Grow(n: nat, r: Run)
    requires n < |REJECTED| && ValidRun(ASKING, REJECTED[..n]) && After(ASKING, REJECTED[..n]) == r
    requires Accepts(ASKING, r, REJECTED[n])
    ensures ValidRun(ASKING, REJECTED[..n + 1]) && After(ASKING, REJECTED[..n + 1]) == Next(ASKING, r, REJECTED[n])
  {
    hide Next, Accepts;
    ExtendRun(ASKING, REJECTED[..n], REJECTED[n]);
    assert REJECTED[..n] + [REJECTED[n]] == REJECTED[..n + 1];
  }

  lemma RunSeven()
    ensures ValidRun(ASKING, REJECTED[..7]) && After(ASKING, REJECTED[..7]) == RUN7
  {
    hide Next, Accepts;
    assert ValidRun(ASKING, REJECTED[..0]) && After(ASKING, REJECTED[..0]) == Start();
    Proposes(Start(), 0, 10);
    Grow(0, Start());
    ReadFails();
    Grow(1, RUN1);
    Proposes(RUN2, 2, 11);
    Grow(2, RUN2);
    ReadAsks();
    Grow(3, RUN3);
    OperatorRejects();
    Grow(4, RUN4);
    VerdictIsRecorded();
    Grow(5, RUN5);
    Proposes(RUN6, 1, 12);
    Grow(6, RUN6);
  }

  lemma RejectedFlat()
    ensures Flatten([[], [FAILED], [], [PAUSED], [], [VERDICT], [], [CHANGED]]) == [FAILED, PAUSED, VERDICT, CHANGED]
  {
    var a, b, c := [[], [FAILED]], [[], [FAILED], [], [PAUSED]], [[], [FAILED], [], [PAUSED], [], [VERDICT]];
    TwoSteps([], FAILED);
    TwoSteps(a, PAUSED);
    TwoSteps(b, VERDICT);
    TwoSteps(c, CHANGED);
    assert [] + [[], [FAILED]] == a && a + [[], [PAUSED]] == b && b + [[], [VERDICT]] == c;
    assert c + [[], [CHANGED]] == [[], [FAILED], [], [PAUSED], [], [VERDICT], [], [CHANGED]];
    assert [] + [FAILED] == [FAILED];
  }

  lemma TwoSteps(history: seq<seq<Event>>, e: Event)
    ensures Flatten(history + [[], [e]]) == Flatten(history) + [e]
  {
    hide Flatten;
    FlattenStep(history, []);
    FlattenStep(history + [[]], [e]);
    assert history + [[]] + [[e]] == history + [[], [e]];
    assert Flatten(history) + [] == Flatten(history);
  }

  /** A registered read that asks for an approval is enough: its rejection lowers the flag that a failed read had
      raised, and a change is dispatched although no read has succeeded. */
  lemma RejectionCanDropTheGuard()
    ensures ASKING.Valid() && ValidRun(ASKING, REJECTED) && ValidRun(ASKING, REJECTED[..4])
    ensures FlagUp(After(ASKING, REJECTED[..4]).s) && After(ASKING, REJECTED[..4]).s.status.Paused?
    ensures !Disciplined(ASKING, Flatten(After(ASKING, REJECTED).history))
  {
    hide Next, Accepts;
    RunSeven();
    ChangeRuns();
    Grow(7, RUN7);
    assert REJECTED[..8] == REJECTED;
    PausedAtFour();
    RejectedFlat();
    var log := [FAILED, PAUSED, VERDICT, CHANGED];
    assert Hazard(ASKING, log[0]) && ChangeDispatched(ASKING, log[3]);
    assert forall k | 0 < k < 3 :: !ReadSucceeded(ASKING, log[k]);
  }

  lemma PausedAtFour()
    ensures ValidRun(ASKING, REJECTED[..4]) && After(ASKING, REJECTED[..4]) == RUN4
  {
    hide Next, Accepts;
    assert ValidRun(ASKING, REJECTED[..0]) && After(ASKING, REJECTED[..0]) == Start();
    Proposes(Start(), 0, 10);
    Grow(0, Start());
    ReadFails();
    Grow(1, RUN1);
    Proposes(RUN2, 2, 11);
    Grow(2, RUN2);
    ReadAsks();
    Grow(3, RUN3);
  }
}
