/** The confirmation turn of auto-approved runs: after a change has succeeded, every later dispatched change was
    proposed in the same model response. */
module AgentConfirm {
  import opened Wrappers
  import opened AgentState
  import opened AgentTool
  import opened AgentBatch
  import opened AgentModel
  import opened AgentRun
  import opened AgentFacts
  import opened AgentTidy

  predicate Changed(cfg: Config, e: Event) {
    cfg.ChangesTarget(e.op) && e.kind.Returned?
  }

  predicate TriesChange(cfg: Config, e: Event) {
    cfg.ChangesTarget(e.op) && e.dispatched
  }

  /** No change after a successful one comes from another model response. */
  ghost predicate OneResponse(cfg: Config, log: seq<Event>) {
    forall i, j | 0 <= i < j < |log| && Changed(cfg, log[i]) && TriesChange(cfg, log[j]) :: log[i].round == log[j].round
  }

  predicate SameRound(calls: seq<Call>) {
    forall a, b | a in calls && b in calls :: a.round == b.round
  }

  /** A change of the history, and what is still queued. */
  ghost predicate QueueFollows(cfg: Config, queue: seq<Call>, log: seq<Event>) {
    forall e, c | e in log && Changed(cfg, e) && c in queue && cfg.ChangesTarget(c.op) :: c.round == e.round
  }

  ghost predicate SomeChange(cfg: Config, log: seq<Event>) {
    exists e :: e in log && Changed(cfg, e)
  }

  ghost predicate Confirmed(cfg: Config, s: State, log: seq<Event>) {
    && OneResponse(cfg, log) && SameRound(s.calls)
    && (Live(s) ==> QueueFollows(cfg, Queue(s), log) && (SomeChange(cfg, log) ==> s.confirm))
  }

  lemma OneResponseAppend(cfg: Config, log: seq<Event>, queue: seq<Call>, call: Call, e: Event)
    requires OneResponse(cfg, log) && QueueFollows(cfg, queue, log) && call in queue
    requires e.op == call.op && e.round == call.round
    ensures OneResponse(cfg, log + [e])
  {
    var all := log + [e];
    forall i, j | 0 <= i < j < |all| && Changed(cfg, all[i]) && TriesChange(cfg, all[j]) ensures all[i].round == all[j].round {
      if j == |log| { assert log[i] in log; }
    }
  }

  lemma ConfirmSingle(cfg: Config, s: State, u: Update, e: Event, log: seq<Event>)
    requires cfg.autoApproval && s.status.Running? && s.callIndex < |s.calls| && Confirmed(cfg, s, log)
    requires Shape(cfg, s, s.callIndex, u, e.kind)
    requires e.op == s.calls[s.callIndex].op && e.round == s.calls[s.callIndex].round
    ensures Confirmed(cfg, Apply(s, u), log + [e])
  {
    hide OneResponse, Shape, Changed, Apply, SomeChange, QueueFollows;
    var t, call, queue := Apply(s, u), s.calls[s.callIndex], Queue(s);
    assert queue == [call] + queue[1..];
    assert call in queue && call in s.calls;
    OneResponseAppend(cfg, log, queue, call, e);
    RoundsStay(cfg, s, u, e.kind);
    if Live(t) {
      QueueShrinks(cfg, s, u, e.kind);
      FollowsAppend(cfg, s, Queue(t), log, call, e);
      if SomeChange(cfg, log + [e]) { ChangeConfirms(cfg, s, u, e, log); }
    }
  }

  lemma RoundsStay(cfg: Config, s: State, u: Update, kind: Kind)
    requires s.callIndex < |s.calls| && Shape(cfg, s, s.callIndex, u, kind) && SameRound(s.calls)
    ensures SameRound(Apply(s, u).calls)
  {
    hide RecordRule;
  }

  lemma FollowsAppend(cfg: Config, s: State, rest: seq<Call>, log: seq<Event>, call: Call, e: Event)
    requires QueueFollows(cfg, Queue(s), log) && SameRound(s.calls) && call in s.calls && e.round == call.round
    requires forall c | c in rest :: c in Queue(s) && c in s.calls
    ensures QueueFollows(cfg, rest, log + [e])
  {
    hide Changed, Queue;
    forall x, c | x in log + [e] && Changed(cfg, x) && c in rest && cfg.ChangesTarget(c.op) ensures c.round == x.round {
      if x !in log { assert x == e; }
    }
  }

  lemma QueueShrinks(cfg: Config, s: State, u: Update, kind: Kind)
    requires s.status.Running? && s.callIndex < |s.calls| && Shape(cfg, s, s.callIndex, u, kind) && Live(Apply(s, u))
    ensures forall c | c in Queue(Apply(s, u)) :: c in Queue(s) && c in s.calls
  {
    hide RecordRule;
    var t := Apply(s, u);
    if t.status.Running? && u.calls.None? { assert Queue(t) == Queue(s)[1..]; }
    forall c | c in Queue(s) ensures c in s.calls {}
  }

  lemma ChangeConfirms(cfg: Config, s: State, u: Update, e: Event, log: seq<Event>)
    requires cfg.autoApproval && s.status.Running? && s.callIndex < |s.calls| && Confirmed(cfg, s, log)
    requires Shape(cfg, s, s.callIndex, u, e.kind) && e.op == s.calls[s.callIndex].op
    requires SomeChange(cfg, log + [e])
    ensures Apply(s, u).confirm
  {
    hide RecordRule;
    var x :| x in log + [e] && Changed(cfg, x);
    if x in log { assert SomeChange(cfg, log); }
  }

  // ----- read batches: no member changes the target -----

  lemma BatchChangesNothing(cfg: Config, s: State, group: seq<Call>, envs: seq<ToolEnv>, share: nat,
                            updates: seq<Update>, events: seq<Event>)
    requires cfg.Valid() && Siblings(cfg, s, group, envs, share, updates, events)
    requires forall i | s.callIndex <= i < s.callIndex + |envs| :: cfg.IsParallelSafe(s.calls[i].op)
    ensures forall e | e in events :: !Changed(cfg, e) && !TriesChange(cfg, e)
  {
    hide Member;
    forall e | e in events ensures !Changed(cfg, e) && !TriesChange(cfg, e) {
      var k :| 0 <= k < |envs| && events[k] == e;
      MemberRecord(cfg, s, k, group[k], envs[k], share, updates[k], events[k]);
      assert group[k] == s.calls[s.callIndex + k];
      ReadsChangeNothing(cfg, group[k].op, e);
    }
  }

  lemma ConfirmBatch(cfg: Config, s: State, envs: seq<ToolEnv>, log: seq<Event>, issued: set<nat>)
    requires cfg.Valid() && s.status.Running? && Confirmed(cfg, s, log) && TidyState(s, issued) && DistinctIds(s.calls)
    requires 0 < |envs| <= cfg.maxOutput - s.outputBytes && s.callIndex + |envs| <= |s.calls|
    requires forall i | s.callIndex <= i < s.callIndex + |envs| :: cfg.IsParallelSafe(s.calls[i].op)
    ensures var (u, events) := BatchResult(cfg, s, envs); Confirmed(cfg, Apply(s, u), log + events)
  {
    hide Siblings, Member, Absorb, MergeUpTo, SiblingUpdates, Conclude, Apply, OneResponse, Changed, OpenQueue, OpenCall,
      Shape, TidyState, TriesChange, Confirmed, DistinctIds, InGroup;
    var n, share := |envs|, Share(cfg, s, |envs|);
    SiblingsAre(cfg, s, share, envs);
    var (updates, events) := SiblingUpdates(cfg, s, share, envs);
    var group, m := Group(s, n), MergeUpTo(cfg, s, updates, n);
    BatchChangesNothing(cfg, s, group, envs, share, updates, events);
    MergedBatchIs(cfg, s, group, envs, share, updates, events, issued);
    ConcludeCases(s, n, m);
    BatchQueue(s, n, m);
    ConfirmSmaller(cfg, s, Apply(s, Conclude(s, n, m)), log, events);
  }

  /** After a batch, every queued call was queued before. */
  lemma BatchQueue(s: State, n: nat, m: Merge)
    requires DistinctIds(s.calls) && s.callIndex + n <= |s.calls|
    requires forall c | c in m.pending :: c in Group(s, n)
    ensures var rest := s.calls[s.callIndex + n..];
            && (forall c | c in rest :: c in Queue(s))
            && (forall c | c in m.pending + rest :: c in Queue(s))
            && (forall c | c in Queue(s) :: c in s.calls)
  {
    hide DistinctIds;
    QueueParts(s, n);
    var group, rest := Group(s, n), s.calls[s.callIndex + n..];
    assert Queue(s) == group + rest;
    forall c | c in Queue(s) ensures c in s.calls {}
  }

  lemma ConfirmSmaller(cfg: Config, s: State, t: State, log: seq<Event>, events: seq<Event>)
    requires Confirmed(cfg, s, log) && s.status.Running? && t.confirm == s.confirm
    requires forall e | e in events :: !Changed(cfg, e) && !TriesChange(cfg, e)
    requires forall c | c in t.calls :: c in s.calls
    requires Live(t) ==> forall c | c in Queue(t) :: c in Queue(s)
    ensures Confirmed(cfg, t, log + events)
  {
    hide Changed, TriesChange, OneResponse, Queue;
    NothingChanged(cfg, log, events);
    if SomeChange(cfg, log + events) {
      var e :| e in log + events && Changed(cfg, e);
      assert SomeChange(cfg, log);
    }
  }

  lemma ReadsChangeNothing(cfg: Config, op: Operation, e: Event)
    requires cfg.Valid() && cfg.IsParallelSafe(op) && e.op == op
    ensures !Changed(cfg, e) && !TriesChange(cfg, e)
  {
  }

  lemma NothingChanged(cfg: Config, log: seq<Event>, events: seq<Event>)
    requires OneResponse(cfg, log)
    requires forall e | e in events :: !Changed(cfg, e) && !TriesChange(cfg, e)
    ensures OneResponse(cfg, log + events)
    ensures forall e | e in log + events && Changed(cfg, e) :: e in log
  {
    hide Changed, TriesChange;
    var all := log + events;
    forall k | |log| <= k < |all| ensures !Changed(cfg, all[k]) && !TriesChange(cfg, all[k]) {
      assert all[k] in events;
    }
  }

  // ----- whole runs -----

  lemma ConfirmTools(cfg: Config, r: Run, envs: seq<ToolEnv>)
    requires cfg.Valid() && cfg.autoApproval && Tidy(r) && Ready(cfg, r, envs) && Confirmed(cfg, r.s, Flatten(r.history))
    ensures var (u, events) := ToolUpdate(cfg, r.s, envs);
            Confirmed(cfg, Checkpointed(cfg, Apply(r.s, u)), Flatten(r.history) + events)
  {
    hide Handle, Shape, BatchResult, Confirmed, OpenQueue, Flatten, Apply;
    var s, log := r.s, Flatten(r.history);
    var (u, events) := ToolUpdate(cfg, s, envs);
    if |envs| > 1 {
      ConfirmBatch(cfg, s, envs, log, r.issued);
    } else if cfg.maxOutput - s.outputBytes > 0 {
      HandleShape(cfg, s, s.callIndex, cfg.maxOutput - s.outputBytes, envs[0]);
      ConfirmSingle(cfg, s, u, events[0], log);
    } else {
      assert log + events == log;
      ConfirmStop(cfg, s, u, log);
    }
    ConfirmCheckpoint(cfg, Apply(s, u), log + events);
  }

  lemma ConfirmStop(cfg: Config, s: State, u: Update, log: seq<Event>)
    requires Confirmed(cfg, s, log) && u == Bare(Stopped, Some(OutputBudgetExceeded))
    ensures Confirmed(cfg, Apply(s, u), log)
  {
  }

  lemma ConfirmCheckpoint(cfg: Config, s: State, log: seq<Event>)
    requires Confirmed(cfg, s, log)
    ensures Confirmed(cfg, Checkpointed(cfg, s), log)
  {
  }

  lemma ConfirmQuiet(cfg: Config, s: State, t: State, log: seq<Event>)
    requires Confirmed(cfg, s, log) && Quiet(s, t) && s.status.Running?
    ensures Confirmed(cfg, t, log)
  {
  }

  lemma ConfirmAdmitted(cfg: Config, s: State, proposals: seq<Proposal>, t: State, log: seq<Event>)
    requires Confirmed(cfg, s, log) && s.status.Running? && (t == Admitted(s, proposals) || AsAdmitted(s, proposals, t))
    requires s.confirm ==> forall p | p in proposals :: !cfg.ChangesTarget(p.op)
    ensures Confirmed(cfg, t, log)
  {
    hide CleanCalls, EndModel, Confirmed, QueueFollows;
    var calls := CleanCalls(proposals, s.modelRounds + 1);
    if exists p | p in proposals :: p.malformed {
      QuietEnd(s, s, InvalidModelToolCall);
      ConfirmQuiet(cfg, s, EndModel(s, InvalidModelToolCall), log);
      ConfirmRefusals(cfg, EndModel(s, InvalidModelToolCall), t, log);
    } else {
      CleanFacts(cfg, proposals, s.modelRounds + 1);
      ConfirmNewQueue(cfg, s, calls, Admitted(s, proposals), log);
      ConfirmRefusals(cfg, Admitted(s, proposals), t, log);
    }
  }

  lemma CleanFacts(cfg: Config, proposals: seq<Proposal>, round: nat)
    ensures SameRound(CleanCalls(proposals, round))
    ensures (forall p | p in proposals :: !cfg.ChangesTarget(p.op)) ==>
              forall c | c in CleanCalls(proposals, round) :: !cfg.ChangesTarget(c.op)
  {
    var calls := CleanCalls(proposals, round);
    forall c | c in calls ensures c.round == round && exists p :: p in proposals && p.op == c.op {
      var i :| 0 <= i < |calls| && calls[i] == c;
      assert proposals[i] in proposals;
    }
  }

  lemma ConfirmRefusals(cfg: Config, s: State, t: State, log: seq<Event>)
    requires Confirmed(cfg, s, log) && (t == s || t == s.(refusals := t.refusals))
    ensures Confirmed(cfg, t, log)
  {
  }

  lemma ConfirmNewQueue(cfg: Config, s: State, calls: seq<Call>, t: State, log: seq<Event>)
    requires Confirmed(cfg, s, log) && s.status.Running? && SameRound(calls)
    requires s.confirm ==> forall c | c in calls :: !cfg.ChangesTarget(c.op)
    requires t.calls == calls && t.callIndex == 0 && t.confirm == s.confirm
    ensures Confirmed(cfg, t, log)
  {
    hide Changed, OneResponse;
    assert Queue(t) == calls;
    if e :| e in log && Changed(cfg, e) {
      assert SomeChange(cfg, log);
    }
  }

  lemma ConfirmModel(cfg: Config, r: Run, reply: Reply)
    requires r.s.status.Running? && Confirmed(cfg, r.s, Flatten(r.history))
    ensures Confirmed(cfg, CallModel(cfg, r.s, reply), Flatten(r.history))
  {
    hide CallModel, Admitted, Effectless, Quiet, Confirmed, Flatten;
    ModelCases(cfg, r.s, reply);
    EffectlessAre(cfg, Proposals(reply));
    var t, log := CallModel(cfg, r.s, reply), Flatten(r.history);
    if Quiet(r.s, t) {
      ConfirmQuiet(cfg, r.s, t, log);
    } else if t == Admitted(r.s, Proposals(reply)) && !(r.s.confirm && exists p | p in Proposals(reply) :: cfg.ChangesTarget(p.op)) {
      ConfirmAdmitted(cfg, r.s, Proposals(reply), t, log);
    } else {
      ConfirmAdmitted(cfg, r.s, Effectless(cfg, Proposals(reply)), t, log);
    }
  }

  lemma ConfirmVerdict(cfg: Config, s: State, fingerprint: nat, approved: bool, code: Code, log: seq<Event>)
    requires Confirmed(cfg, s, log) && Resume(s, fingerprint, approved, code).Some?
    ensures Confirmed(cfg, Resume(s, fingerprint, approved, code).value, log)
  {
    hide OneResponse, Changed;
    assert Queue(Resume(s, fingerprint, approved, code).value) == Queue(s);
  }

  lemma ConfirmLost(cfg: Config, s: State, log: seq<Event>, lost: seq<Event>)
    requires Confirmed(cfg, s, log) && s.status.Running?
    requires forall e | e in lost :: e.kind.Lost? && exists c :: c in Queue(s) && e.op == c.op && e.round == c.round
    ensures Confirmed(cfg, s, log + lost)
  {
    hide TriesChange, SameRound, Queue;
    var all := log + lost;
    forall k | |log| <= k < |all| ensures !Changed(cfg, all[k]) {
      assert all[k] in lost;
    }
    forall i, j | 0 <= i < j < |all| && Changed(cfg, all[i]) && TriesChange(cfg, all[j]) ensures all[i].round == all[j].round {
      if j >= |log| && i < |log| {
        assert all[j] in lost && all[i] in log;
        var c :| c in Queue(s) && all[j].op == c.op && all[j].round == c.round;
        TriesIsChange(cfg, all[j]);
      }
    }
    forall e | e in all && Changed(cfg, e) ensures e in log {}
  }

  lemma TriesIsChange(cfg: Config, e: Event)
    requires TriesChange(cfg, e)
    ensures cfg.ChangesTarget(e.op)
  {
  }

  /** The events of a tool step belong to queued calls. */
  lemma EventsOfQueue(cfg: Config, s: State, envs: seq<ToolEnv>)
    requires s.callIndex < |s.calls| && |envs| == Width(cfg, s)
    ensures forall e | e in AsLost(ToolUpdate(cfg, s, envs).1) ::
              e.kind.Lost? && exists c :: c in Queue(s) && e.op == c.op && e.round == c.round
  {
    hide Handle, Shape, SiblingUpdates, Conclude, MergeUpTo, Siblings, Member;
    var (u, events) := ToolUpdate(cfg, s, envs);
    forall e | e in AsLost(events) ensures e.kind.Lost? && exists c :: c in Queue(s) && e.op == c.op && e.round == c.round {
      var k :| 0 <= k < |events| && AsLost(events)[k] == e;
      if |envs| > 1 {
        var share, group := Share(cfg, s, |envs|), Group(s, |envs|);
        SiblingsAre(cfg, s, share, envs);
        var (updates, events') := SiblingUpdates(cfg, s, share, envs);
        SiblingSizes(cfg, s, group, envs, share, updates, events);
        MemberAt(cfg, s, group, envs, share, updates, events, k);
        MemberRecord(cfg, s, k, group[k], envs[k], share, updates[k], events[k]);
        assert group[k] == Queue(s)[k] && group[k] in Queue(s);
      } else {
        assert s.calls[s.callIndex] == Queue(s)[0];
      }
    }
  }

  lemma ConfirmNext(cfg: Config, r: Run, input: Input)
    requires cfg.Valid() && cfg.autoApproval && Tidy(r) && Accepts(cfg, r, input)
    requires Confirmed(cfg, r.s, Flatten(r.history))
    ensures var next := Next(cfg, r, input); Confirmed(cfg, next.s, Flatten(next.history))
  {
    hide Confirmed, CallModel, ReviewGoal, ToolUpdate, Resume, Flatten, TidyState;
    var log := Flatten(r.history);
    FlattenStep(r.history, []);
    assert log + [] == log;
    match input
    case FromModel(reply) => ConfirmModel(cfg, r, reply);
    case FromTools(envs) =>
      FlattenStep(r.history, ToolUpdate(cfg, r.s, envs).1);
      ConfirmTools(cfg, r, envs);
    case Interrupted(envs) =>
      var lost := AsLost(ToolUpdate(cfg, r.s, envs).1);
      FlattenStep(r.history, lost);
      EventsOfQueue(cfg, r.s, envs);
      ConfirmLost(cfg, r.s, log, lost);
    case FromReview(review) =>
      QuietReview(cfg, r.s, review);
      ConfirmQuiet(cfg, r.s, ReviewGoal(cfg, r.s, review), log);
    case FromOperator(fingerprint, approved, code) =>
      ResumeAgrees(r.s, fingerprint, approved, code);
      ConfirmVerdict(cfg, r.s, fingerprint, approved, code, log);
  }

  lemma {:induction false} ConfirmedAlways(cfg: Config, inputs: seq<Input>)
    requires cfg.Valid() && cfg.autoApproval && ValidRun(cfg, inputs)
    ensures var r := After(cfg, inputs); Confirmed(cfg, r.s, Flatten(r.history))
  {
    if inputs != [] {
      var before := inputs[..|inputs| - 1];
      ConfirmedAlways(cfg, before);
      TidyAlways(cfg, before);
      ConfirmNext(cfg, After(cfg, before), inputs[|inputs| - 1]);
    }
  }

  /** Main result: in an auto-approved run a second change can only come from the response that proposed the first. */
  lemma ChangesShareOneResponse(cfg: Config, inputs: seq<Input>)
    requires cfg.Valid() && cfg.autoApproval && ValidRun(cfg, inputs)
    ensures OneResponse(cfg, Flatten(After(cfg, inputs).history))
  {
    ConfirmedAlways(cfg, inputs);
  }

  /** The stronger reading fails: both changes of one response run, with no read between them. */
  const TWO: Config := Config(map[1 := Spec(Write, true, false, false)], {}, false, true, None, None, 1000, 3)
  const SIZES: NoticeSizes := NoticeSizes(1, 1, 1, 1, 1, 1)
  const DONE: ToolEnv := ToolEnv(true, Value(0, 1), SIZES, false)
  const A: Call := Call(10, Operation(1, 0), 0, 1)
  const B: Call := Call(11, Operation(1, 1), 0, 1)
  const REPLY: Input := FromModel(Message([Proposal(Operation(1, 0), 0, 10, false), Proposal(Operation(1, 1), 0, 11, false)], 0))
  const RAN_A: Event := Event(10, Operation(1, 0), 1, true, Returned)
  const RAN_B: Event := Event(11, Operation(1, 1), 1, true, Returned)
  const RUN1: Run := Run(Execute, FreshState.(calls := [A, B], modelRounds := 1), [[]], {10, 11})
  const RUN2: Run := Run(Execute, RUN1.s.(callIndex := 1, counted := [10], callCount := 1, outputBytes := 1, confirm := true,
    results := [Record(10, 1, Succeeded, None, NoPhase, Some(Operation(1, 0)), Some(0))]), [[], [RAN_A]], {10, 11})

  lemma ResponseProposesBoth()
    ensures Accepts(TWO, Start(), REPLY) && Next(TWO, Start(), REPLY) == RUN1
  {
    assert CallIds(REPLY.reply.proposals) == {10, 11} by {
      assert REPLY.reply.proposals[0].callId == 10 && REPLY.reply.proposals[1].callId == 11;
    }
  }

  lemma FirstChangeRuns()
    ensures Accepts(TWO, RUN1, FromTools([DONE])) && Next(TWO, RUN1, FromTools([DONE])) == RUN2
  {
    assert Width(TWO, RUN1.s) == 1;
  }

  lemma SecondChangeRuns()
    ensures Accepts(TWO, RUN2, FromTools([DONE])) && Next(TWO, RUN2, FromTools([DONE])).history == [[], [RAN_A], [RAN_B]]
  {
    assert Width(TWO, RUN2.s) == 1;
  }

  lemma ResponseCanChainTwoChanges()
    ensures ValidRun(TWO, [REPLY, FromTools([DONE]), FromTools([DONE])])
    ensures After(TWO, [REPLY, FromTools([DONE]), FromTools([DONE])]).history == [[], [RAN_A], [RAN_B]]
    ensures Changed(TWO, RAN_A) && TriesChange(TWO, RAN_B)
  {
    hide Next, Accepts;
    ResponseProposesBoth();
    FirstChangeRuns();
    SecondChangeRuns();
    ExtendRun(TWO, [], REPLY);
    assert [] + [REPLY] == [REPLY];
    ExtendRun(TWO, [REPLY], FromTools([DONE]));
    assert [REPLY] + [FromTools([DONE])] == [REPLY, FromTools([DONE])];
    ExtendRun(TWO, [REPLY, FromTools([DONE])], FromTools([DONE]));
    assert [REPLY, FromTools([DONE])] + [FromTools([DONE])] == [REPLY, FromTools([DONE]), FromTools([DONE])];
  }
}
