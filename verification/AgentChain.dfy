/** When an auto-approved run chains two changes: never while every response proposes at most one, and always possible
    once two changes stand next in the queue. */
module AgentChain {
  import opened Wrappers
  import opened AgentState
  import opened AgentTool
  import opened AgentBatch
  import opened AgentModel
  import opened AgentRun
  import opened AgentFacts
  import opened AgentTidy
  import opened AgentConfirm

  /** A registered operation that changes the target. */
  predicate Acts(cfg: Config, op: Operation) {
    op.tool in cfg.registry && cfg.ChangesTarget(op)
  }

  /** No change is dispatched after one has succeeded. */
  ghost predicate NoChain(cfg: Config, log: seq<Event>) {
    forall i, j | 0 <= i < j < |log| :: !(Changed(cfg, log[i]) && TriesChange(cfg, log[j]))
  }

  /** What a caller can see of a response before it is admitted. */
  predicate OneChange(cfg: Config, proposals: seq<Proposal>) {
    forall i, j | 0 <= i < j < |proposals| :: !(Acts(cfg, proposals[i].op) && Acts(cfg, proposals[j].op))
  }

  predicate OneChangeEach(cfg: Config, inputs: seq<Input>) {
    forall input | input in inputs && input.FromModel? :: OneChange(cfg, Proposals(input.reply))
  }

  // ----- one change for each response never chains -----

  predicate OneAct(cfg: Config, calls: seq<Call>) {
    forall i, j | 0 <= i < j < |calls| :: !(Acts(cfg, calls[i].op) && Acts(cfg, calls[j].op))
  }

  predicate NoAct(cfg: Config, calls: seq<Call>) {
    forall c | c in calls :: !Acts(cfg, c.op)
  }

  /** The queue holds at most one change, and none after a change has succeeded. */
  ghost predicate Unchained(cfg: Config, s: State, log: seq<Event>) {
    && NoChain(cfg, log)
    && (Live(s) ==> OneAct(cfg, Queue(s)) && (SomeChange(cfg, log) ==> NoAct(cfg, Queue(s))))
  }

  lemma NoChainAppend(cfg: Config, log: seq<Event>, e: Event)
    requires NoChain(cfg, log) && (SomeChange(cfg, log) ==> !TriesChange(cfg, e))
    ensures NoChain(cfg, log + [e])
  {
    var all := log + [e];
    forall i, j | 0 <= i < j < |all| ensures !(Changed(cfg, all[i]) && TriesChange(cfg, all[j])) {
      if j == |log| { assert log[i] in log; }
    }
  }

  lemma OneActSuffix(cfg: Config, calls: seq<Call>, n: nat)
    requires OneAct(cfg, calls) && n <= |calls|
    ensures OneAct(cfg, calls[n..])
    ensures n == 1 && Acts(cfg, calls[0].op) ==> NoAct(cfg, calls[1..])
    ensures NoAct(cfg, calls) ==> NoAct(cfg, calls[n..])
  {
    if n == 1 && Acts(cfg, calls[0].op) {
      forall c | c in calls[1..] ensures !Acts(cfg, c.op) {
        var j :| 1 <= j < |calls| && calls[j] == c;
      }
    }
  }

  /** What an event of one call tells about its operation. */
  lemma EventActs(cfg: Config, s: State, index: nat, remaining: int, env: ToolEnv)
    requires index < |s.calls|
    ensures var call, kind := s.calls[index], Handle(cfg, s, index, remaining, env).1;
            var e := Event(call.callId, call.op, call.round, IsDispatched(cfg, s, call, env), kind);
            (Changed(cfg, e) || TriesChange(cfg, e)) ==> Acts(cfg, call.op)
  {
    hide HandleError, Repeated;
    ReturnedIsRegistered(cfg, s, index, remaining, env);
  }

  lemma ReturnedIsRegistered(cfg: Config, s: State, index: nat, remaining: int, env: ToolEnv)
    requires index < |s.calls|
    ensures Handle(cfg, s, index, remaining, env).1.Returned? ==> s.calls[index].op.tool in cfg.registry
  {
    hide DropPause, Count, TrailingRepairs, Repeated, Without, CountedAfter, CallCountAfter;
  }

  lemma QueueCases(cfg: Config, s: State, u: Update, kind: Kind)
    requires s.status.Running? && s.callIndex < |s.calls| && Shape(cfg, s, s.callIndex, u, kind) && Live(Apply(s, u))
    ensures Queue(s) != [] && Queue(s)[0] == s.calls[s.callIndex]
    ensures var t := Apply(s, u);
            Queue(t) == Queue(s)[1..] || Queue(t) == [] || (Queue(t) == Queue(s) && kind.AskedApproval?)
  {
    hide RecordRule;
  }

  lemma UnchainedSingle(cfg: Config, s: State, env: ToolEnv, remaining: int, log: seq<Event>)
    requires s.status.Running? && s.callIndex < |s.calls| && Unchained(cfg, s, log)
    ensures var call := s.calls[s.callIndex];
            var (u, kind) := Handle(cfg, s, s.callIndex, remaining, env);
            Unchained(cfg, Apply(s, u), log + [Event(call.callId, call.op, call.round, IsDispatched(cfg, s, call, env), kind)])
  {
    hide Handle, IsDispatched, Shape, Acts, TriesChange, Apply, NoChain, OneAct;
    var call := s.calls[s.callIndex];
    var (u, kind) := Handle(cfg, s, s.callIndex, remaining, env);
    var e := Event(call.callId, call.op, call.round, IsDispatched(cfg, s, call, env), kind);
    EventActs(cfg, s, s.callIndex, remaining, env);
    HandleShape(cfg, s, s.callIndex, remaining, env);
    assert Queue(s) == [call] + Queue(s)[1..];
    assert call in Queue(s);
    NoChainAppend(cfg, log, e);
    if Live(Apply(s, u)) {
      QueueCases(cfg, s, u, kind);
      OneActSuffix(cfg, Queue(s), 1);
      NothingActs(cfg);
      SomeChangeAppend(cfg, log, e);
    }
  }

  lemma SomeChangeAppend(cfg: Config, log: seq<Event>, e: Event)
    ensures SomeChange(cfg, log + [e]) <==> SomeChange(cfg, log) || Changed(cfg, e)
  {
    hide Changed;
    var all := log + [e];
    assert e in all && forall x | x in log :: x in all;
    if x :| x in all && Changed(cfg, x) { assert x in log || x == e; }
  }

  /** Events that change nothing, and a queue that only lost calls or gained reads. */
  lemma UnchainedQuietly(cfg: Config, s: State, t: State, log: seq<Event>, events: seq<Event>, kept: seq<Call>, n: nat)
    requires s.status.Running? && Unchained(cfg, s, log)
    requires forall e | e in events :: !Changed(cfg, e) && !TriesChange(cfg, e)
    requires n <= |Queue(s)| && NoAct(cfg, kept)
    requires Live(t) ==> Queue(t) == kept + Queue(s)[n..]
    ensures Unchained(cfg, t, log + events)
  {
    hide Changed, TriesChange, Acts;
    var all := log + events;
    forall k | |log| <= k < |all| ensures !Changed(cfg, all[k]) && !TriesChange(cfg, all[k]) {
      assert all[k] in events;
    }
    if SomeChange(cfg, all) {
      var e :| e in all && Changed(cfg, e);
      assert SomeChange(cfg, log);
    }
    OneActSuffix(cfg, Queue(s), n);
    forall k | 0 <= k < |kept| ensures !Acts(cfg, kept[k].op) { assert kept[k] in kept; }
  }

  lemma ReadsDoNotAct(cfg: Config, s: State, n: nat)
    requires cfg.Valid() && s.callIndex + n <= |s.calls|
    requires forall i | s.callIndex <= i < s.callIndex + n :: cfg.IsParallelSafe(s.calls[i].op)
    ensures NoAct(cfg, Group(s, n))
  {
    forall c | c in Group(s, n) ensures !Acts(cfg, c.op) {
      var k :| 0 <= k < n && Group(s, n)[k] == c;
      assert s.calls[s.callIndex + k] == c;
    }
  }

  lemma UnchainedBatch(cfg: Config, s: State, envs: seq<ToolEnv>, log: seq<Event>, issued: set<nat>)
    requires cfg.Valid() && s.status.Running? && Unchained(cfg, s, log) && TidyState(s, issued)
    requires 0 < |envs| <= cfg.maxOutput - s.outputBytes && s.callIndex + |envs| <= |s.calls|
    requires forall i | s.callIndex <= i < s.callIndex + |envs| :: cfg.IsParallelSafe(s.calls[i].op)
    ensures var (u, events) := BatchResult(cfg, s, envs); Unchained(cfg, Apply(s, u), log + events)
  {
    hide Siblings, Member, Absorb, MergeUpTo, SiblingUpdates, Conclude, Apply, Changed, OpenQueue, OpenCall, TriesChange,
      Unchained, DistinctIds, InGroup, Acts;
    var n, share := |envs|, Share(cfg, s, |envs|);
    SiblingsAre(cfg, s, share, envs);
    var (updates, events) := SiblingUpdates(cfg, s, share, envs);
    var group, m := Group(s, n), MergeUpTo(cfg, s, updates, n);
    BatchChangesNothing(cfg, s, group, envs, share, updates, events);
    MergedBatchIs(cfg, s, group, envs, share, updates, events, issued);
    MergedParts(s, group, m, issued);
    ConcludeCases(s, n, m);
    QueueParts(s, n);
    ReadsDoNotAct(cfg, s, n);
    var t := Apply(s, Conclude(s, n, m));
    var kept := if t.status.Paused? then m.pending else [];
    assert t.status.Running? ==> Queue(t) == kept + Queue(s)[n..];
    UnchainedQuietly(cfg, s, t, log, events, kept, n);
  }

  lemma UnchainedTools(cfg: Config, r: Run, envs: seq<ToolEnv>)
    requires cfg.Valid() && Tidy(r) && Ready(cfg, r, envs) && Unchained(cfg, r.s, Flatten(r.history))
    ensures var next := Next(cfg, r, FromTools(envs)); Unchained(cfg, next.s, Flatten(next.history))
  {
    hide Handle, BatchResult, Unchained, TidyState, Apply, Flatten;
    var s, log := r.s, Flatten(r.history);
    var (u, events) := ToolUpdate(cfg, s, envs);
    FlattenStep(r.history, events);
    if |envs| > 1 {
      UnchainedBatch(cfg, s, envs, log, r.issued);
    } else if cfg.maxOutput - s.outputBytes > 0 {
      UnchainedSingle(cfg, s, envs[0], cfg.maxOutput - s.outputBytes, log);
    } else {
      assert log + events == log;
      UnchainedStop(cfg, s, OutputBudgetExceeded, log);
    }
    UnchainedCheckpoint(cfg, Apply(s, u), log + events);
  }

  lemma UnchainedStop(cfg: Config, s: State, code: Code, log: seq<Event>)
    requires Unchained(cfg, s, log)
    ensures Unchained(cfg, Apply(s, Bare(Stopped, Some(code))), log)
  {
  }

  lemma UnchainedCheckpoint(cfg: Config, s: State, log: seq<Event>)
    requires Unchained(cfg, s, log)
    ensures Unchained(cfg, Checkpointed(cfg, s), log)
  {
    hide NoChain, SomeChange;
  }

  lemma EffectlessDoNotAct(cfg: Config, proposals: seq<Proposal>)
    ensures forall p | p in Effectless(cfg, proposals) :: !Acts(cfg, p.op)
  {
    EffectlessAre(cfg, proposals);
  }

  /** The queue of an admitted response. */
  lemma AdmittedQueue(cfg: Config, s: State, proposals: seq<Proposal>, t: State)
    requires t == Admitted(s, proposals) || AsAdmitted(s, proposals, t)
    ensures !t.status.Paused?
    ensures Live(t) && OneChange(cfg, proposals) ==> OneAct(cfg, Queue(t))
    ensures Live(t) && (forall p | p in proposals :: !Acts(cfg, p.op)) ==> NoAct(cfg, Queue(t))
  {
    hide EndModel, Acts;
    EndStops(s, InvalidModelToolCall);
    if t.status.Running? {
      var calls := CleanCalls(proposals, s.modelRounds + 1);
      assert Queue(t) == calls;
      forall k | 0 <= k < |calls| ensures calls[k].op == proposals[k].op && proposals[k] in proposals {}
    }
  }

  lemma EndStops(s: State, code: Code)
    ensures EndModel(s, code).status.Stopped?
  {
  }

  lemma UnchainedModel(cfg: Config, r: Run, reply: Reply)
    requires r.s.status.Running? && Unchained(cfg, r.s, Flatten(r.history)) && Confirmed(cfg, r.s, Flatten(r.history))
    requires OneChange(cfg, Proposals(reply))
    ensures Unchained(cfg, CallModel(cfg, r.s, reply), Flatten(r.history))
  {
    hide CallModel, Admitted, Effectless, Flatten, NoChain, OneChange, OneAct, SomeChange, OneResponse, SameRound, QueueFollows, Acts;
    var s, t, proposals := r.s, CallModel(cfg, r.s, reply), Proposals(reply);
    ModelCases(cfg, s, reply);
    if Quiet(s, t) {
      assert Live(t) ==> Queue(t) == [];
      NothingActs(cfg);
    } else if t == Admitted(s, proposals) && !(s.confirm && exists p | p in proposals :: cfg.ChangesTarget(p.op)) {
      AdmittedQueue(cfg, s, proposals, t);
      if s.confirm { HarmlessDoNotAct(cfg, proposals); }
    } else {
      EffectlessDoNotAct(cfg, proposals);
      AdmittedQueue(cfg, s, Effectless(cfg, proposals), t);
      HarmlessIsOneChange(cfg, Effectless(cfg, proposals));
    }
  }

  lemma NothingActs(cfg: Config)
    ensures OneAct(cfg, []) && NoAct(cfg, [])
  {
  }

  lemma HarmlessDoNotAct(cfg: Config, proposals: seq<Proposal>)
    requires forall p | p in proposals :: !cfg.ChangesTarget(p.op)
    ensures forall p | p in proposals :: !Acts(cfg, p.op)
  {
  }

  lemma HarmlessIsOneChange(cfg: Config, proposals: seq<Proposal>)
    requires forall p | p in proposals :: !Acts(cfg, p.op)
    ensures OneChange(cfg, proposals)
  {
    hide Acts;
    forall i | 0 <= i < |proposals| ensures !Acts(cfg, proposals[i].op) { assert proposals[i] in proposals; }
  }

  lemma UnchainedLost(cfg: Config, s: State, log: seq<Event>, lost: seq<Event>)
    requires Unchained(cfg, s, log) && s.status.Running?
    requires forall e | e in lost :: e.kind.Lost? && (TriesChange(cfg, e) ==> exists c :: c in Queue(s) && Acts(cfg, c.op))
    ensures Unchained(cfg, s, log + lost)
  {
    hide TriesChange, Queue, Acts, OneAct;
    var all := log + lost;
    forall k | |log| <= k < |all| ensures !Changed(cfg, all[k]) && (SomeChange(cfg, log) ==> !TriesChange(cfg, all[k])) {
      assert all[k] in lost;
    }
    forall i, j | 0 <= i < j < |all| ensures !(Changed(cfg, all[i]) && TriesChange(cfg, all[j])) {
      if i < |log| { assert all[i] in log; }
    }
    if SomeChange(cfg, all) {
      var e :| e in all && Changed(cfg, e);
      assert e in log;
    }
  }

  /** A step that is lost can only have tried a change that is still queued. */
  lemma LostTries(cfg: Config, s: State, envs: seq<ToolEnv>)
    requires s.callIndex < |s.calls| && |envs| == Width(cfg, s) && cfg.Valid()
    ensures forall e | e in AsLost(ToolUpdate(cfg, s, envs).1) ::
              e.kind.Lost? && (TriesChange(cfg, e) ==> exists c :: c in Queue(s) && Acts(cfg, c.op))
  {
    hide Handle, SiblingUpdates, Conclude, MergeUpTo, Siblings, Member, Acts, TriesChange, Queue;
    var (u, events) := ToolUpdate(cfg, s, envs);
    if |envs| > 1 {
      var share, group := Share(cfg, s, |envs|), Group(s, |envs|);
      SiblingsAre(cfg, s, share, envs);
      var (updates, events') := SiblingUpdates(cfg, s, share, envs);
      BatchChangesNothing(cfg, s, group, envs, share, updates, events);
      forall k | 0 <= k < |events| ensures !TriesChange(cfg, AsLost(events)[k]) {
        assert events[k] in events;
        LostTriesTheSame(cfg, events[k]);
      }
    } else if cfg.maxOutput - s.outputBytes > 0 {
      EventActs(cfg, s, s.callIndex, cfg.maxOutput - s.outputBytes, envs[0]);
      LostTriesTheSame(cfg, events[0]);
      NextIsQueued(s);
    }
  }

  lemma LostTriesTheSame(cfg: Config, e: Event)
    ensures TriesChange(cfg, e.(kind := Lost)) <==> TriesChange(cfg, e)
  {
  }

  lemma NextIsQueued(s: State)
    requires s.callIndex < |s.calls|
    ensures s.calls[s.callIndex] in Queue(s)
  {
    assert Queue(s)[0] == s.calls[s.callIndex];
  }

  lemma UnchainedNext(cfg: Config, r: Run, input: Input)
    requires cfg.Valid() && Tidy(r) && Accepts(cfg, r, input)
    requires Unchained(cfg, r.s, Flatten(r.history)) && Confirmed(cfg, r.s, Flatten(r.history))
    requires input.FromModel? ==> OneChange(cfg, Proposals(input.reply))
    ensures var next := Next(cfg, r, input); Unchained(cfg, next.s, Flatten(next.history))
  {
    hide Unchained, Confirmed, CallModel, ReviewGoal, ToolUpdate, Resume, Flatten, TidyState, OneChange;
    var log := Flatten(r.history);
    FlattenStep(r.history, []);
    assert log + [] == log;
    match input
    case FromModel(reply) => UnchainedModel(cfg, r, reply);
    case FromTools(envs) => UnchainedTools(cfg, r, envs);
    case Interrupted(envs) =>
      var lost := AsLost(ToolUpdate(cfg, r.s, envs).1);
      FlattenStep(r.history, lost);
      LostTries(cfg, r.s, envs);
      UnchainedLost(cfg, r.s, log, lost);
    case FromReview(review) =>
      QuietReview(cfg, r.s, review);
      UnchainedQuiet(cfg, r.s, ReviewGoal(cfg, r.s, review), log);
    case FromOperator(fingerprint, approved, code) =>
      ResumeAgrees(r.s, fingerprint, approved, code);
      UnchainedVerdict(cfg, r.s, fingerprint, approved, code, log);
  }

  lemma UnchainedQuiet(cfg: Config, s: State, t: State, log: seq<Event>)
    requires Unchained(cfg, s, log) && Quiet(s, t)
    ensures Unchained(cfg, t, log)
  {
    hide NoChain, SomeChange, Acts;
    assert Live(t) ==> Queue(t) == [];
    NothingActs(cfg);
  }

  lemma UnchainedVerdict(cfg: Config, s: State, fingerprint: nat, approved: bool, code: Code, log: seq<Event>)
    requires Unchained(cfg, s, log) && Resume(s, fingerprint, approved, code).Some?
    ensures Unchained(cfg, Resume(s, fingerprint, approved, code).value, log)
  {
    hide NoChain, SomeChange, Acts;
    assert Queue(Resume(s, fingerprint, approved, code).value) == Queue(s);
  }

  lemma {:induction false} UnchainedAlways(cfg: Config, inputs: seq<Input>)
    requires cfg.Valid() && cfg.autoApproval && ValidRun(cfg, inputs) && OneChangeEach(cfg, inputs)
    ensures var r := After(cfg, inputs); Unchained(cfg, r.s, Flatten(r.history))
  {
    hide Next, Accepts, Unchained, Confirmed, OneChange;
    if inputs == [] {
      UnchainedStart(cfg);
    } else {
      var before, input := inputs[..|inputs| - 1], inputs[|inputs| - 1];
      assert input in inputs && forall x | x in before :: x in inputs;
      UnchainedAlways(cfg, before);
      ConfirmedAlways(cfg, before);
      TidyAlways(cfg, before);
      UnchainedNext(cfg, After(cfg, before), input);
    }
  }

  lemma UnchainedStart(cfg: Config)
    ensures Unchained(cfg, Start().s, Flatten(Start().history))
  {
  }

  /** Main result: in an auto-approved run in which every response proposes at most one change, no change is ever
      dispatched after one has succeeded. */
  lemma OneChangeEachNeverChains(cfg: Config, inputs: seq<Input>)
    requires cfg.Valid() && cfg.autoApproval && ValidRun(cfg, inputs) && OneChangeEach(cfg, inputs)
    ensures NoChain(cfg, Flatten(After(cfg, inputs).history))
  {
    UnchainedAlways(cfg, inputs);
  }
}
