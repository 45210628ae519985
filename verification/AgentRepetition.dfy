/** Once an operation was denied, is unresolved or was diagnosed, no later step of the run dispatches it again. */
module AgentRepetition {
  import opened Wrappers
  import opened AgentState
  import opened AgentTool
  import opened AgentBatch
  import opened AgentModel
  import opened AgentRun
  import opened AgentFacts
  import opened AgentTidy

  /** The event recorded a verdict on this operation. */
  predicate Settles(e: Event) {
    e.kind.Denied? || e.kind.Diagnosed? || e.kind.Unresolved?
  }

  /** What a step dispatches, no earlier step settled. */
  ghost predicate NoReplay(history: seq<seq<Event>>) {
    forall i: nat, j: nat, e: Event, f: Event | 0 <= i < j < |history| && e in history[i] && Settles(e) && f in history[j] && f.dispatched ::
      e.op != f.op
  }

  /** A record that blocks its operation for good. */
  predicate Blocks(r: Record, op: Operation) {
    (r.phase.ApprovalDenied? || r.phase.OutcomeUnknown? || r.phase.FailureDiagnosis?) && r.digest == Some(op)
    && !r.status.AwaitingApproval?
  }

  predicate Blocked(results: seq<Record>, op: Operation) {
    exists r | r in results :: Blocks(r, op)
  }

  ghost predicate Remembers(history: seq<seq<Event>>, results: seq<Record>) {
    forall i, e | 0 <= i < |history| && e in history[i] && Settles(e) :: Blocked(results, e.op)
  }

  /** What the log must keep and gain for the next step. */
  ghost predicate LogGrows(results: seq<Record>, results': seq<Record>, events: seq<Event>) {
    && (forall op :: Blocked(results, op) ==> Blocked(results', op))
    && (forall e | e in events && Settles(e) :: Blocked(results', e.op))
    && (forall e | e in events && e.dispatched :: !Blocked(results, e.op))
  }

  lemma DispatchIsNew(cfg: Config, s: State, call: Call, env: ToolEnv)
    requires IsDispatched(cfg, s, call, env)
    ensures !Blocked(s.results, call.op)
  {
  }

  lemma RecordBlocks(call: Call, record: Record, kind: Kind, op: Operation)
    requires RecordRule(call, record, kind) && (kind.Denied? || kind.Diagnosed? || kind.Unresolved?) && op == call.op
    ensures Blocks(record, op)
  {
  }

  lemma GrowSingle(cfg: Config, s: State, index: nat, remaining: int, env: ToolEnv)
    requires index < |s.calls|
    ensures var (u, kind) := Handle(cfg, s, index, remaining, env);
            var call := s.calls[index];
            u.results.Some? &&
            LogGrows(s.results, u.results.value, [Event(call.callId, call.op, call.round, IsDispatched(cfg, s, call, env), kind)])
  {
    hide Handle, IsDispatched, RecordRule;
    HandleShape(cfg, s, index, remaining, env);
    var (u, kind) := Handle(cfg, s, index, remaining, env);
    var call := s.calls[index];
    var e := Event(call.callId, call.op, call.round, IsDispatched(cfg, s, call, env), kind);
    forall op | Blocked(s.results, op) ensures Blocked(u.results.value, op) {
      var r :| r in s.results && Blocks(r, op);
      DropPauseKeeps(s.results, call.callId, r);
      assert r in u.results.value;
    }
    if Settles(e) {
      RecordBlocks(call, NewRecord(u).value, kind, call.op);
      assert NewRecord(u).value in u.results.value;
    }
    if e.dispatched { DispatchIsNew(cfg, s, call, env); }
  }

  lemma GrowBatch(cfg: Config, s: State, envs: seq<ToolEnv>)
    requires DistinctIds(s.calls)
    requires 0 < |envs| <= cfg.maxOutput - s.outputBytes && s.callIndex + |envs| <= |s.calls|
    ensures var (u, events) := BatchResult(cfg, s, envs); LogGrows(s.results, Apply(s, u).results, events)
  {
    hide Siblings, Member, Absorb, MergeUpTo, SiblingUpdates, Conclude, Apply, Blocks, InGroup, IsDispatched, RecordRule, Settles, NewRecord;
    var n, share := |envs|, Share(cfg, s, |envs|);
    SiblingsAre(cfg, s, share, envs);
    var (updates, events) := SiblingUpdates(cfg, s, share, envs);
    var group, m := Group(s, n), MergeUpTo(cfg, s, updates, n);
    ConcludeCases(s, n, m);
    forall op | Blocked(s.results, op) ensures Blocked(m.results, op) {
      var r :| r in s.results && Blocks(r, op);
      BlocksIsSettled(r, op);
      MergedRecords(cfg, s, group, envs, share, updates, events, n, r);
    }
    forall e | e in events ensures (Settles(e) ==> Blocked(m.results, e.op)) && (e.dispatched ==> !Blocked(s.results, e.op)) {
      var k :| 0 <= k < |events| && events[k] == e;
      SiblingSizes(cfg, s, group, envs, share, updates, events);
      MemberAt(cfg, s, group, envs, share, updates, events, k);
      GrowMember(cfg, s, group, envs, share, updates, events, k);
    }
  }

  lemma BlocksIsSettled(r: Record, op: Operation)
    requires Blocks(r, op)
    ensures !r.status.AwaitingApproval?
  {
  }

  lemma GrowMember(cfg: Config, s: State, group: seq<Call>, envs: seq<ToolEnv>, share: nat, updates: seq<Update>,
                   events: seq<Event>, k: nat)
    requires Siblings(cfg, s, group, envs, share, updates, events) && DistinctIds(s.calls) && k < |envs|
    ensures |events| == |envs|
    ensures Settles(events[k]) ==> Blocked(MergeUpTo(cfg, s, updates, |envs|).results, events[k].op)
    ensures events[k].dispatched ==> !Blocked(s.results, events[k].op)
  {
    hide Siblings, Absorb, MergeUpTo, InGroup, Handle, Shape, IsDispatched, RecordRule;
    SiblingSizes(cfg, s, group, envs, share, updates, events);
    MemberAt(cfg, s, group, envs, share, updates, events, k);
    MemberRecord(cfg, s, k, group[k], envs[k], share, updates[k], events[k]);
    if Settles(events[k]) {
      var r := NewRecord(updates[k]).value;
      RecordBlocks(group[k], r, events[k].kind, events[k].op);
      MergedRecords(cfg, s, group, envs, share, updates, events, |envs|, r);
    }
    if events[k].dispatched { DispatchIsNew(cfg, s, group[k], envs[k]); }
  }

  lemma HistoryGrows(history: seq<seq<Event>>, events: seq<Event>, results: seq<Record>, results': seq<Record>)
    requires NoReplay(history) && Remembers(history, results) && LogGrows(results, results', events)
    ensures NoReplay(history + [events]) && Remembers(history + [events], results')
  {
    hide Blocked, Settles;
    var all := history + [events];
    forall i: nat, j: nat, e: Event, f: Event | 0 <= i < j < |all| && e in all[i] && Settles(e) && f in all[j] && f.dispatched
      ensures e.op != f.op
    {
      if j == |history| {
        assert e in history[i];
        assert f in events;
      } else {
        assert e in history[i] && f in history[j];
      }
    }
    forall i, e | 0 <= i < |all| && e in all[i] && Settles(e) ensures Blocked(results', e.op) {
      if i < |history| { assert e in history[i]; }
    }
  }

  lemma GrowTools(cfg: Config, r: Run, envs: seq<ToolEnv>)
    requires Tidy(r) && Ready(cfg, r, envs)
    ensures var (u, events) := ToolUpdate(cfg, r.s, envs);
            LogGrows(r.s.results, Checkpointed(cfg, Apply(r.s, u)).results, events)
  {
    hide Handle, BatchResult, LogGrows, OpenQueue;
    var s := r.s;
    var (u, events) := ToolUpdate(cfg, s, envs);
    if |envs| > 1 {
      GrowBatch(cfg, s, envs);
    } else if cfg.maxOutput - s.outputBytes > 0 {
      GrowSingle(cfg, s, s.callIndex, cfg.maxOutput - s.outputBytes, envs[0]);
    } else {
      SameLogGrows(s.results);
    }
  }

  lemma SameLogGrows(results: seq<Record>)
    ensures LogGrows(results, results, [])
  {
  }

  /** A lost step dispatches what it would have dispatched, but settles nothing. */
  lemma LostGrows(results: seq<Record>, results': seq<Record>, events: seq<Event>)
    requires LogGrows(results, results', events)
    ensures LogGrows(results, results, AsLost(events))
  {
    hide Blocked;
    var lost := AsLost(events);
    forall e | e in lost && e.dispatched ensures !Blocked(results, e.op) && !Settles(e) {
      var i :| 0 <= i < |lost| && lost[i] == e;
      assert events[i] in events;
    }
    forall e | e in lost ensures !Settles(e) {
      var i :| 0 <= i < |lost| && lost[i] == e;
    }
  }

  ghost predicate Unreplayed(r: Run) {
    NoReplay(r.history) && Remembers(r.history, r.s.results)
  }

  lemma ResultsKept(cfg: Config, r: Run, input: Input)
    requires Accepts(cfg, r, input) && !input.FromTools? && !input.Interrupted?
    ensures Next(cfg, r, input).s.results == r.s.results
  {
    hide CallModel, ReviewGoal, Quiet;
    match input
    case FromModel(reply) =>
      ModelCases(cfg, r.s, reply);
      assert forall t | Quiet(r.s, t) :: t.results == r.s.results by {
        forall t | Quiet(r.s, t) ensures t.results == r.s.results { QuietResults(r.s, t); }
      }
    case FromReview(review) =>
      QuietReview(cfg, r.s, review);
      QuietResults(r.s, ReviewGoal(cfg, r.s, review));
    case FromOperator(fingerprint, approved, code) => ResumeAgrees(r.s, fingerprint, approved, code);
    case _ =>
  }

  lemma QuietResults(s: State, t: State)
    requires Quiet(s, t)
    ensures t.results == s.results
  {
  }

  lemma UnreplayedNext(cfg: Config, r: Run, input: Input)
    requires Tidy(r) && Accepts(cfg, r, input) && Unreplayed(r)
    ensures Unreplayed(Next(cfg, r, input))
  {
    hide Tidy, NoReplay, Remembers, LogGrows, CallModel, ReviewGoal, ToolUpdate, Resume;
    if input.FromTools? {
      GrowTools(cfg, r, input.envs);
      HistoryGrows(r.history, ToolUpdate(cfg, r.s, input.envs).1, r.s.results, Next(cfg, r, input).s.results);
    } else if input.Interrupted? {
      var (u, events) := ToolUpdate(cfg, r.s, input.envs);
      GrowTools(cfg, r, input.envs);
      LostGrows(r.s.results, Checkpointed(cfg, Apply(r.s, u)).results, events);
      HistoryGrows(r.history, AsLost(events), r.s.results, r.s.results);
    } else {
      ResultsKept(cfg, r, input);
      SameLogGrows(r.s.results);
      HistoryGrows(r.history, [], r.s.results, r.s.results);
    }
  }

  /** Main result: in every run, through batches, pauses and re-execution, a settled operation is never
      dispatched by a later step. */
  lemma {:induction false} SettledNeverReplayed(cfg: Config, inputs: seq<Input>)
    requires ValidRun(cfg, inputs)
    ensures Unreplayed(After(cfg, inputs))
  {
    if inputs != [] {
      var before := inputs[..|inputs| - 1];
      SettledNeverReplayed(cfg, before);
      TidyAlways(cfg, before);
      UnreplayedNext(cfg, After(cfg, before), inputs[|inputs| - 1]);
    }
  }
}
