/** Bookkeeping kept by every step of a run: call ids are unique, a call still in the queue has no settled
    record, and a merged read batch loses no record. */
module AgentTidy {
  import opened Wrappers
  import opened AgentState
  import opened AgentTool
  import opened AgentBatch
  import opened AgentModel
  import opened AgentRun
  import opened AgentFacts

  predicate DistinctIds(calls: seq<Call>) {
    forall i, j | 0 <= i < j < |calls| :: calls[i].callId != calls[j].callId
  }

  /** Every record of this call is still waiting for a decision. */
  predicate OpenCall(results: seq<Record>, callId: nat) {
    forall r | r in results && r.callId == callId :: r.status.AwaitingApproval?
  }

  predicate TidyState(s: State, issued: set<nat>) {
    && DistinctIds(s.calls)
    && (forall c | c in s.calls :: c.callId in issued)
    && (forall r | r in s.results :: r.callId in issued)
    && s.rejected.Keys <= issued
    && (forall x | x in s.counted :: x in issued)
    && (s.status.Running? || s.status.Paused? ==> OpenQueue(Queue(s), s.results, s.rejected))
    && (s.status.Paused? ==> Queue(s) != [] && Queue(s)[0].callId !in s.rejected)
  }

  /** The run may still go on. */
  predicate Live(s: State) { s.status.Running? || s.status.Paused? }

  /** The calls still to be handled. */
  function Queue(s: State): seq<Call> {
    if s.callIndex <= |s.calls| then s.calls[s.callIndex..] else []
  }

  /** None of the calls still to be handled is settled, and only the next one can carry a verdict. */
  predicate OpenQueue(queue: seq<Call>, results: seq<Record>, rejected: map<nat, Code>) {
    && (forall c | c in queue :: OpenCall(results, c.callId))
    && (queue != [] ==> forall c | c in queue[1..] :: c.callId !in rejected)
  }

  predicate Tidy(r: Run) {
    && TidyState(r.s, r.issued)
    && (r.node.Execute? ==> r.s.status.Running? && r.s.callIndex < |r.s.calls|)
    && (r.node.Model? || r.node.ReviewNode? ==> r.s.status.Running?)
    && (r.s.status.Paused? ==> r.node.End?)
  }

  /** The calls of a batch of n. */
  function Group(s: State, n: nat): seq<Call>
    requires s.callIndex + n <= |s.calls|
  {
    s.calls[s.callIndex..s.callIndex + n]
  }

  /** The members of a batch, seen one by one: what each was, how it was handled and what it recorded. */
  ghost predicate Siblings(cfg: Config, s: State, group: seq<Call>, envs: seq<ToolEnv>, share: nat,
                           updates: seq<Update>, events: seq<Event>) {
    && s.callIndex + |envs| <= |s.calls| && group == Group(s, |envs|)
    && |updates| == |envs| == |events|
    && forall k | 0 <= k < |envs| :: Member(cfg, s, k, group[k], envs[k], share, updates[k], events[k])
  }

  ghost predicate Member(cfg: Config, s: State, k: nat, call: Call, env: ToolEnv, share: nat, u: Update, e: Event) {
    && s.callIndex + k < |s.calls| && s.calls[s.callIndex + k] == call
    && u == Handle(cfg, s, s.callIndex + k, share, env).0
    && Shape(cfg, s, s.callIndex + k, u, e.kind)
    && e == Event(call.callId, call.op, call.round, IsDispatched(cfg, s, call, env), Handle(cfg, s, s.callIndex + k, share, env).1)
  }

  lemma SiblingIsMember(cfg: Config, s: State, n: nat, env: ToolEnv, share: nat)
    requires 0 < share <= cfg.maxOutput - s.outputBytes && s.callIndex + n < |s.calls|
    ensures var (u, events) := ExecuteTool(cfg, s, s.callIndex + n, Some(share), env);
            |events| == 1 && Member(cfg, s, n, s.calls[s.callIndex + n], env, share, u, events[0])
  {
    hide Handle, Shape, IsDispatched;
    HandleShape(cfg, s, s.callIndex + n, share, env);
  }

  lemma {:induction false} SiblingsAre(cfg: Config, s: State, share: nat, envs: seq<ToolEnv>)
    requires 0 < share <= cfg.maxOutput - s.outputBytes && s.callIndex + |envs| <= |s.calls|
    ensures var (updates, events) := SiblingUpdates(cfg, s, share, envs);
            Siblings(cfg, s, Group(s, |envs|), envs, share, updates, events)
  {
    hide ExecuteTool, Member;
    if envs != [] {
      var n := |envs| - 1;
      SiblingsAre(cfg, s, share, envs[..n]);
      SiblingIsMember(cfg, s, n, envs[n], share);
      var (before, log) := SiblingUpdates(cfg, s, share, envs[..n]);
      var (updates, events) := SiblingUpdates(cfg, s, share, envs);
      var group := Group(s, |envs|);
      forall k | 0 <= k < |envs|
        ensures Member(cfg, s, k, group[k], envs[k], share, updates[k], events[k])
      {
        if k < n {
          assert Member(cfg, s, k, Group(s, n)[k], envs[..n][k], share, before[k], log[k]);
        }
      }
    }
  }

  lemma {:induction false} DropCallKeeps(results: seq<Record>, callId: nat, r: Record)
    ensures r in DropCall(results, callId) <==> r in results && r.callId != callId
  {
    if results != [] {
      DropCallKeeps(results[1..], callId, r);
      assert results == [results[0]] + results[1..];
    }
  }

  lemma {:induction false} OnlyCallKeeps(results: seq<Record>, callId: nat, r: Record)
    ensures r in OnlyCall(results, callId) <==> r in results && r.callId == callId
  {
    if results != [] {
      OnlyCallKeeps(results[1..], callId, r);
      assert results == [results[0]] + results[1..];
    }
  }

  lemma PauseCarriesRequest(cfg: Config, s: State, index: nat, remaining: int, env: ToolEnv)
    requires index < |s.calls|
    ensures var (u, kind) := Handle(cfg, s, index, remaining, env);
            kind.AskedApproval? ==> u.approvals.Some? && |u.approvals.value| > 0 && u.calls == Some(s.calls)
                                    && IsDispatched(cfg, s, s.calls[index], env)
  {
    hide DropPause;
    HandleShape(cfg, s, index, remaining, env);
  }

  lemma SiblingSizes(cfg: Config, s: State, group: seq<Call>, envs: seq<ToolEnv>, share: nat,
                     updates: seq<Update>, events: seq<Event>)
    requires Siblings(cfg, s, group, envs, share, updates, events)
    ensures |group| == |updates| == |events| == |envs| && s.callIndex + |envs| <= |s.calls|
  {
    hide Member;
  }

  lemma MemberAt(cfg: Config, s: State, group: seq<Call>, envs: seq<ToolEnv>, share: nat,
                 updates: seq<Update>, events: seq<Event>, k: nat)
    requires Siblings(cfg, s, group, envs, share, updates, events) && k < |envs|
    ensures |group| == |updates| == |events| == |envs| && s.callIndex + |envs| <= |s.calls|
    ensures Member(cfg, s, k, group[k], envs[k], share, updates[k], events[k])
  {
    hide Member;
  }

  lemma MergeUnfold(cfg: Config, s: State, updates: seq<Update>, n: nat)
    requires n <= |updates| && s.callIndex + |updates| <= |s.calls|
    ensures n == 0 ==> MergeUpTo(cfg, s, updates, n) == StartMerge(s)
    ensures n > 0 ==> MergeUpTo(cfg, s, updates, n)
                      == Absorb(cfg, s, MergeUpTo(cfg, s, updates, n - 1), s.callIndex + n - 1, updates[n - 1])
  {
    hide Absorb;
  }

  lemma MemberRecord(cfg: Config, s: State, k: nat, call: Call, env: ToolEnv, share: nat, u: Update, e: Event)
    requires Member(cfg, s, k, call, env, share, u, e)
    ensures NewRecord(u).Some? && RecordRule(call, NewRecord(u).value, e.kind)
    ensures e.callId == call.callId && e.op == call.op && e.round == call.round
  {
    hide Handle;
  }

  /** One turn of the merge loop. */
  lemma AbsorbRecords(cfg: Config, s: State, m: Merge, k: nat, call: Call, env: ToolEnv, share: nat, u: Update, e: Event, r: Record)
    requires Member(cfg, s, k, call, env, share, u, e)
    ensures r in Absorb(cfg, s, m, s.callIndex + k, u).results <==>
            || (r in m.results && r.callId != call.callId)
            || (r in s.results && r.callId == call.callId && !r.status.AwaitingApproval?)
            || NewRecord(u) == Some(r)
  {
    hide SucceededIn;
    DropCallKeeps(m.results, call.callId, r);
    OnlyCallKeeps(u.results.value, call.callId, r);
    DropPauseKeeps(s.results, call.callId, r);
  }

  lemma AbsorbQueue(cfg: Config, s: State, m: Merge, k: nat, call: Call, env: ToolEnv, share: nat, u: Update, e: Event)
    requires Member(cfg, s, k, call, env, share, u, e)
    ensures var next := Absorb(cfg, s, m, s.callIndex + k, u);
            && next.counted == (if call.callId in m.counted then m.counted else m.counted + [call.callId])
            && next.pending == (if e.kind.AskedApproval? then m.pending + [call] else m.pending)
            && (next.firstApproval.Some? <==> m.firstApproval.Some? || e.kind.AskedApproval?)
            && (m.firstApproval.Some? ==> next.firstApproval == m.firstApproval)
            && (next.failure.Some? <==> m.failure.Some? || !(u.status.Running? || u.status.Paused?))
  {
    hide DropCall, OnlyCall, SucceededIn;
    PauseCarriesRequest(cfg, s, s.callIndex + k, share, env);
  }

  predicate InGroup(group: seq<Call>, callId: nat) {
    exists c | c in group :: c.callId == callId
  }

  /** Exactly which records the merge loop holds after n siblings: the old ones without the pause records
      of those siblings, and the new record of each. */
  lemma {:induction false} MergedRecords(cfg: Config, s: State, group: seq<Call>, envs: seq<ToolEnv>, share: nat,
                                         updates: seq<Update>, events: seq<Event>, n: nat, r: Record)
    requires Siblings(cfg, s, group, envs, share, updates, events) && n <= |envs| && DistinctIds(s.calls)
    ensures r in MergeUpTo(cfg, s, updates, n).results <==>
            || (r in s.results && !(r.status.AwaitingApproval? && InGroup(group[..n], r.callId)))
            || exists k :: 0 <= k < n && NewRecord(updates[k]) == Some(r)
  {
    hide Siblings, Member, Absorb, MergeUpTo, InGroup, NewRecord;
    SiblingSizes(cfg, s, group, envs, share, updates, events);
    MergeUnfold(cfg, s, updates, n);
    if n == 0 {
      NobodyInEmpty(r.callId);
      assert |group| >= 0 && group[..0] == [];
    } else {
      var k := n - 1;
      MemberAt(cfg, s, group, envs, share, updates, events, k);
      MergedRecords(cfg, s, group, envs, share, updates, events, k, r);
      AbsorbRecords(cfg, s, MergeUpTo(cfg, s, updates, k), k, group[k], envs[k], share, updates[k], events[k], r);
      InLongerGroup(group, n, r.callId);
      MemberRecord(cfg, s, k, group[k], envs[k], share, updates[k], events[k]);
      forall i | 0 <= i < k && NewRecord(updates[i]) == Some(r) ensures r.callId != group[k].callId {
        MemberAt(cfg, s, group, envs, share, updates, events, i);
        MemberRecord(cfg, s, i, group[i], envs[i], share, updates[i], events[i]);
        GroupDistinct(cfg, s, group, envs, share, updates, events, i, k);
      }
    }
  }

  lemma GroupDistinct(cfg: Config, s: State, group: seq<Call>, envs: seq<ToolEnv>, share: nat,
                      updates: seq<Update>, events: seq<Event>, i: nat, k: nat)
    requires Siblings(cfg, s, group, envs, share, updates, events) && i < k < |envs| && DistinctIds(s.calls)
    ensures |group| == |envs| && group[i].callId != group[k].callId
  {
    hide Member;
    assert group[i] == s.calls[s.callIndex + i] && group[k] == s.calls[s.callIndex + k];
  }

  lemma InLongerGroup(group: seq<Call>, n: nat, callId: nat)
    requires 0 < n <= |group|
    ensures InGroup(group[..n], callId) <==> InGroup(group[..n - 1], callId) || callId == group[n - 1].callId
  {
    assert group[..n] == group[..n - 1] + [group[n - 1]];
    assert group[n - 1] in group[..n];
  }

  lemma NobodyInEmpty(callId: nat)
    ensures !InGroup([], callId)
  {
  }

  /** Each sibling is counted, and nothing else is. */
  lemma {:induction false} MergedCounted(cfg: Config, s: State, group: seq<Call>, envs: seq<ToolEnv>, share: nat,
                                         updates: seq<Update>, events: seq<Event>, n: nat, x: nat)
    requires Siblings(cfg, s, group, envs, share, updates, events) && n <= |envs|
    ensures x in MergeUpTo(cfg, s, updates, n).counted <==> x in s.counted || InGroup(group[..n], x)
  {
    hide Siblings, Member, Absorb, MergeUpTo, InGroup;
    SiblingSizes(cfg, s, group, envs, share, updates, events);
    MergeUnfold(cfg, s, updates, n);
    if n == 0 {
      NobodyInEmpty(x);
      assert group[..0] == [];
    } else {
      var k := n - 1;
      MemberAt(cfg, s, group, envs, share, updates, events, k);
      MergedCounted(cfg, s, group, envs, share, updates, events, k, x);
      AbsorbQueue(cfg, s, MergeUpTo(cfg, s, updates, k), k, group[k], envs[k], share, updates[k], events[k]);
      InLongerGroup(group, n, x);
    }
  }

  /** The calls of the first n siblings that asked for an approval. */
  function Asking(group: seq<Call>, events: seq<Event>, n: nat): seq<Call>
    requires n <= |group| == |events|
  {
    if n == 0 then []
    else Asking(group, events, n - 1) + if events[n - 1].kind.AskedApproval? then [group[n - 1]] else []
  }

  lemma AskingUnfold(group: seq<Call>, events: seq<Event>, n: nat)
    requires n <= |group| == |events|
    ensures n == 0 ==> Asking(group, events, n) == []
    ensures n > 0 && events[n - 1].kind.AskedApproval? ==> Asking(group, events, n) == Asking(group, events, n - 1) + [group[n - 1]]
    ensures n > 0 && !events[n - 1].kind.AskedApproval? ==> Asking(group, events, n) == Asking(group, events, n - 1)
  {
  }

  lemma {:induction false} AskingAreMembers(group: seq<Call>, events: seq<Event>, n: nat)
    requires n <= |group| == |events|
    ensures forall c | c in Asking(group, events, n) :: exists k :: 0 <= k < n && c == group[k] && events[k].kind.AskedApproval?
    ensures DistinctIds(group) ==> DistinctIds(Asking(group, events, n))
  {
    if n > 0 {
      AskingAreMembers(group, events, n - 1);
      var before := Asking(group, events, n - 1);
      forall c | c in Asking(group, events, n)
        ensures exists k :: 0 <= k < n && c == group[k] && events[k].kind.AskedApproval?
      {
        if c in before {
          var k :| 0 <= k < n - 1 && c == group[k] && events[k].kind.AskedApproval?;
        } else {
          assert c == group[n - 1];
        }
      }
      if DistinctIds(group) {
        forall c | c in before ensures c.callId != group[n - 1].callId {
          var k :| 0 <= k < n - 1 && c == group[k] && events[k].kind.AskedApproval?;
        }
      }
    }
  }

  lemma {:induction false} MergedPending(cfg: Config, s: State, group: seq<Call>, envs: seq<ToolEnv>, share: nat,
                                         updates: seq<Update>, events: seq<Event>, n: nat)
    requires Siblings(cfg, s, group, envs, share, updates, events) && n <= |envs|
    ensures var m := MergeUpTo(cfg, s, updates, n);
            m.pending == Asking(group, events, n) && (m.pending != [] <==> m.firstApproval.Some?)
  {
    hide Siblings, Member, Absorb, MergeUpTo, Asking;
    SiblingSizes(cfg, s, group, envs, share, updates, events);
    MergeUnfold(cfg, s, updates, n);
    AskingUnfold(group, events, n);
    if n > 0 {
      var k := n - 1;
      MemberAt(cfg, s, group, envs, share, updates, events, k);
      MergedPending(cfg, s, group, envs, share, updates, events, k);
      AbsorbQueue(cfg, s, MergeUpTo(cfg, s, updates, k), k, group[k], envs[k], share, updates[k], events[k]);
    }
  }

  // ----- preservation -----

  /** Handling the first n calls of the queue leaves the others open. */
  lemma QueueAdvances(queue: seq<Call>, n: nat, results: seq<Record>, results': seq<Record>, rejected: map<nat, Code>)
    requires OpenQueue(queue, results, rejected) && 0 < n <= |queue| && DistinctIds(queue)
    requires forall r | r in results' :: r in results || InGroup(queue[..n], r.callId)
    ensures OpenQueue(queue[n..], results', rejected)
    ensures forall c | c in queue[n..] :: c.callId !in rejected
  {
    forall c | c in queue[n..] ensures OpenCall(results', c.callId) && c.callId !in rejected && !InGroup(queue[..n], c.callId) {
      var j :| n <= j < |queue| && queue[j] == c;
      assert queue[1..][j - 1] == c;
      assert c in queue;
      assert OpenCall(results, c.callId);
    }
  }

  /** A pause record for the next call leaves the whole queue open. */
  lemma QueueWaits(queue: seq<Call>, results: seq<Record>, record: Record, rejected: map<nat, Code>)
    requires OpenQueue(queue, results, rejected) && queue != []
    requires record.status.AwaitingApproval?
    ensures OpenQueue(queue, DropPause(results, queue[0].callId) + [record], rejected)
  {
    forall c, r | c in queue && r in DropPause(results, queue[0].callId) + [record] && r.callId == c.callId
      ensures r.status.AwaitingApproval?
    {
      DropPauseKeeps(results, queue[0].callId, r);
      assert OpenCall(results, c.callId);
    }
  }

  lemma TidySingle(cfg: Config, s: State, index: nat, u: Update, kind: Kind, issued: set<nat>)
    requires TidyState(s, issued) && s.status.Running? && index == s.callIndex < |s.calls|
    requires Shape(cfg, s, index, u, kind)
    requires kind.AskedApproval? ==> s.calls[index].callId !in s.rejected
    ensures TidyState(Apply(s, u), issued)
  {
    hide OpenQueue, OpenCall;
    var t, call, queue := Apply(s, u), s.calls[index], Queue(s);
    forall r | r in t.results ensures r in s.results || r.callId == call.callId {
      if r != NewRecord(u).value { DropPauseKeeps(s.results, call.callId, r); }
    }
    if u.status.Running? {
      assert call in queue[..1];
      assert DistinctIds(queue);
      if u.calls.None? {
        QueueAdvances(queue, 1, s.results, t.results, s.rejected);
        assert Queue(t) == queue[1..];
      } else {
        assert Queue(t) == [];
        EmptyQueueIsOpen(t.results, s.rejected);
      }
    } else if u.status.Paused? {
      QueueWaits(queue, s.results, NewRecord(u).value, s.rejected);
    }
  }

  lemma EmptyQueueIsOpen(results: seq<Record>, rejected: map<nat, Code>)
    ensures OpenQueue([], results, rejected)
  {
  }

  /** The records of a sibling that asked for an approval are all pauses. */
  lemma PendingIsOpen(cfg: Config, s: State, group: seq<Call>, envs: seq<ToolEnv>, share: nat, updates: seq<Update>,
                      events: seq<Event>, k: nat, r: Record)
    requires Siblings(cfg, s, group, envs, share, updates, events) && DistinctIds(s.calls)
    requires k < |envs| && OpenCall(s.results, group[k].callId) && events[k].kind.AskedApproval?
    requires r in MergeUpTo(cfg, s, updates, |envs|).results && r.callId == group[k].callId
    ensures r.status.AwaitingApproval?
  {
    hide Handle, Shape, Absorb, MergeUpTo;
    MergedRecords(cfg, s, group, envs, share, updates, events, |envs|, r);
    if r !in s.results {
      var i :| 0 <= i < |envs| && NewRecord(updates[i]) == Some(r);
      MemberRecord(cfg, s, i, group[i], envs[i], share, updates[i], events[i]);
      assert group[i] == s.calls[s.callIndex + i] && group[k] == s.calls[s.callIndex + k];
    }
  }

  /** What the merge of a whole batch guarantees about the queue. */
  ghost predicate MergedBatch(s: State, group: seq<Call>, m: Merge, issued: set<nat>) {
    && (forall r | r in m.results :: r in s.results || InGroup(group, r.callId))
    && (forall x | x in m.counted :: x in issued)
    && DistinctIds(m.pending)
    && (forall c | c in m.pending :: c in group && c.callId !in s.rejected && OpenCall(m.results, c.callId))
  }

  lemma MergedBatchIs(cfg: Config, s: State, group: seq<Call>, envs: seq<ToolEnv>, share: nat, updates: seq<Update>,
                      events: seq<Event>, issued: set<nat>)
    requires Siblings(cfg, s, group, envs, share, updates, events) && TidyState(s, issued) && s.status.Running?
    ensures MergedBatch(s, group, MergeUpTo(cfg, s, updates, |envs|), issued)
  {
    hide Siblings, Member, MergeUpTo, Asking, OpenCall, InGroup;
    var n := |envs|;
    SiblingSizes(cfg, s, group, envs, share, updates, events);
    var m := MergeUpTo(cfg, s, updates, n);
    assert group[..n] == group;
    GroupIsQueued(s, group, envs, cfg, share, updates, events, issued);
    forall r | r in m.results ensures r in s.results || InGroup(group, r.callId) {
      RecordsStayInGroup(cfg, s, group, envs, share, updates, events, r);
    }
    forall x | x in m.counted ensures x in issued {
      MergedCounted(cfg, s, group, envs, share, updates, events, n, x);
      InGroupIssued(group, x, issued);
    }
    MergedPending(cfg, s, group, envs, share, updates, events, n);
    AskingAreMembers(group, events, n);
    forall c | c in m.pending ensures c in group && c.callId !in s.rejected && OpenCall(m.results, c.callId) {
      var k :| 0 <= k < n && c == group[k] && events[k].kind.AskedApproval?;
      PendingUndecided(cfg, s, group, envs, share, updates, events, k);
      PendingOpen(cfg, s, group, envs, share, updates, events, k);
    }
  }

  lemma GroupIsQueued(s: State, group: seq<Call>, envs: seq<ToolEnv>, cfg: Config, share: nat, updates: seq<Update>,
                      events: seq<Event>, issued: set<nat>)
    requires Siblings(cfg, s, group, envs, share, updates, events) && TidyState(s, issued) && s.status.Running?
    ensures DistinctIds(group) && DistinctIds(s.calls)
    ensures forall c | c in group :: c.callId in issued && OpenCall(s.results, c.callId)
  {
    hide Member, OpenCall;
    forall c | c in group ensures c in s.calls && c in Queue(s) {
      var k :| 0 <= k < |group| && group[k] == c;
      assert c == Queue(s)[k] == s.calls[s.callIndex + k];
    }
  }

  lemma InGroupIssued(group: seq<Call>, x: nat, issued: set<nat>)
    requires forall c | c in group :: c.callId in issued
    ensures InGroup(group, x) ==> x in issued
  {
  }

  lemma RecordsStayInGroup(cfg: Config, s: State, group: seq<Call>, envs: seq<ToolEnv>, share: nat, updates: seq<Update>,
                           events: seq<Event>, r: Record)
    requires Siblings(cfg, s, group, envs, share, updates, events) && DistinctIds(s.calls)
    requires r in MergeUpTo(cfg, s, updates, |envs|).results
    ensures r in s.results || InGroup(group, r.callId)
  {
    hide Siblings, Member, MergeUpTo;
    SiblingSizes(cfg, s, group, envs, share, updates, events);
    MergedRecords(cfg, s, group, envs, share, updates, events, |envs|, r);
    if r !in s.results {
      var k :| 0 <= k < |envs| && NewRecord(updates[k]) == Some(r);
      MemberAt(cfg, s, group, envs, share, updates, events, k);
      MemberRecord(cfg, s, k, group[k], envs[k], share, updates[k], events[k]);
      assert group[k] in group;
    }
  }

  /** A sibling that asked for an approval had no verdict. */
  lemma PendingUndecided(cfg: Config, s: State, group: seq<Call>, envs: seq<ToolEnv>, share: nat, updates: seq<Update>,
                         events: seq<Event>, k: nat)
    requires Siblings(cfg, s, group, envs, share, updates, events) && k < |envs| == |group| == |events|
    requires events[k].kind.AskedApproval?
    ensures group[k].callId !in s.rejected
  {
    hide Siblings, Handle, Shape;
    MemberAt(cfg, s, group, envs, share, updates, events, k);
    PauseCarriesRequest(cfg, s, s.callIndex + k, share, envs[k]);
  }

  lemma PendingOpen(cfg: Config, s: State, group: seq<Call>, envs: seq<ToolEnv>, share: nat, updates: seq<Update>,
                    events: seq<Event>, k: nat)
    requires Siblings(cfg, s, group, envs, share, updates, events) && DistinctIds(s.calls)
    requires k < |envs| == |group| == |events| && OpenCall(s.results, group[k].callId) && events[k].kind.AskedApproval?
    ensures OpenCall(MergeUpTo(cfg, s, updates, |envs|).results, group[k].callId)
  {
    hide Siblings, MergeUpTo;
    SiblingSizes(cfg, s, group, envs, share, updates, events);
    var m := MergeUpTo(cfg, s, updates, |envs|);
    forall r | r in m.results && r.callId == group[k].callId ensures r.status.AwaitingApproval? {
      PendingIsOpen(cfg, s, group, envs, share, updates, events, k, r);
    }
  }

  lemma AppendDistinct(a: seq<Call>, b: seq<Call>)
    requires DistinctIds(a) && DistinctIds(b)
    requires forall x, y | x in a && y in b :: x.callId != y.callId
    ensures DistinctIds(a + b)
  {
  }

  lemma OpenAppend(pending: seq<Call>, rest: seq<Call>, results: seq<Record>, rejected: map<nat, Code>)
    requires forall c | c in pending :: c.callId !in rejected && OpenCall(results, c.callId)
    requires OpenQueue(rest, results, rejected) && forall c | c in rest :: c.callId !in rejected
    ensures OpenQueue(pending + rest, results, rejected)
  {
  }

  /** The three ways a batch can end. */
  lemma ConcludeCases(s: State, n: nat, m: Merge)
    requires s.callIndex + n <= |s.calls|
    ensures var t, rest := Apply(s, Conclude(s, n, m)), s.calls[s.callIndex + n..];
            && t.results == m.results && t.counted == m.counted && t.callCount == |m.counted| && t.rejected == s.rejected
            && t.recoveryRead == m.recoveryRead && t.recoveryDiagnosis == m.recoveryDiagnosis && t.confirm == s.confirm
            && t.modelRounds == s.modelRounds && t.goalReview == s.goalReview
            && ((t.status.Stopped? && t.calls == s.calls)
                || (t.status.Paused? && t.calls == m.pending + rest && Queue(t) == t.calls && m.pending != [])
                || (t.status.Running? && t.calls == s.calls && Queue(t) == rest))
            && (m.failure.None? && (m.pending == [] || m.firstApproval.None?) ==> t.status.Running?)
            && (m.pending == [] ==> !t.status.Paused?)
  {
  }

  lemma TidyMerged(s: State, n: nat, m: Merge, issued: set<nat>)
    requires TidyState(s, issued) && s.status.Running? && 0 < n && s.callIndex + n <= |s.calls|
    requires MergedBatch(s, Group(s, n), m, issued)
    ensures TidyState(Apply(s, Conclude(s, n, m)), issued)
  {
    hide OpenQueue, OpenCall, Apply, Conclude, MergedBatch, Group, Queue, DistinctIds, InGroup;
    var group, rest, queue := Group(s, n), s.calls[s.callIndex + n..], Queue(s);
    ConcludeCases(s, n, m);
    QueueParts(s, n);
    MergedParts(s, group, m, issued);
    QueueAdvances(queue, n, s.results, m.results, s.rejected);
    PartsDistinct(queue, n);
    AppendDistinct(m.pending, rest);
    OpenAppend(m.pending, rest, m.results, s.rejected);
    GroupIds(s, n, m, issued);
  }

  lemma QueueParts(s: State, n: nat)
    requires DistinctIds(s.calls) && s.callIndex + n <= |s.calls|
    ensures n <= |Queue(s)| && Queue(s)[..n] == Group(s, n) && Queue(s)[n..] == s.calls[s.callIndex + n..] && DistinctIds(Queue(s))
  {
  }

  lemma PartsDistinct(queue: seq<Call>, n: nat)
    requires DistinctIds(queue) && n <= |queue|
    ensures DistinctIds(queue[n..])
    ensures forall x, y | x in queue[..n] && y in queue[n..] :: x.callId != y.callId
  {
    forall x, y | x in queue[..n] && y in queue[n..] ensures x.callId != y.callId {
      var i :| 0 <= i < n && queue[i] == x;
      var j :| n <= j < |queue| && queue[j] == y;
    }
  }

  lemma MergedParts(s: State, group: seq<Call>, m: Merge, issued: set<nat>)
    requires MergedBatch(s, group, m, issued)
    ensures forall r | r in m.results :: r in s.results || InGroup(group, r.callId)
    ensures DistinctIds(m.pending)
    ensures forall x | x in m.counted :: x in issued
    ensures forall c | c in m.pending :: c in group && c.callId !in s.rejected && OpenCall(m.results, c.callId)
  {
    hide OpenCall;
  }

  lemma GroupIds(s: State, n: nat, m: Merge, issued: set<nat>)
    requires TidyState(s, issued) && s.callIndex + n <= |s.calls|
    requires MergedBatch(s, Group(s, n), m, issued)
    ensures forall c | c in m.pending + s.calls[s.callIndex + n..] :: c.callId in issued
    ensures forall r | r in m.results :: r.callId in issued
  {
    hide OpenQueue, OpenCall;
    forall c | c in Group(s, n) ensures c in s.calls {}
    forall c | c in s.calls[s.callIndex + n..] ensures c in s.calls {}
  }

  lemma TidyBatch(cfg: Config, s: State, envs: seq<ToolEnv>, issued: set<nat>)
    requires TidyState(s, issued) && s.status.Running?
    requires 0 < |envs| <= cfg.maxOutput - s.outputBytes && s.callIndex + |envs| <= |s.calls|
    ensures TidyState(Apply(s, BatchResult(cfg, s, envs).0), issued)
  {
    hide Handle, Shape, Absorb, MergeUpTo, SiblingUpdates, Conclude, TidyState, Member, Apply, Siblings;
    var n, share := |envs|, Share(cfg, s, |envs|);
    SiblingsAre(cfg, s, share, envs);
    var (updates, events) := SiblingUpdates(cfg, s, share, envs);
    MergedBatchIs(cfg, s, Group(s, n), envs, share, updates, events, issued);
    TidyMerged(s, n, MergeUpTo(cfg, s, updates, n), issued);
  }

  lemma {:induction false} EffectlessAre(cfg: Config, proposals: seq<Proposal>)
    ensures forall p | p in Effectless(cfg, proposals) :: p in proposals && !cfg.ChangesTarget(p.op)
    ensures (forall i, j | 0 <= i < j < |proposals| :: proposals[i].callId != proposals[j].callId) ==>
              var kept := Effectless(cfg, proposals); forall i, j | 0 <= i < j < |kept| :: kept[i].callId != kept[j].callId
    ensures |Effectless(cfg, proposals)| <= |proposals|
  {
    if proposals != [] {
      EffectlessAre(cfg, proposals[1..]);
      if forall i, j | 0 <= i < j < |proposals| :: proposals[i].callId != proposals[j].callId {
        forall p | p in Effectless(cfg, proposals[1..]) ensures p.callId != proposals[0].callId {
          var j :| 0 <= j < |proposals[1..]| && proposals[1..][j] == p;
          assert proposals[j + 1] == p;
        }
      }
    }
  }

  /** A step that empties the queue, or ends the run, keeps the bookkeeping. */
  lemma TidyFrame(s: State, t: State, issued: set<nat>)
    requires TidyState(s, issued)
    requires t.results == s.results && t.rejected == s.rejected && t.counted == s.counted && !t.status.Paused?
    requires t.calls == [] || (t.calls == s.calls && !t.status.Running?)
    ensures TidyState(t, issued)
  {
    hide OpenQueue;
    EmptyQueueIsOpen(s.results, s.rejected);
  }

  lemma TidyGrow(s: State, issued: set<nat>, all: set<nat>)
    requires TidyState(s, issued) && issued <= all
    ensures TidyState(s, all)
  {
    hide OpenQueue;
  }

  lemma FreshCalls(proposals: seq<Proposal>, round: nat, issued: set<nat>, all: set<nat>)
    requires forall p | p in proposals :: p.callId in all && p.callId !in issued
    requires forall i, j | 0 <= i < j < |proposals| :: proposals[i].callId != proposals[j].callId
    ensures DistinctIds(CleanCalls(proposals, round))
    ensures forall c | c in CleanCalls(proposals, round) :: c.callId in all && c.callId !in issued
  {
    var calls := CleanCalls(proposals, round);
    forall c | c in calls ensures c.callId in all && c.callId !in issued {
      var i :| 0 <= i < |calls| && calls[i] == c;
      assert proposals[i] in proposals;
    }
  }

  lemma FreshQueueIsOpen(calls: seq<Call>, results: seq<Record>, rejected: map<nat, Code>, issued: set<nat>)
    requires forall c | c in calls :: c.callId !in issued
    requires forall r | r in results :: r.callId in issued
    requires rejected.Keys <= issued
    ensures OpenQueue(calls, results, rejected)
  {
  }

  lemma TidyAdmitted(s: State, proposals: seq<Proposal>, issued: set<nat>, all: set<nat>)
    requires TidyState(s, issued) && issued <= all
    requires forall p | p in proposals :: p.callId in all && p.callId !in issued
    requires forall i, j | 0 <= i < j < |proposals| :: proposals[i].callId != proposals[j].callId
    ensures TidyState(Admitted(s, proposals), all)
  {
    hide OpenQueue, TidyState, CleanCalls, EndModel;
    QuietEnd(s, s, InvalidModelToolCall);
    if exists p | p in proposals :: p.malformed {
      TidyFrame(s, EndModel(s, InvalidModelToolCall), issued);
      TidyGrow(EndModel(s, InvalidModelToolCall), issued, all);
    } else {
      FreshCalls(proposals, s.modelRounds + 1, issued, all);
      TidyNewQueue(s, CleanCalls(proposals, s.modelRounds + 1), Admitted(s, proposals), issued, all);
    }
  }

  lemma TidyNewQueue(s: State, calls: seq<Call>, t: State, issued: set<nat>, all: set<nat>)
    requires TidyState(s, issued) && issued <= all && DistinctIds(calls)
    requires forall c | c in calls :: c.callId in all && c.callId !in issued
    requires t.calls == calls && t.callIndex == 0 && t.status.Running?
    requires t.results == s.results && t.rejected == s.rejected && t.counted == s.counted
    ensures TidyState(t, all)
  {
    hide OpenQueue;
    FreshQueueIsOpen(calls, s.results, s.rejected, issued);
    assert Queue(t) == calls;
  }

  /** A step that handles no call: log, counters and recovery flags stay, the queue is empty or the run ends. */
  predicate Quiet(s: State, t: State) {
    && SameLog(s, t) && !t.status.Paused?
    && (t.calls == [] || (t.calls == s.calls && !t.status.Running?))
    && (t.status.Running? ==> t.confirm == s.confirm)
  }

  predicate SameLog(s: State, t: State) {
    && t.results == s.results && t.rejected == s.rejected && t.counted == s.counted && t.callCount == s.callCount
    && t.recoveryRead == s.recoveryRead && t.recoveryDiagnosis == s.recoveryDiagnosis
  }

  lemma QuietEnd(s: State, t: State, code: Code)
    requires SameLog(s, t) && t.calls == s.calls
    ensures Quiet(s, EndModel(t, code))
  {
  }

  lemma QuietNoCalls(cfg: Config, s: State, answerSize: nat)
    ensures Quiet(s, AskAgain(s)) && Quiet(s, AskAgain(s).(refusals := s.refusals + 1))
    ensures Quiet(s, NoCalls(cfg, s, answerSize))
  {
    hide EndModel;
    QuietEnd(s, s, EmptyModelResponse);
    QuietEnd(s, s, OutputBudgetExceeded);
  }

  /** A model round admits calls, asks again with an empty queue, or ends the run. */
  lemma ModelCases(cfg: Config, s: State, reply: Reply)
    ensures var t := CallModel(cfg, s, reply);
            || (reply.Message? && CallLimitAllows(cfg, s, reply.proposals) && t == Admitted(s, reply.proposals)
                && !(s.confirm && exists p | p in reply.proposals :: cfg.ChangesTarget(p.op)))
            || (reply.Message? && CallLimitAllows(cfg, s, reply.proposals) && s.confirm
                && AsAdmitted(s, Effectless(cfg, reply.proposals), t))
            || Quiet(s, t)
  {
    hide Quiet, EndModel, AskAgain, NoCalls, Effectless, Admitted;
    forall code { QuietEnd(s, s, code); }
    if reply.Message? { QuietNoCalls(cfg, s, reply.answerSize); }
  }

  /** The calls the confirmation turn let through. */
  predicate AsAdmitted(s: State, kept: seq<Proposal>, t: State) {
    var u := Admitted(s, kept);
    t == u || t == u.(refusals := s.refusals + 1)
  }

  lemma QuietReview(cfg: Config, s: State, review: Review)
    ensures Quiet(s, ReviewGoal(cfg, s, review))
  {
    hide Quiet, EndModel, Reviewed;
    forall code { QuietEnd(s, s, code); }
    if !review.Failed? {
      var t := Reviewed(s, review.size);
      assert SameLog(s, t) && t.calls == s.calls && t.confirm == s.confirm by { ReviewedKeeps(s, review.size); }
      forall code { QuietEnd(s, t, code); }
      QuietSettled(s, t);
    }
  }

  lemma ReviewedKeeps(s: State, size: nat)
    ensures var t := Reviewed(s, size); SameLog(s, t) && t.calls == s.calls && t.confirm == s.confirm
  {
  }

  lemma QuietSettled(s: State, t: State)
    requires SameLog(s, t) && t.calls == s.calls && t.confirm == s.confirm
    ensures Quiet(s, t.(calls := [], status := Running, error := None))
    ensures Quiet(s, t.(status := Done, error := None, confirm := false))
    ensures forall stalls: nat :: Quiet(s, t.(answered := false, calls := [], goalStalls := stalls, status := Running, error := None))
  {
  }

  lemma TidyModel(cfg: Config, r: Run, reply: Reply)
    requires Tidy(r) && r.node.Model? && FreshIds(r, Proposals(reply))
    ensures Tidy(Next(cfg, r, FromModel(reply)))
  {
    hide Effectless, OpenQueue, CallModel, Admitted, TidyState;
    var all := r.issued + CallIds(Proposals(reply));
    var t := CallModel(cfg, r.s, reply);
    EffectlessAre(cfg, Proposals(reply));
    ModelCases(cfg, r.s, reply);
    TidyAdmitted(r.s, Proposals(reply), r.issued, all);
    TidyAdmitted(r.s, Effectless(cfg, Proposals(reply)), r.issued, all);
    if Quiet(r.s, t) {
      TidyFrame(r.s, t, r.issued);
      TidyGrow(t, r.issued, all);
    } else {
      var proposals := if t == Admitted(r.s, Proposals(reply)) then Proposals(reply) else Effectless(cfg, Proposals(reply));
      SameQueue(Admitted(r.s, proposals), t, all);
    }
    AdmittedParts(r.s, Proposals(reply));
    AdmittedParts(r.s, Effectless(cfg, Proposals(reply)));
  }

  lemma AdmittedParts(s: State, proposals: seq<Proposal>)
    ensures var t := Admitted(s, proposals);
            && t.rejected == s.rejected && t.recoveryRead == s.recoveryRead && t.recoveryDiagnosis == s.recoveryDiagnosis
            && (t.status.Stopped? || (t.status.Running? && t.callIndex == 0 && |t.calls| == |proposals|))
            && (t.status.Running? ==> forall i | 0 <= i < |proposals| :: t.calls[i].callId == proposals[i].callId)
  {
  }

  lemma SameQueue(s: State, t: State, issued: set<nat>)
    requires TidyState(s, issued) && (t == s || t == s.(refusals := t.refusals))
    ensures TidyState(t, issued)
  {
  }

  lemma TidyReview(cfg: Config, r: Run, review: Review)
    requires Tidy(r) && r.node.ReviewNode?
    ensures Tidy(Next(cfg, r, FromReview(review)))
  {
    hide OpenQueue, TidyState, ReviewGoal;
    QuietReview(cfg, r.s, review);
    TidyFrame(r.s, ReviewGoal(cfg, r.s, review), r.issued);
  }

  lemma TidyVerdict(cfg: Config, r: Run, fingerprint: nat, approved: bool, code: Code)
    requires Tidy(r) && Accepts(cfg, r, FromOperator(fingerprint, approved, code))
    ensures Tidy(Next(cfg, r, FromOperator(fingerprint, approved, code)))
  {
    var s := Resume(r.s, fingerprint, approved, code).value;
    var queue := Queue(r.s);
    assert Queue(s) == queue && queue[0] == r.s.calls[r.s.callIndex];
    forall c | c in queue[1..] ensures c.callId !in s.rejected {
      var i :| 1 <= i < |queue| && queue[i] == c;
      assert c == r.s.calls[r.s.callIndex + i];
    }
  }

  lemma TidyTools(cfg: Config, r: Run, envs: seq<ToolEnv>)
    requires Tidy(r) && Ready(cfg, r, envs)
    ensures Tidy(Next(cfg, r, FromTools(envs)))
  {
    hide Handle, Shape, BatchResult, OpenQueue;
    var s := r.s;
    var (u, events) := ToolUpdate(cfg, s, envs);
    if |envs| > 1 {
      TidyBatch(cfg, s, envs, r.issued);
    } else {
      var remaining := cfg.maxOutput - s.outputBytes;
      if remaining > 0 {
        HandleShape(cfg, s, s.callIndex, remaining, envs[0]);
        PauseCarriesRequest(cfg, s, s.callIndex, remaining, envs[0]);
        TidySingle(cfg, s, s.callIndex, u, events[0].kind, r.issued);
      }
    }
    EmptyQueueIsOpen(Apply(s, u).results, s.rejected);
  }

  /** Every step of a run keeps the bookkeeping. */
  lemma TidyNext(cfg: Config, r: Run, input: Input)
    requires Tidy(r) && Accepts(cfg, r, input)
    ensures Tidy(Next(cfg, r, input))
  {
    hide TidyState, CallModel, ReviewGoal, Resume, ToolUpdate;
    match input
    case FromModel(reply) => TidyModel(cfg, r, reply);
    case FromTools(envs) => TidyTools(cfg, r, envs);
    case Interrupted(_) =>
    case FromReview(review) => TidyReview(cfg, r, review);
    case FromOperator(fingerprint, approved, code) => TidyVerdict(cfg, r, fingerprint, approved, code);
  }

  lemma {:induction false} TidyAlways(cfg: Config, inputs: seq<Input>)
    requires ValidRun(cfg, inputs)
    ensures Tidy(After(cfg, inputs))
  {
    if inputs != [] {
      var before := inputs[..|inputs| - 1];
      TidyAlways(cfg, before);
      TidyNext(cfg, After(cfg, before), inputs[|inputs| - 1]);
    }
  }

  // ----- a paused run does not wait for a review -----

  predicate ReviewRouted(r: Run) {
    Live(r.s) && r.s.goalReview ==> r.node.ReviewNode?
  }

  lemma ToolsRouted(cfg: Config, r: Run, envs: seq<ToolEnv>)
    requires Tidy(r) && ReviewRouted(r) && Ready(cfg, r, envs)
    ensures ReviewRouted(Next(cfg, r, FromTools(envs)))
  {
    hide Handle, SiblingUpdates, MergeUpTo, Conclude, TidyState, RecordRule;
    var s := r.s;
    if |envs| > 1 {
      var (updates, events) := SiblingUpdates(cfg, s, Share(cfg, s, |envs|), envs);
      ConcludeCases(s, |envs|, MergeUpTo(cfg, s, updates, |updates|));
    } else if cfg.maxOutput - s.outputBytes > 0 {
      HandleShape(cfg, s, s.callIndex, cfg.maxOutput - s.outputBytes, envs[0]);
    }
  }

  lemma ModelRouted(cfg: Config, r: Run, reply: Reply)
    requires r.s.status.Running?
    ensures var s := CallModel(cfg, r.s, reply); Live(s) && s.goalReview ==> RouteModel(s).ReviewNode?
  {
    hide CallModel, Admitted, Effectless;
    ModelCases(cfg, r.s, reply);
    AdmittedParts(r.s, Proposals(reply));
    AdmittedParts(r.s, Effectless(cfg, Proposals(reply)));
  }

  lemma ReviewEndsReview(cfg: Config, s: State, review: Review)
    ensures var t := ReviewGoal(cfg, s, review); Live(t) ==> !t.goalReview && t.status.Running?
  {
    hide EndModel, Reviewed;
    forall t, code ensures !Live(EndModel(t, code)) { EndIsDead(t, code); }
    if !review.Failed? { ReviewedIsDone(s, review.size); }
  }

  lemma EndIsDead(s: State, code: Code)
    ensures !Live(EndModel(s, code))
  {
  }

  lemma ReviewedIsDone(s: State, size: nat)
    ensures !Reviewed(s, size).goalReview
  {
  }

  lemma {:induction false} ReviewAlwaysRouted(cfg: Config, inputs: seq<Input>)
    requires ValidRun(cfg, inputs)
    ensures ReviewRouted(After(cfg, inputs))
  {
    hide CallModel, ReviewGoal, ToolUpdate, TidyState, Flatten;
    if inputs != [] {
      var before, input := inputs[..|inputs| - 1], inputs[|inputs| - 1];
      ReviewAlwaysRouted(cfg, before);
      TidyAlways(cfg, before);
      var r := After(cfg, before);
      match input
      case FromModel(reply) => ModelRouted(cfg, r, reply);
      case FromTools(envs) => ToolsRouted(cfg, r, envs);
      case Interrupted(_) =>
      case FromReview(review) => ReviewEndsReview(cfg, r.s, review);
      case FromOperator(fingerprint, approved, code) => ResumeAgrees(r.s, fingerprint, approved, code);
    }
  }
}
