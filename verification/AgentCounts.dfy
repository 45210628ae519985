/** The tool-call budget over whole runs: the count equals the number of distinct counted calls, every recorded
    dispatch is counted, and counted plus admitted-but-uncounted calls never exceed the limit. */
module AgentCounts {
  import opened Wrappers
  import opened AgentState
  import opened AgentTool
  import opened AgentBatch
  import opened AgentModel
  import opened AgentRun
  import opened AgentFacts
  import opened AgentTidy

  predicate NoDuplicates(ids: seq<nat>) {
    forall i, j | 0 <= i < j < |ids| :: ids[i] != ids[j]
  }

  /** How many calls of the queue have not been counted yet. */
  function Uncounted(queue: seq<Call>, counted: seq<nat>): nat {
    if queue == [] then 0
    else (if queue[0].callId in counted then 0 else 1) + Uncounted(queue[1..], counted)
  }

  predicate WithinLimit(cfg: Config, n: nat) {
    cfg.maxCalls.Some? ==> n <= cfg.maxCalls.value
  }

  predicate CountOk(cfg: Config, s: State) {
    && NoDuplicates(s.counted) && s.callCount == |s.counted|
    && WithinLimit(cfg, s.callCount)
    && (s.status.Running? || s.status.Paused? ==> WithinLimit(cfg, s.callCount + Uncounted(Queue(s), s.counted)))
  }

  predicate EventsCounted(events: seq<Event>, counted: seq<nat>) {
    forall e | e in events && e.dispatched && !e.kind.Lost? :: e.callId in counted
  }

  lemma {:induction false} UncountedBound(queue: seq<Call>, counted: seq<nat>)
    ensures Uncounted(queue, counted) <= |queue|
  {
    if queue != [] { UncountedBound(queue[1..], counted); }
  }

  lemma {:induction false} UncountedConcat(a: seq<Call>, b: seq<Call>, counted: seq<nat>)
    ensures Uncounted(a + b, counted) == Uncounted(a, counted) + Uncounted(b, counted)
  {
    if a == [] {
      assert a + b == b;
    } else {
      UncountedConcat(a[1..], b, counted);
      assert (a + b)[1..] == a[1..] + b;
    }
  }

  lemma {:induction false} UncountedSame(queue: seq<Call>, counted: seq<nat>, counted': seq<nat>)
    requires forall c | c in queue :: c.callId in counted <==> c.callId in counted'
    ensures Uncounted(queue, counted) == Uncounted(queue, counted')
  {
    if queue != [] {
      assert queue[0] in queue;
      UncountedSame(queue[1..], counted, counted');
    }
  }

  lemma {:induction false} UncountedNone(queue: seq<Call>, counted: seq<nat>)
    requires forall c | c in queue :: c.callId in counted
    ensures Uncounted(queue, counted) == 0
  {
    if queue != [] { UncountedNone(queue[1..], counted); }
  }

  lemma NoDuplicatesAppend(ids: seq<nat>, id: nat)
    requires NoDuplicates(ids) && id !in ids
    ensures NoDuplicates(ids + [id])
  {
  }

  /** Counting the first call of a queue moves it from the uncounted to the counted side. */
  lemma CountFirst(queue: seq<Call>, counted: seq<nat>)
    requires queue != [] && DistinctIds(queue)
    ensures var call := queue[0];
            var after := if call.callId in counted then counted else counted + [call.callId];
            && Uncounted(queue[1..], after) == Uncounted(queue[1..], counted)
            && Uncounted(queue, after) == Uncounted(queue[1..], counted)
            && |after| + Uncounted(queue[1..], counted) == |counted| + Uncounted(queue, counted)
  {
    var call := queue[0];
    var after := if call.callId in counted then counted else counted + [call.callId];
    forall c | c in queue[1..] ensures c.callId in counted <==> c.callId in after {
      var i :| 1 <= i < |queue| && queue[i] == c;
    }
    UncountedSame(queue[1..], counted, after);
    assert queue == [call] + queue[1..];
  }

  lemma CountSingle(cfg: Config, s: State, u: Update, kind: Kind)
    requires s.status.Running? && s.callIndex < |s.calls| && DistinctIds(s.calls)
    requires Shape(cfg, s, s.callIndex, u, kind) && CountOk(cfg, s)
    ensures CountOk(cfg, Apply(s, u)) && s.calls[s.callIndex].callId in Apply(s, u).counted
    ensures forall x | x in s.counted :: x in Apply(s, u).counted
  {
    hide Uncounted, RecordRule;
    var t, queue, call := Apply(s, u), Queue(s), s.calls[s.callIndex];
    assert queue[0] == call && DistinctIds(queue) by { QueueParts(s, 0); }
    CountFirst(queue, s.counted);
    if call.callId !in s.counted { NoDuplicatesAppend(s.counted, call.callId); }
    UncountedNone([], t.counted);
    if t.status.Running? && u.calls.None? {
      assert Queue(t) == queue[1..];
    }
  }

  // ----- read batches -----

  lemma {:induction false} CountSiblings(cfg: Config, s: State, group: seq<Call>, envs: seq<ToolEnv>, share: nat,
                                         updates: seq<Update>, events: seq<Event>, n: nat)
    requires Siblings(cfg, s, group, envs, share, updates, events) && n <= |envs| && DistinctIds(s.calls)
    requires NoDuplicates(s.counted)
    ensures var m := MergeUpTo(cfg, s, updates, n);
            NoDuplicates(m.counted) && |m.counted| == |s.counted| + Uncounted(group[..n], s.counted)
  {
    hide Siblings, Member, Absorb, MergeUpTo, InGroup, Uncounted, NoDuplicates, Shape;
    SiblingSizes(cfg, s, group, envs, share, updates, events);
    MergeUnfold(cfg, s, updates, n);
    if n == 0 {
      assert group[..0] == [];
      UncountedNone([], s.counted);
    } else {
      var k := n - 1;
      CountSiblings(cfg, s, group, envs, share, updates, events, k);
      MemberAt(cfg, s, group, envs, share, updates, events, k);
      var m := MergeUpTo(cfg, s, updates, k);
      AbsorbQueue(cfg, s, m, k, group[k], envs[k], share, updates[k], events[k]);
      MergedCounted(cfg, s, group, envs, share, updates, events, k, group[k].callId);
      NotInEarlierGroup(cfg, s, group, envs, share, updates, events, k);
      UncountedConcat(group[..k], [group[k]], s.counted);
      assert group[..n] == group[..k] + [group[k]];
      UncountedOne(group[k], s.counted);
      if group[k].callId !in m.counted { NoDuplicatesAppend(m.counted, group[k].callId); }
    }
  }

  lemma UncountedOne(call: Call, counted: seq<nat>)
    ensures Uncounted([call], counted) == if call.callId in counted then 0 else 1
  {
    assert [call][1..] == [];
  }

  lemma NotInEarlierGroup(cfg: Config, s: State, group: seq<Call>, envs: seq<ToolEnv>, share: nat,
                          updates: seq<Update>, events: seq<Event>, k: nat)
    requires Siblings(cfg, s, group, envs, share, updates, events) && k < |envs| && DistinctIds(s.calls)
    ensures |group| == |envs| && !InGroup(group[..k], group[k].callId)
  {
    hide Siblings;
    SiblingSizes(cfg, s, group, envs, share, updates, events);
    forall i | 0 <= i < k ensures group[i].callId != group[k].callId {
      GroupDistinct(cfg, s, group, envs, share, updates, events, i, k);
    }
  }

  lemma CountBatch(cfg: Config, s: State, envs: seq<ToolEnv>, issued: set<nat>)
    requires TidyState(s, issued) && s.status.Running? && CountOk(cfg, s)
    requires 0 < |envs| <= cfg.maxOutput - s.outputBytes && s.callIndex + |envs| <= |s.calls|
    ensures var (u, events) := BatchResult(cfg, s, envs);
            CountOk(cfg, Apply(s, u)) && EventsCounted(events, Apply(s, u).counted)
            && forall x | x in s.counted :: x in Apply(s, u).counted
  {
    hide Siblings, Member, Absorb, MergeUpTo, Uncounted, NoDuplicates, Shape, SiblingUpdates, Conclude, Apply, OpenQueue, OpenCall, MergedBatch;
    var n, share := |envs|, Share(cfg, s, |envs|);
    var queue, rest := Queue(s), s.calls[s.callIndex + n..];
    SiblingsAre(cfg, s, share, envs);
    var (updates, events) := SiblingUpdates(cfg, s, share, envs);
    var group := Group(s, n);
    var m := MergeUpTo(cfg, s, updates, n);
    CountSiblings(cfg, s, group, envs, share, updates, events, n);
    assert group[..n] == group;
    MergedBatchIs(cfg, s, group, envs, share, updates, events, issued);
    ConcludeCases(s, n, m);
    QueueParts(s, n);
    assert queue == group + rest;
    UncountedConcat(group, rest, s.counted);
    CountRest(cfg, s, envs, group, share, updates, events, rest);
    BatchEventsCounted(cfg, s, envs, group, share, updates, events);
    UncountedBound(rest, s.counted);
    UncountedConcat(m.pending, rest, m.counted);
    forall x | x in s.counted ensures x in m.counted {
      MergedCounted(cfg, s, group, envs, share, updates, events, n, x);
    }
  }

  lemma CountRest(cfg: Config, s: State, envs: seq<ToolEnv>, group: seq<Call>, share: nat, updates: seq<Update>,
                  events: seq<Event>, rest: seq<Call>)
    requires Siblings(cfg, s, group, envs, share, updates, events) && DistinctIds(s.calls)
    requires rest == s.calls[s.callIndex + |envs|..]
    ensures var m := MergeUpTo(cfg, s, updates, |envs|);
            Uncounted(rest, m.counted) == Uncounted(rest, s.counted) && Uncounted(m.pending, m.counted) == 0
  {
    hide Member, Absorb, MergeUpTo, Uncounted, InGroup, Asking;
    var n := |envs|;
    var m := MergeUpTo(cfg, s, updates, n);
    assert group[..n] == group;
    QueueParts(s, n);
    PartsDistinct(Queue(s), n);
    forall c | c in rest ensures c.callId in m.counted <==> c.callId in s.counted {
      MergedCounted(cfg, s, group, envs, share, updates, events, n, c.callId);
      NotOfGroup(group, c);
    }
    UncountedSame(rest, m.counted, s.counted);
    MergedPending(cfg, s, group, envs, share, updates, events, n);
    AskingAreMembers(group, events, n);
    forall c | c in m.pending ensures c.callId in m.counted {
      MergedCounted(cfg, s, group, envs, share, updates, events, n, c.callId);
      OfGroup(group, c);
    }
    UncountedNone(m.pending, m.counted);
  }

  lemma NotOfGroup(group: seq<Call>, call: Call)
    requires forall c | c in group :: c.callId != call.callId
    ensures !InGroup(group, call.callId)
  {
  }

  lemma OfGroup(group: seq<Call>, call: Call)
    requires call in group
    ensures InGroup(group, call.callId)
  {
  }

  lemma BatchEventsCounted(cfg: Config, s: State, envs: seq<ToolEnv>, group: seq<Call>, share: nat, updates: seq<Update>,
                           events: seq<Event>)
    requires Siblings(cfg, s, group, envs, share, updates, events)
    ensures EventsCounted(events, MergeUpTo(cfg, s, updates, |envs|).counted)
  {
    hide Siblings, Member, Absorb, MergeUpTo, InGroup, Shape;
    SiblingSizes(cfg, s, group, envs, share, updates, events);
    var n := |envs|;
    assert group[..n] == group;
    forall e | e in events && e.dispatched && !e.kind.Lost? ensures e.callId in MergeUpTo(cfg, s, updates, n).counted {
      var k :| 0 <= k < n && events[k] == e;
      MemberAt(cfg, s, group, envs, share, updates, events, k);
      MemberRecord(cfg, s, k, group[k], envs[k], share, updates[k], events[k]);
      MergedCounted(cfg, s, group, envs, share, updates, events, n, e.callId);
      OfGroup(group, group[k]);
    }
  }

  // ----- whole runs -----

  predicate CountedRun(cfg: Config, r: Run) {
    CountOk(cfg, r.s) && EventsCounted(Flatten(r.history), r.s.counted)
  }

  lemma CountTools(cfg: Config, r: Run, envs: seq<ToolEnv>)
    requires Tidy(r) && Ready(cfg, r, envs) && CountOk(cfg, r.s)
    ensures var (u, events) := ToolUpdate(cfg, r.s, envs);
            var t := Checkpointed(cfg, Apply(r.s, u));
            CountOk(cfg, t) && EventsCounted(events, t.counted) && forall x | x in r.s.counted :: x in t.counted
  {
    hide Handle, Shape, BatchResult, CountOk, OpenQueue;
    var s := r.s;
    var (u, events) := ToolUpdate(cfg, s, envs);
    if |envs| > 1 {
      CountBatch(cfg, s, envs, r.issued);
    } else if cfg.maxOutput - s.outputBytes > 0 {
      HandleShape(cfg, s, s.callIndex, cfg.maxOutput - s.outputBytes, envs[0]);
      CountSingle(cfg, s, u, events[0].kind);
    } else {
      CountStop(cfg, s, u);
    }
    CountCheckpoint(cfg, Apply(s, u));
  }

  lemma CountStop(cfg: Config, s: State, u: Update)
    requires CountOk(cfg, s) && u == Bare(Stopped, Some(OutputBudgetExceeded))
    ensures CountOk(cfg, Apply(s, u))
  {
  }

  lemma CountCheckpoint(cfg: Config, s: State)
    requires CountOk(cfg, s)
    ensures CountOk(cfg, Checkpointed(cfg, s))
  {
    UncountedNone([], s.counted);
  }

  lemma CountQuiet(cfg: Config, s: State, t: State)
    requires CountOk(cfg, s) && Quiet(s, t)
    ensures CountOk(cfg, t)
  {
    hide Uncounted;
    UncountedNone([], t.counted);
  }

  lemma CountAdmitted(cfg: Config, s: State, proposals: seq<Proposal>, t: State, asked: nat)
    requires CountOk(cfg, s) && (t == Admitted(s, proposals) || AsAdmitted(s, proposals, t))
    requires |proposals| <= asked && WithinLimit(cfg, s.callCount + asked)
    ensures CountOk(cfg, t)
  {
    hide CleanCalls, EndModel, CountOk;
    var calls := CleanCalls(proposals, s.modelRounds + 1);
    if exists p | p in proposals :: p.malformed {
      QuietEnd(s, s, InvalidModelToolCall);
      CountQuiet(cfg, s, EndModel(s, InvalidModelToolCall));
      CountRefusals(cfg, EndModel(s, InvalidModelToolCall), t);
    } else {
      CountNewQueue(cfg, s, calls, Admitted(s, proposals));
      CountRefusals(cfg, Admitted(s, proposals), t);
    }
  }

  lemma CountRefusals(cfg: Config, s: State, t: State)
    requires CountOk(cfg, s) && (t == s || t == s.(refusals := t.refusals))
    ensures CountOk(cfg, t)
  {
  }

  lemma CountNewQueue(cfg: Config, s: State, calls: seq<Call>, t: State)
    requires CountOk(cfg, s) && WithinLimit(cfg, s.callCount + |calls|)
    requires t.calls == calls && t.callIndex == 0 && t.counted == s.counted && t.callCount == s.callCount
    ensures CountOk(cfg, t)
  {
    hide Uncounted, NoDuplicates;
    UncountedBound(calls, s.counted);
    assert Queue(t) == calls;
  }

  lemma CountModel(cfg: Config, r: Run, reply: Reply)
    requires CountOk(cfg, r.s)
    ensures var t := CallModel(cfg, r.s, reply); CountOk(cfg, t) && t.counted == r.s.counted
  {
    hide CallModel, Admitted, Effectless, Quiet, CountOk;
    ModelCases(cfg, r.s, reply);
    EffectlessAre(cfg, Proposals(reply));
    var t := CallModel(cfg, r.s, reply);
    if Quiet(r.s, t) {
      CountQuiet(cfg, r.s, t);
      QuietCounted(r.s, t);
    } else if t == Admitted(r.s, Proposals(reply)) {
      CountAdmitted(cfg, r.s, Proposals(reply), t, |Proposals(reply)|);
      AdmittedCounted(r.s, Proposals(reply));
    } else {
      CountAdmitted(cfg, r.s, Effectless(cfg, Proposals(reply)), t, |Proposals(reply)|);
      AdmittedCounted(r.s, Effectless(cfg, Proposals(reply)));
    }
  }

  lemma QuietCounted(s: State, t: State)
    requires Quiet(s, t)
    ensures t.counted == s.counted
  {
  }

  lemma AdmittedCounted(s: State, proposals: seq<Proposal>)
    ensures Admitted(s, proposals).counted == s.counted
  {
  }

  lemma CountVerdict(cfg: Config, s: State, fingerprint: nat, approved: bool, code: Code)
    requires CountOk(cfg, s) && Resume(s, fingerprint, approved, code).Some?
    ensures var t := Resume(s, fingerprint, approved, code).value; CountOk(cfg, t) && t.counted == s.counted
  {
    hide Uncounted, NoDuplicates;
    var t := Resume(s, fingerprint, approved, code).value;
    assert Queue(t) == Queue(s);
  }

  lemma EventsCountedGrow(history: seq<seq<Event>>, events: seq<Event>, counted: seq<nat>, counted': seq<nat>)
    requires EventsCounted(Flatten(history), counted) && EventsCounted(events, counted')
    requires forall x | x in counted :: x in counted'
    ensures EventsCounted(Flatten(history + [events]), counted')
  {
    hide Flatten;
    FlattenStep(history, events);
  }

  lemma CountNext(cfg: Config, r: Run, input: Input)
    requires Tidy(r) && Accepts(cfg, r, input) && CountedRun(cfg, r)
    ensures CountedRun(cfg, Next(cfg, r, input))
  {
    hide Tidy, CountOk, EventsCounted, CallModel, ReviewGoal, ToolUpdate, Resume, Flatten;
    var next := Next(cfg, r, input);
    NoEvents(next.s.counted);
    match input
    case FromModel(reply) =>
      CountModel(cfg, r, reply);
      EventsCountedGrow(r.history, [], r.s.counted, next.s.counted);
    case FromTools(envs) =>
      CountTools(cfg, r, envs);
      EventsCountedGrow(r.history, ToolUpdate(cfg, r.s, envs).1, r.s.counted, next.s.counted);
    case Interrupted(envs) =>
      LostNotCounted(ToolUpdate(cfg, r.s, envs).1, r.s.counted);
      EventsCountedGrow(r.history, AsLost(ToolUpdate(cfg, r.s, envs).1), r.s.counted, next.s.counted);
    case FromReview(review) =>
      QuietReview(cfg, r.s, review);
      CountQuiet(cfg, r.s, ReviewGoal(cfg, r.s, review));
      QuietCounted(r.s, ReviewGoal(cfg, r.s, review));
      EventsCountedGrow(r.history, [], r.s.counted, next.s.counted);
    case FromOperator(fingerprint, approved, code) =>
      ResumeAgrees(r.s, fingerprint, approved, code);
      CountVerdict(cfg, r.s, fingerprint, approved, code);
      EventsCountedGrow(r.history, [], r.s.counted, next.s.counted);
  }

  lemma NoEvents(counted: seq<nat>)
    ensures EventsCounted([], counted)
  {
  }

  lemma LostNotCounted(events: seq<Event>, counted: seq<nat>)
    ensures EventsCounted(AsLost(events), counted)
  {
  }

  /** Main result: in every run, through batches, pauses, verdicts and re-execution. */
  lemma {:induction false} CallBudget(cfg: Config, inputs: seq<Input>)
    requires ValidRun(cfg, inputs)
    ensures CountedRun(cfg, After(cfg, inputs))
  {
    if inputs == [] {
      UncountedNone([], []);
    } else {
      var before := inputs[..|inputs| - 1];
      CallBudget(cfg, before);
      TidyAlways(cfg, before);
      CountNext(cfg, After(cfg, before), inputs[|inputs| - 1]);
    }
  }

  /** The distinct calls whose dispatch was recorded. */
  function DispatchedIds(log: seq<Event>): set<nat> {
    set e | e in log && e.dispatched && !e.kind.Lost? :: e.callId
  }

  lemma {:induction false} DistinctBound(ids: set<nat>, counted: seq<nat>)
    requires forall x | x in ids :: x in counted
    ensures |ids| <= |counted|
  {
    if counted == [] {
      assert ids == {};
    } else {
      var last := counted[|counted| - 1];
      forall x | x in ids - {last} ensures x in counted[..|counted| - 1] {
        assert x in counted;
      }
      DistinctBound(ids - {last}, counted[..|counted| - 1]);
      assert ids <= (ids - {last}) + {last};
      assert |ids| <= |ids - {last}| + 1 by {
        if last in ids { assert ids == (ids - {last}) + {last}; } else { assert ids == ids - {last}; }
      }
    }
  }

  /** No run ever sends more distinct calls to the registry than its limit allows. */
  lemma DispatchesWithinLimit(cfg: Config, inputs: seq<Input>)
    requires ValidRun(cfg, inputs) && cfg.maxCalls.Some?
    ensures |DispatchedIds(Flatten(After(cfg, inputs).history))| <= cfg.maxCalls.value
  {
    hide Flatten, Next;
    CallBudget(cfg, inputs);
    var r := After(cfg, inputs);
    DistinctBound(DispatchedIds(Flatten(r.history)), r.s.counted);
  }
}
