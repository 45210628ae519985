/** Properties of every run of starts, launches, progress events, endings and restarts. */
module AdmissionRuns {
  import opened Wrappers
  import opened Admission

  datatype Step =
    | Start(parent: Parent, epoch: nat, items: seq<Item>)
    | Launch(id: TaskId)
    | Observe(id: TaskId, state: TaskState)
    | Settle(id: TaskId, final: Option<TaskState>)
    | Restart

  /** Progress events carry the run id of a launched task; a task object ends once. */
  predicate Enabled(r: Runtime, step: Step) {
    match step
    case Start(_, _, _) => true
    case Launch(id) => CanLaunch(r, id)
    case Observe(id, _) => id in r.active && r.active[id]
    case Settle(id, final) => id in r.active && id in r.jobs && (final.Some? ==> Terminal(final.value))
    case Restart => true
  }

  function Next(r: Runtime, step: Step): Runtime
    requires Enabled(r, step)
  {
    match step
    case Start(parent, epoch, items) => StartRequest(r, parent, epoch, items).0
    case Launch(id) => Launched(r, id)
    case Observe(id, state) => Observed(r, id, state)
    case Settle(id, final) => Settled(r, id, final)
    case Restart => Reopen(r.stored)
  }

  ghost predicate ValidRun(steps: seq<Step>)
    decreases |steps|, 0
  {
    steps == [] || (ValidRun(steps[..|steps| - 1]) && Enabled(After(steps[..|steps| - 1]), steps[|steps| - 1]))
  }

  ghost function After(steps: seq<Step>): Runtime
    requires ValidRun(steps)
    decreases |steps|, 1
  {
    if steps == [] then Reopen(map[]) else Next(After(steps[..|steps| - 1]), steps[|steps| - 1])
  }

  /** The tasks launched by a run, in order. */
  function Launches(steps: seq<Step>): seq<TaskId> {
    if steps == [] then []
    else Launches(steps[..|steps| - 1])
         + if steps[|steps| - 1].Launch? then [steps[|steps| - 1].id] else []
  }

  // ----- one state -----

  ghost predicate Bookkeeping(r: Runtime) {
    && r.stored == r.jobs
    && (forall id | id in r.active :: id in r.jobs)
    && (forall id | id in r.jobs && !Terminal(r.jobs[id].state) :: id in r.active)
    && (forall id | id in r.active && !r.active[id] :: r.jobs[id].state.Queued?)
  }

  ghost predicate WithinLimits(r: Runtime) {
    && |r.active| <= ACTIVE_LIMIT
    && (forall run: nat :: |OfParent(r.jobs, run)| <= PARENT_LIMIT)
    && (forall session: nat :: |LiveOf(r.jobs, session)| <= SESSION_LIMIT)
  }

  ghost predicate Inv(r: Runtime) {
    Bookkeeping(r) && WithinLimits(r)
  }

  /** No task is forgotten or rebound. */
  ghost predicate Keeps(before: map<TaskId, Job>, after: map<TaskId, Job>) {
    forall id | id in before :: id in after && after[id].binding == before[id].binding
      && after[id].session == before[id].session && after[id].parentRun == before[id].parentRun
  }

  lemma SubsetSize<T>(a: set<T>, b: set<T>)
    requires a <= b
    ensures |a| <= |b|
  {
    assert b == a + (b - a);
  }

  /** Replacing states only, with no finished task made live, leaves the limits alone. */
  lemma SameOwners(before: map<TaskId, Job>, after: map<TaskId, Job>)
    requires after.Keys == before.Keys && Keeps(before, after)
    requires forall id | id in after && !Terminal(after[id].state) :: !Terminal(before[id].state)
    ensures forall run: nat :: |OfParent(after, run)| == |OfParent(before, run)|
    ensures forall session: nat :: |LiveOf(after, session)| <= |LiveOf(before, session)|
  {
    forall run: nat ensures |OfParent(after, run)| == |OfParent(before, run)| {
      assert OfParent(after, run) == OfParent(before, run);
    }
    forall session: nat ensures |LiveOf(after, session)| <= |LiveOf(before, session)| {
      SubsetSize(LiveOf(after, session), LiveOf(before, session));
    }
  }

  // ----- starts -----

  function Ids(parent: Parent, epoch: nat, items: seq<Item>): set<TaskId> {
    set i | 0 <= i < |items| :: IdOf(parent, epoch, items[i])
  }

  /** `after` is `r` with exactly the tasks `ids` added, queued and not launched. */
  ghost predicate Adds(r: Runtime, after: Runtime, parent: Parent, ids: set<TaskId>) {
    && after.jobs.Keys == r.jobs.Keys + ids
    && after.active.Keys == r.active.Keys + ids
    && after.stored == after.jobs
    && (forall id | id in r.jobs :: after.jobs[id] == r.jobs[id])
    && (forall id | id in r.active :: after.active[id] == r.active[id])
    && (forall id | id in ids :: !after.active[id] && after.jobs[id].state.Queued?)
  }

  lemma AddsOne(r: Runtime, before: Runtime, after: Runtime, parent: Parent, ids: set<TaskId>, id: TaskId, job: Job)
    requires Adds(r, before, parent, ids) && id !in r.jobs && id !in r.active && job.state.Queued?
    requires after == Runtime(before.jobs[id := job], before.active[id := false], before.stored[id := job])
    ensures Adds(r, after, parent, ids + {id})
  {
  }

  lemma IdsSplit(parent: Parent, epoch: nat, head: seq<Item>, item: Item)
    ensures Ids(parent, epoch, head + [item]) == Ids(parent, epoch, head) + {IdOf(parent, epoch, item)}
  {
    forall id | id in Ids(parent, epoch, head) ensures id in Ids(parent, epoch, head + [item]) {
      var i :| 0 <= i < |head| && id == IdOf(parent, epoch, head[i]);
      assert (head + [item])[i] == head[i];
    }
    assert (head + [item])[|head|] == item;
  }

  lemma {:induction false} AddsExactly(r: Runtime, parent: Parent, epoch: nat, added: seq<Item>)
    requires forall x | x in added :: IdOf(parent, epoch, x) !in r.jobs
    requires Bookkeeping(r)
    ensures Adds(r, AddItems(r, parent, epoch, added), parent, Ids(parent, epoch, added))
  {
    if added == [] {
      assert Ids(parent, epoch, added) == {};
    } else {
      var head, item := added[..|added| - 1], added[|added| - 1];
      AddsExactly(r, parent, epoch, head);
      assert added == head + [item];
      IdsSplit(parent, epoch, head, item);
      var before := AddItems(r, parent, epoch, head);
      var id, job := IdOf(parent, epoch, item), NewJob(parent, item);
      var after := AddItems(r, parent, epoch, added);
      assert item in added;
      AddsOne(r, before, after, parent, Ids(parent, epoch, head), id, job);
    }
  }

  lemma {:induction false} AddsAtMost(r: Runtime, parent: Parent, epoch: nat, added: seq<Item>)
    ensures |AddItems(r, parent, epoch, added).active| <= |r.active| + |added|
    ensures forall run: nat :: |OfParent(AddItems(r, parent, epoch, added).jobs, run)|
                               <= |OfParent(r.jobs, run)| + if run == parent.runId then |added| else 0
    ensures forall session: nat :: |LiveOf(AddItems(r, parent, epoch, added).jobs, session)|
                                   <= |LiveOf(r.jobs, session)| + if session == parent.session then |added| else 0
  {
    if added != [] {
      var head, item := added[..|added| - 1], added[|added| - 1];
      AddsAtMost(r, parent, epoch, head);
      var id := IdOf(parent, epoch, item);
      var before, after := AddItems(r, parent, epoch, head), AddItems(r, parent, epoch, added);
      assert after.active.Keys == before.active.Keys + {id};
      forall run: nat
        ensures |OfParent(after.jobs, run)| <= |OfParent(before.jobs, run)| + if run == parent.runId then 1 else 0
      {
        SubsetSize(OfParent(after.jobs, run), OfParent(before.jobs, run) + if run == parent.runId then {id} else {});
      }
      forall session: nat
        ensures |LiveOf(after.jobs, session)| <= |LiveOf(before.jobs, session)| + if session == parent.session then 1 else 0
      {
        SubsetSize(LiveOf(after.jobs, session), LiveOf(before.jobs, session) + if session == parent.session then {id} else {});
      }
    }
  }

  lemma {:induction false} NewItemsAreUnknown(jobs: map<TaskId, Job>, parent: Parent, epoch: nat, items: seq<Item>, n: nat)
    requires n <= |items|
    ensures forall x | x in NewItems(jobs, parent, epoch, items, n) :: x in items && IdOf(parent, epoch, x) !in jobs
    ensures forall i | 0 <= i < n && IdOf(parent, epoch, items[i]) !in jobs :: items[i] in NewItems(jobs, parent, epoch, items, n)
  {
    if n > 0 { NewItemsAreUnknown(jobs, parent, epoch, items, n - 1); }
  }

  ghost predicate DistinctKeys(items: seq<Item>) {
    forall i, j | 0 <= i < j < |items| :: items[i].key != items[j].key
  }

  lemma {:induction false} NewItemsDistinct(jobs: map<TaskId, Job>, parent: Parent, epoch: nat, items: seq<Item>, n: nat)
    requires n <= |items| && ItemsAccepted(jobs, parent, epoch, items, n)
    ensures DistinctKeys(NewItems(jobs, parent, epoch, items, n))
    ensures forall x | x in NewItems(jobs, parent, epoch, items, n) :: x.key in Keys(items, n)
  {
    if n > 0 {
      NewItemsDistinct(jobs, parent, epoch, items, n - 1);
      assert ItemRefusal(jobs, parent, epoch, items[n - 1], Keys(items, n - 1)).None?;
      var before := NewItems(jobs, parent, epoch, items, n - 1);
      forall i | 0 <= i < |before| ensures before[i].key != items[n - 1].key { assert before[i] in before; }
      assert forall k | k in Keys(items, n - 1) :: k in Keys(items, n);
    }
  }

  /** Each added item is recorded under its own work. */
  lemma {:induction false} AddsJobs(r: Runtime, parent: Parent, epoch: nat, added: seq<Item>)
    requires DistinctKeys(added)
    ensures forall x | x in added ::
      IdOf(parent, epoch, x) in AddItems(r, parent, epoch, added).jobs
      && AddItems(r, parent, epoch, added).jobs[IdOf(parent, epoch, x)] == NewJob(parent, x)
  {
    if added != [] {
      var head, item := added[..|added| - 1], added[|added| - 1];
      AddsJobs(r, parent, epoch, head);
      assert added == head + [item];
      forall x | x in head ensures x.key != item.key {
        var i :| 0 <= i < |head| && head[i] == x;
        assert added[i] == x;
      }
    }
  }

  /** After an accepted start every requested key names exactly the requested work. */
  lemma StartBinds(r: Runtime, parent: Parent, epoch: nat, items: seq<Item>, i: nat)
    requires Bookkeeping(r) && i < |items| && StartRequest(r, parent, epoch, items).1.None?
    ensures var after, id := StartRequest(r, parent, epoch, items).0, IdOf(parent, epoch, items[i]);
            id in after.jobs && after.jobs[id].binding == BindingOf(parent, items[i])
  {
    hide Bookkeeping, HasRoom, ItemRefusal, AddItems, NewItems;
    var added := NewItems(r.jobs, parent, epoch, items, |items|);
    AcceptedItems(r.jobs, parent, epoch, items, |items|);
    NewItemsAreUnknown(r.jobs, parent, epoch, items, |items|);
    var id := IdOf(parent, epoch, items[i]);
    if id in r.jobs {
      KnownIsBound(r.jobs, parent, epoch, items, i);
      AddsExactly(r, parent, epoch, added);
    } else {
      NewItemsDistinct(r.jobs, parent, epoch, items, |items|);
      AddsJobs(r, parent, epoch, added);
    }
  }

  lemma KnownIsBound(jobs: map<TaskId, Job>, parent: Parent, epoch: nat, items: seq<Item>, i: nat)
    requires i < |items| && ItemsAccepted(jobs, parent, epoch, items, |items|) && IdOf(parent, epoch, items[i]) in jobs
    ensures jobs[IdOf(parent, epoch, items[i])].binding == BindingOf(parent, items[i])
  {
    assert ItemRefusal(jobs, parent, epoch, items[i], Keys(items, i)).None?;
  }

  lemma {:induction false} AcceptedItems(jobs: map<TaskId, Job>, parent: Parent, epoch: nat, items: seq<Item>, n: nat)
    requires n <= |items|
    ensures FirstRefusal(jobs, parent, epoch, items, n).None? <==> ItemsAccepted(jobs, parent, epoch, items, n)
  {
    if n > 0 { AcceptedItems(jobs, parent, epoch, items, n - 1); }
  }

  lemma NewIds(r: Runtime, parent: Parent, epoch: nat, items: seq<Item>, added: seq<Item>)
    requires added == NewItems(r.jobs, parent, epoch, items, |items|)
    ensures r.jobs.Keys + Ids(parent, epoch, added) == r.jobs.Keys + Ids(parent, epoch, items)
  {
    NewItemsAreUnknown(r.jobs, parent, epoch, items, |items|);
    forall id | id in Ids(parent, epoch, items) && id !in r.jobs ensures id in Ids(parent, epoch, added) {
      var i :| 0 <= i < |items| && id == IdOf(parent, epoch, items[i]);
      assert items[i] in added;
    }
    forall id | id in Ids(parent, epoch, added) ensures id in Ids(parent, epoch, items) {
      var i :| 0 <= i < |added| && id == IdOf(parent, epoch, added[i]);
      assert added[i] in items;
    }
  }

  lemma AddsNothing(r: Runtime, parent: Parent)
    requires Bookkeeping(r)
    ensures Adds(r, r, parent, {})
  {
  }

  lemma IdsUnknown(r: Runtime, parent: Parent, epoch: nat, added: seq<Item>)
    requires forall x | x in added :: IdOf(parent, epoch, x) !in r.jobs
    ensures Ids(parent, epoch, added) !! r.jobs.Keys
  {
    forall id | id in Ids(parent, epoch, added) ensures id !in r.jobs.Keys {
      var i :| 0 <= i < |added| && id == IdOf(parent, epoch, added[i]);
      assert added[i] in added;
    }
  }

  /** An accepted start leaves every requested task known and creates no other; a refused one changes nothing. */
  lemma StartMeans(r: Runtime, parent: Parent, epoch: nat, items: seq<Item>)
    requires Bookkeeping(r)
    ensures var (after, refusal) := StartRequest(r, parent, epoch, items);
            && (refusal.Some? ==> after == r)
            && (refusal.None? ==> after.jobs.Keys == r.jobs.Keys + Ids(parent, epoch, items))
            && (exists ids :: Adds(r, after, parent, ids) && ids !! r.jobs.Keys)
  {
    hide FirstRefusal, HasRoom, AddItems, NewItems, Ids, Bookkeeping;
    var (after, refusal) := StartRequest(r, parent, epoch, items);
    if refusal.None? {
      var added := NewItems(r.jobs, parent, epoch, items, |items|);
      NewItemsAreUnknown(r.jobs, parent, epoch, items, |items|);
      AddsExactly(r, parent, epoch, added);
      NewIds(r, parent, epoch, items, added);
      assert Adds(r, after, parent, Ids(parent, epoch, added));
      IdsUnknown(r, parent, epoch, added);
    } else {
      AddsNothing(r, parent);
    }
  }

  /** What a start keeps: known tasks as they are, new ones not launched. */
  lemma StartKeeps(r: Runtime, parent: Parent, epoch: nat, items: seq<Item>)
    requires Bookkeeping(r)
    ensures var after := StartRequest(r, parent, epoch, items).0;
            && Keeps(r.jobs, after.jobs) && Bookkeeping(after)
            && (forall id | id in r.active :: id in after.active && after.active[id] == r.active[id])
            && (forall id | id in after.active && id !in r.active :: id !in r.jobs && !after.active[id])
  {
    hide StartRequest;
    StartMeans(r, parent, epoch, items);
    var after := StartRequest(r, parent, epoch, items).0;
    var ids :| Adds(r, after, parent, ids) && ids !! r.jobs.Keys;
  }

  lemma StartLimits(r: Runtime, parent: Parent, epoch: nat, items: seq<Item>)
    requires WithinLimits(r)
    ensures WithinLimits(StartRequest(r, parent, epoch, items).0)
  {
    hide AddItems, NewItems, FirstRefusal;
    AddsAtMost(r, parent, epoch, NewItems(r.jobs, parent, epoch, items, |items|));
  }

  lemma BookkeepingStep(r: Runtime, step: Step)
    requires Bookkeeping(r) && Enabled(r, step) && !step.Start?
    ensures Bookkeeping(Next(r, step))
    ensures step.Restart? || Next(r, step).active.Keys <= r.active.Keys
  {
  }

  /** No step but a start makes a task live, and none forgets or rebinds a task. */
  lemma OwnersStep(r: Runtime, step: Step)
    requires Bookkeeping(r) && Enabled(r, step) && !step.Start?
    ensures Keeps(r.jobs, Next(r, step).jobs) && Next(r, step).jobs.Keys == r.jobs.Keys
    ensures forall id | id in r.jobs && !Terminal(Next(r, step).jobs[id].state) :: !Terminal(r.jobs[id].state)
  {
  }

  lemma InvStep(r: Runtime, step: Step)
    requires Inv(r) && Enabled(r, step)
    ensures Inv(Next(r, step))
    ensures Keeps(r.jobs, Next(r, step).jobs)
  {
    hide StartRequest, OfParent, LiveOf, Bookkeeping, Keeps, Enabled;
    if step.Start? {
      StartKeeps(r, step.parent, step.epoch, step.items);
      StartLimits(r, step.parent, step.epoch, step.items);
    } else {
      hide Next;
      BookkeepingStep(r, step);
      OwnersStep(r, step);
      SameOwners(r.jobs, Next(r, step).jobs);
      if step.Restart? { RestartIsIdle(r); } else { SubsetSize(Next(r, step).active.Keys, r.active.Keys); }
    }
  }

  lemma RestartIsIdle(r: Runtime)
    ensures Next(r, Restart).active == map[]
  {
  }

  // ----- whole runs -----

  /** Main limit result: in every reachable state, at most 32 tasks are active, a parent run owns at most eight,
      a session has at most eight unfinished, and the database holds what the runtime holds. */
  lemma {:induction false} LimitsAlways(steps: seq<Step>)
    requires ValidRun(steps)
    ensures Inv(After(steps))
  {
    if steps == [] {
      forall run: nat ensures |OfParent(After(steps).jobs, run)| == 0 { assert OfParent(After(steps).jobs, run) == {}; }
      forall session: nat ensures |LiveOf(After(steps).jobs, session)| == 0 { assert LiveOf(After(steps).jobs, session) == {}; }
    } else {
      LimitsAlways(steps[..|steps| - 1]);
      InvStep(After(steps[..|steps| - 1]), steps[|steps| - 1]);
    }
  }

  ghost predicate NoRepeat(log: seq<TaskId>) {
    forall i, j | 0 <= i < j < |log| :: log[i] != log[j]
  }

  lemma {:induction false} LaunchedStays(steps: seq<Step>)
    requires ValidRun(steps)
    ensures forall id | id in Launches(steps) :: id in After(steps).jobs && (id in After(steps).active ==> After(steps).active[id])
  {
    if steps != [] {
      var head, last := steps[..|steps| - 1], steps[|steps| - 1];
      LaunchedStays(head);
      LimitsAlways(head);
      InvStep(After(head), last);
      if last.Start? { StartKeeps(After(head), last.parent, last.epoch, last.items); }
    }
  }

  /** Main launch result: no task id is launched twice, across any number of restarts. */
  lemma {:induction false} LaunchedOnce(steps: seq<Step>)
    requires ValidRun(steps)
    ensures NoRepeat(Launches(steps))
  {
    if steps != [] {
      LaunchedOnce(steps[..|steps| - 1]);
      LaunchedStays(steps[..|steps| - 1]);
    }
  }

  // ----- from any point of a run on -----

  lemma {:induction false} PrefixValid(steps: seq<Step>, n: nat)
    requires ValidRun(steps) && n <= |steps|
    ensures ValidRun(steps[..n])
  {
    if n < |steps| {
      var head := steps[..|steps| - 1];
      assert head[..n] == steps[..n];
      PrefixValid(head, n);
    } else {
      assert steps[..n] == steps;
    }
  }

  lemma {:induction false} KeepsAlong(steps: seq<Step>, n: nat)
    requires ValidRun(steps) && n <= |steps| && ValidRun(steps[..n])
    ensures Keeps(After(steps[..n]).jobs, After(steps).jobs)
  {
    if n < |steps| {
      var head := steps[..|steps| - 1];
      assert head[..n] == steps[..n];
      KeepsAlong(head, n);
      LimitsAlways(head);
      InvStep(After(head), steps[|steps| - 1]);
    } else {
      assert steps[..n] == steps;
    }
  }

  /** A key that once named some work is refused for different work, at every later point and without effect. */
  lemma KeyNeverRebound(steps: seq<Step>, n: nat, id: TaskId, parent: Parent, epoch: nat, items: seq<Item>, i: nat)
    requires ValidRun(steps) && n <= |steps| && ValidRun(steps[..n])
    requires id in After(steps[..n]).jobs
    requires i < |items| && IdOf(parent, epoch, items[i]) == id
    requires BindingOf(parent, items[i]) != After(steps[..n]).jobs[id].binding
    ensures var (after, refusal) := StartRequest(After(steps), parent, epoch, items);
            refusal.Some? && after == After(steps)
  {
    hide Next, Enabled, AddItems, NewItems, HasRoom;
    KeepsAlong(steps, n);
    AcceptedItems(After(steps).jobs, parent, epoch, items, |items|);
    assert ItemRefusal(After(steps).jobs, parent, epoch, items[i], Keys(items, i)).Some?;
  }

  ghost predicate Dormant(r: Runtime, id: TaskId) {
    id in r.jobs && id !in r.active
  }

  lemma DormantStep(r: Runtime, step: Step, id: TaskId)
    requires Bookkeeping(r) && Enabled(r, step) && Dormant(r, id)
    ensures Dormant(Next(r, step), id) && step != Launch(id)
  {
    hide StartRequest;
    if step.Start? { StartKeeps(r, step.parent, step.epoch, step.items); }
  }

  lemma {:induction false} DormantForever(steps: seq<Step>, n: nat, id: TaskId)
    requires ValidRun(steps) && n <= |steps| && ValidRun(steps[..n])
    requires Dormant(After(steps[..n]), id)
    ensures Dormant(After(steps), id)
  {
    hide Dormant, Next, Enabled, WithinLimits, Bookkeeping;
    if n < |steps| {
      var head := steps[..|steps| - 1];
      assert head[..n] == steps[..n];
      DormantForever(head, n, id);
      LimitsAlways(head);
      DormantStep(After(head), steps[|steps| - 1], id);
    } else {
      assert steps[..n] == steps;
    }
  }

  lemma NeverLaunched(steps: seq<Step>, n: nat, id: TaskId, k: nat)
    requires ValidRun(steps) && n <= k < |steps| && ValidRun(steps[..n])
    requires Dormant(After(steps[..n]), id)
    ensures steps[k] != Launch(id)
  {
    hide Dormant, Next, Enabled, WithinLimits, Bookkeeping;
    var upTo := steps[..k + 1];
    PrefixValid(steps, k);
    PrefixValid(steps, k + 1);
    assert upTo[..k] == steps[..k] && upTo[k] == steps[k];
    assert steps[..k][..n] == steps[..n];
    DormantForever(steps[..k], n, id);
    LimitsAlways(steps[..k]);
    DormantStep(After(steps[..k]), steps[k], id);
  }

  /** Main restart result: a restart leaves every known task finished (an unfinished one interrupted, the others as
      they were), and none of them is ever launched again. */
  lemma RestartRetires(steps: seq<Step>, n: nat, id: TaskId)
    requires ValidRun(steps) && n < |steps| && steps[n].Restart?
    requires ValidRun(steps[..n]) && ValidRun(steps[..n + 1])
    requires id in After(steps[..n]).jobs
    ensures var was, now := After(steps[..n]).jobs[id].state, After(steps[..n + 1]);
            && id in now.jobs && now.jobs[id].state == (if Terminal(was) then was else Interrupted)
            && now.stored == now.jobs
    ensures forall k | n < k < |steps| :: steps[k] != Launch(id)
    ensures id in After(steps).jobs && Terminal(After(steps).jobs[id].state)
  {
    assert steps[..n + 1][..n] == steps[..n];
    LimitsAlways(steps[..n]);
    DormantForever(steps, n + 1, id);
    forall k | n < k < |steps| ensures steps[k] != Launch(id) { NeverLaunched(steps, n + 1, id, k); }
    LimitsAlways(steps);
  }
}
