/** Admission of subagent tasks: key binding, limits, persistence and restart. */
module Admission {
  import opened Wrappers

  datatype TaskState = Queued | Running | WaitingApproval | Completed | Failed | Cancelled | Interrupted

  predicate Terminal(state: TaskState) {
    state.Completed? || state.Failed? || state.Cancelled? || state.Interrupted?
  }

  /** The digest of a task is injective in the conversation, its context epoch and the chosen key. */
  datatype TaskId = TaskId(session: nat, epoch: nat, key: nat)

  /** The work a key is bound to; its digest is the fingerprint. */
  datatype Binding = Binding(server: Option<nat>, title: nat, goal: nat, write: bool)

  datatype Job = Job(binding: Binding, session: nat, parentRun: nat, state: TaskState)

  datatype Parent = Parent(runId: nat, session: nat, target: Option<nat>, servers: set<nat>,
                           goalMode: bool, toolAccess: bool, dispatchAllowed: bool)

  /** One requested task; `blank` when its key, title or goal has no visible character. */
  datatype Item = Item(key: nat, blank: bool, title: nat, goal: nat, write: bool, server: Option<nat>)

  datatype Refusal = NotAllowed | NotNeeded | InvalidArguments | TargetNotAllowed | KeyConflict | QueueFull

  const PARENT_LIMIT: nat := 8
  const SESSION_LIMIT: nat := 8
  const ACTIVE_LIMIT: nat := 32

  function Target(parent: Parent, item: Item): Option<nat> {
    if item.server.Some? then item.server else parent.target
  }

  function IdOf(parent: Parent, epoch: nat, item: Item): TaskId {
    TaskId(parent.session, epoch, item.key)
  }

  function BindingOf(parent: Parent, item: Item): Binding {
    Binding(Target(parent, item), item.title, item.goal, item.write)
  }

  /** Why one item is refused, given the keys seen before it. */
  function ItemRefusal(jobs: map<TaskId, Job>, parent: Parent, epoch: nat, item: Item, seen: set<nat>): Option<Refusal> {
    var target, id := Target(parent, item), IdOf(parent, epoch, item);
    if item.blank || item.key in seen then Some(InvalidArguments)
    else if (parent.target.Some? && target != parent.target) || (target.Some? && target.value !in parent.servers) then Some(TargetNotAllowed)
    else if item.write && !parent.goalMode then Some(NotAllowed)
    else if id in jobs && jobs[id].binding != BindingOf(parent, item) then Some(KeyConflict)
    else None
  }

  /** Keys of the first n items. */
  function Keys(items: seq<Item>, n: nat): set<nat>
    requires n <= |items|
  {
    set i | 0 <= i < n :: items[i].key
  }

  predicate ItemsAccepted(jobs: map<TaskId, Job>, parent: Parent, epoch: nat, items: seq<Item>, n: nat)
    requires n <= |items|
  {
    forall i | 0 <= i < n :: ItemRefusal(jobs, parent, epoch, items[i], Keys(items, i)).None?
  }

  function NewJob(parent: Parent, item: Item): Job {
    Job(BindingOf(parent, item), parent.session, parent.runId, Queued)
  }

  /** The ids of the first n items that are not known yet, in order. */
  function NewItems(jobs: map<TaskId, Job>, parent: Parent, epoch: nat, items: seq<Item>, n: nat): seq<Item>
    requires n <= |items|
  {
    if n == 0 then []
    else NewItems(jobs, parent, epoch, items, n - 1)
         + if IdOf(parent, epoch, items[n - 1]) in jobs then [] else [items[n - 1]]
  }

  function OfParent(jobs: map<TaskId, Job>, run: nat): set<TaskId> {
    set id | id in jobs && jobs[id].parentRun == run
  }

  function LiveOf(jobs: map<TaskId, Job>, session: nat): set<TaskId> {
    set id | id in jobs && jobs[id].session == session && !Terminal(jobs[id].state)
  }

  predicate HasRoom(jobs: map<TaskId, Job>, active: map<TaskId, bool>, parent: Parent, added: nat) {
    && |OfParent(jobs, parent.runId)| + added <= PARENT_LIMIT
    && |active| + added <= ACTIVE_LIMIT
    && |LiveOf(jobs, parent.session)| + added <= SESSION_LIMIT
  }

  /** The runtime's dictionaries. `active` holds the task objects and whether each has been launched;
      `stored` is what the database holds. */
  datatype Runtime = Runtime(jobs: map<TaskId, Job>, active: map<TaskId, bool>, stored: map<TaskId, Job>)

  function AddItems(r: Runtime, parent: Parent, epoch: nat, added: seq<Item>): Runtime {
    if added == [] then r
    else
      var before := AddItems(r, parent, epoch, added[..|added| - 1]);
      var item := added[|added| - 1];
      var id, job := IdOf(parent, epoch, item), NewJob(parent, item);
      Runtime(before.jobs[id := job], before.active[id := false], before.stored[id := job])
  }

  function FirstRefusal(jobs: map<TaskId, Job>, parent: Parent, epoch: nat, items: seq<Item>, n: nat): Option<Refusal>
    requires n <= |items|
  {
    if n == 0 then None
    else
      var earlier := FirstRefusal(jobs, parent, epoch, items, n - 1);
      if earlier.Some? then earlier else ItemRefusal(jobs, parent, epoch, items[n - 1], Keys(items, n - 1))
  }

  /** The whole start request: refused without effect, or every unknown item added. */
  function StartRequest(r: Runtime, parent: Parent, epoch: nat, items: seq<Item>): (Runtime, Option<Refusal>) {
    if !parent.toolAccess then (r, Some(NotAllowed))
    else if !parent.dispatchAllowed then (r, Some(NotNeeded))
    else
      var refusal := FirstRefusal(r.jobs, parent, epoch, items, |items|);
      if refusal.Some? then (r, refusal)
      else
        var added := NewItems(r.jobs, parent, epoch, items, |items|);
        if !HasRoom(r.jobs, r.active, parent, |added|) then (r, Some(QueueFull))
        else (AddItems(r, parent, epoch, added), None)
  }

  class SubagentRuntime {
    var jobs: map<TaskId, Job>
    var active: map<TaskId, bool>
    var stored: map<TaskId, Job>

    function State(): Runtime
      reads this
    {
      Runtime(jobs, active, stored)
    }

    /** Opening the runtime on a database: every job found unfinished is marked interrupted and saved. */
    constructor (database: map<TaskId, Job>)
      ensures State() == Reopen(database)
    {
      jobs := Interrupt(database);
      active := map[];
      stored := Interrupt(database);
    }

    /** The checking loop: the first refusal, or the items that are not known yet. */
    method Plan(parent: Parent, epoch: nat, items: seq<Item>) returns (refusal: Option<Refusal>, planned: seq<Item>)
      ensures refusal == FirstRefusal(jobs, parent, epoch, items, |items|)
      ensures refusal.None? ==> planned == NewItems(jobs, parent, epoch, items, |items|)
    {
      refusal, planned := None, [];
      var seen: set<nat> := {};
      var i := 0;
      while i < |items|
        invariant 0 <= i <= |items|
        invariant seen == Keys(items, i)
        invariant planned == NewItems(jobs, parent, epoch, items, i)
        invariant refusal.None? && FirstRefusal(jobs, parent, epoch, items, i).None?
      {
        var item := items[i];
        refusal := ItemRefusal(jobs, parent, epoch, item, seen);
        if refusal.Some? {
          RefusalStays(jobs, parent, epoch, items, i + 1, |items|);
          return;
        }
        seen := seen + {item.key};
        if IdOf(parent, epoch, item) !in jobs { planned := planned + [item]; }
        i := i + 1;
      }
    }

    /** The adding loop: every planned task becomes known, queued, active and recorded. */
    method Add(parent: Parent, epoch: nat, planned: seq<Item>)
      modifies this
      ensures State() == AddItems(old(State()), parent, epoch, planned)
    {
      var k := 0;
      while k < |planned|
        invariant 0 <= k <= |planned|
        invariant State() == AddItems(old(State()), parent, epoch, planned[..k])
      {
        assert planned[..k + 1][..k] == planned[..k];
        var id, job := IdOf(parent, epoch, planned[k]), NewJob(parent, planned[k]);
        jobs := jobs[id := job];
        stored := stored[id := job];
        active := active[id := false];
        k := k + 1;
      }
      assert planned[..|planned|] == planned;
    }

    method Start(parent: Parent, epoch: nat, items: seq<Item>) returns (refusal: Option<Refusal>)
      modifies this
      ensures (State(), refusal) == StartRequest(old(State()), parent, epoch, items)
    {
      hide FirstRefusal, NewItems, AddItems, HasRoom;
      if !parent.toolAccess { return Some(NotAllowed); }
      if !parent.dispatchAllowed { return Some(NotNeeded); }
      var planned;
      refusal, planned := Plan(parent, epoch, items);
      if refusal.Some? { return; }
      if !HasRoom(jobs, active, parent, |planned|) { return Some(QueueFull); }
      Add(parent, epoch, planned);
    }

    /** The scheduler reaches `self.launch` for a task. */
    method Launch(id: TaskId)
      requires CanLaunch(State(), id)
      modifies this
      ensures State() == Launched(old(State()), id)
    {
      active := active[id := true];
      jobs := jobs[id := jobs[id].(state := Running)];
      stored := stored[id := jobs[id]];
    }

    /** A progress event of a running task; events for finished tasks are ignored. */
    method Observe(id: TaskId, state: TaskState)
      modifies this
      ensures State() == Observed(old(State()), id, state)
    {
      if id in jobs && !Terminal(jobs[id].state) {
        jobs := jobs[id := jobs[id].(state := state)];
        stored := stored[id := jobs[id]];
      }
    }

    /** The task object ends: its last state may be overwritten, and an unfinished one becomes interrupted. */
    method Settle(id: TaskId, final: Option<TaskState>)
      requires id in jobs && (final.Some? ==> Terminal(final.value))
      modifies this
      ensures State() == Settled(old(State()), id, final)
    {
      var state := final.GetOr(jobs[id].state);
      active := active - {id};
      jobs := jobs[id := jobs[id].(state := if Terminal(state) then state else Interrupted)];
      stored := stored[id := jobs[id]];
    }
  }

  function Interrupt(jobs: map<TaskId, Job>): map<TaskId, Job> {
    map id | id in jobs :: if Terminal(jobs[id].state) then jobs[id] else jobs[id].(state := Interrupted)
  }

  function Reopen(database: map<TaskId, Job>): Runtime {
    Runtime(Interrupt(database), map[], Interrupt(database))
  }

  predicate CanLaunch(r: Runtime, id: TaskId) {
    id in r.jobs && id in r.active && !r.active[id]
  }

  function Save(r: Runtime, id: TaskId, state: TaskState): Runtime
    requires id in r.jobs
  {
    var job := r.jobs[id].(state := state);
    r.(jobs := r.jobs[id := job], stored := r.stored[id := job])
  }

  function Launched(r: Runtime, id: TaskId): Runtime
    requires CanLaunch(r, id)
  {
    Save(r.(active := r.active[id := true]), id, Running)
  }

  function Observed(r: Runtime, id: TaskId, state: TaskState): Runtime {
    if id in r.jobs && !Terminal(r.jobs[id].state) then Save(r, id, state) else r
  }

  function Settled(r: Runtime, id: TaskId, final: Option<TaskState>): Runtime
    requires id in r.jobs
  {
    var state := final.GetOr(r.jobs[id].state);
    Save(r.(active := r.active - {id}), id, if Terminal(state) then state else Interrupted)
  }

  lemma {:induction false} RefusalStays(jobs: map<TaskId, Job>, parent: Parent, epoch: nat, items: seq<Item>, i: nat, n: nat)
    requires i <= n <= |items| && FirstRefusal(jobs, parent, epoch, items, i).Some?
    ensures FirstRefusal(jobs, parent, epoch, items, n) == FirstRefusal(jobs, parent, epoch, items, i)
    decreases n
  {
    if i < n { RefusalStays(jobs, parent, epoch, items, i, n - 1); }
  }
}
