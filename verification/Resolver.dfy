/** The bounded resolver: callers that give up at a deadline, detached workers that cannot be cancelled, four slots
    taken by compare-and-exchange, and one list of addresses to be owned by somebody at every moment. */
module Resolver {
  const MAX_WORKERS: nat := 4

  datatype Outcome = Resolved | Failed | TimedOut | Busy | Unavailable

  /** What a caller and its worker share under the mutex. `addresses` tells whether it holds the worker's list. */
  datatype Shared = Shared(complete: bool, abandoned: bool, success: bool, addresses: bool)

  const NEW_SHARED: Shared := Shared(false, false, false, false)

  /** The worker hands over its result, unless the caller has given up. */
  function Delivered(s: Shared, success: bool, found: bool): (r: (Shared, bool)) {
    if s.abandoned then (s, true) else (s.(success := success, addresses := found, complete := true), false)
  }

  /** The caller wakes with a complete result: late, failed, or taking the list. */
  function Collected(s: Shared, late: bool): (Shared, Outcome) {
    if late then (s.(abandoned := true), TimedOut)
    else if !s.success || !s.addresses then (s, Failed)
    else (s.(addresses := false), Resolved)
  }

  class AddressInfoState {
    var complete: bool
    var abandoned: bool
    var success: bool
    var addresses: bool

    function State(): Shared
      reads this
    {
      Shared(complete, abandoned, success, addresses)
    }

    constructor ()
      ensures State() == NEW_SHARED
    {
      complete, abandoned, success, addresses := false, false, false, false;
    }

    /** The worker's critical section: whether it must release its own list. */
    method Deliver(result: bool, found: bool) returns (release: bool)
      modifies this
      ensures (State(), release) == Delivered(old(State()), result, found)
    {
      release := false;
      if abandoned {
        release := true;
      } else {
        success := result;
        addresses := found;
        complete := true;
      }
    }

    /** The caller's critical section after the wait ended with a result. */
    method Collect(late: bool) returns (outcome: Outcome)
      modifies this
      ensures (State(), outcome) == Collected(old(State()), late)
    {
      if late {
        abandoned := true;
        return TimedOut;
      }
      if !success || !addresses { return Failed; }
      addresses := false;
      outcome := Resolved;
    }

    /** The caller's critical section after the wait ended without one. */
    method GiveUp()
      modifies this
      ensures State() == old(State()).(abandoned := true)
    {
      abandoned := true;
    }
  }

  // ----- callers and workers -----

  datatype CallerPc = Asked | Loaded(seen: int) | Reserved | Waiting | Done(outcome: Outcome) | Gone(outcome: Outcome)

  datatype WorkerPc = Absent | Resolving | Returned(success: bool) | Freeing | Counting | Notifying | Ended

  /** One call. `local`, `out` and `freed` say where its list is besides the shared state. */
  datatype Call = Call(caller: CallerPc, worker: WorkerPc, shared: Shared, produced: bool, local: bool, out: bool, freed: nat)

  datatype System = System(active: int, calls: map<nat, Call>)

  const NEW_CALL: Call := Call(Asked, Absent, NEW_SHARED, false, false, false, 0)

  function Init(): System { System(0, map[]) }

  /** A call that has taken a slot and not given it back. */
  predicate Holds(c: Call) {
    c.caller.Reserved? || c.worker.Resolving? || c.worker.Returned? || c.worker.Freeing? || c.worker.Counting?
  }

  datatype Step =
    | Arrive(id: nat)
    | Load(id: nat)
    | Compare(id: nat, spurious: bool)
    | Spawn(id: nat, started: bool)
    | Resolve(id: nat, success: bool, found: bool)
    | Deliver(id: nat)
    | FreeLocal(id: nat)
    | Decrement(id: nat)
    | EndWorker(id: nat)
    | Wake(id: nat, late: bool)
    | TimeOut(id: nat)
    | Leave(id: nat)

  predicate Enabled(s: System, step: Step) {
    if step.Arrive? then step.id !in s.calls
    else
      step.id in s.calls &&
      var c := s.calls[step.id];
      match step
      case Load(_) => c.caller.Asked?
      case Compare(_, _) => c.caller.Loaded?
      case Spawn(_, _) => c.caller.Reserved?
      case Resolve(_, _, _) => c.worker.Resolving?
      case Deliver(_) => c.worker.Returned?
      case FreeLocal(_) => c.worker.Freeing?
      case Decrement(_) => c.worker.Counting?
      case EndWorker(_) => c.worker.Notifying?
      case Wake(_, _) => c.caller.Waiting? && c.shared.complete
      case TimeOut(_) => c.caller.Waiting? && !c.shared.complete
      case Leave(_) => c.caller.Done?
      case Arrive(_) => false
  }

  /** The last of the two references to the shared state is dropped: the destructor frees a list it still holds. */
  function Dropped(c: Call, last: bool): Call {
    if last && c.shared.addresses then c.(shared := c.shared.(addresses := false), freed := c.freed + 1) else c
  }

  function NextCall(s: System, step: Step): Call
    requires Enabled(s, step)
  {
    if step.Arrive? then NEW_CALL
    else
      var c := s.calls[step.id];
      match step
      case Load(_) => c.(caller := Loaded(s.active))
      case Compare(_, spurious) =>
        if c.caller.seen >= MAX_WORKERS then c.(caller := Done(Busy))
        else if c.caller.seen == s.active && !spurious then c.(caller := Reserved)
        else c.(caller := Loaded(s.active))
      case Spawn(_, started) => if started then c.(caller := Waiting, worker := Resolving) else c.(caller := Done(Unavailable))
      case Resolve(_, success, found) => c.(worker := Returned(success), produced := found, local := found)
      case Deliver(_) =>
        var (shared, release) := Delivered(c.shared, c.worker.success, c.local);
        if release then c.(worker := Freeing) else c.(worker := Counting, shared := shared, local := false)
      case FreeLocal(_) => c.(worker := Counting, local := false, freed := c.freed + if c.local then 1 else 0)
      case Decrement(_) => c.(worker := Notifying)
      case EndWorker(_) => Dropped(c.(worker := Ended), c.caller.Gone?)
      case Wake(_, late) =>
        var (shared, outcome) := Collected(c.shared, late);
        c.(caller := Done(outcome), shared := shared, out := outcome.Resolved?)
      case TimeOut(_) => c.(caller := Done(TimedOut), shared := c.shared.(abandoned := true))
      case Leave(_) => Dropped(c.(caller := Gone(c.caller.outcome)), c.worker.Absent? || c.worker.Ended?)
      case Arrive(_) => NEW_CALL
  }

  /** How the counter moves: up when a compare-and-exchange succeeds, down when a start fails or a worker is done. */
  function NextActive(s: System, step: Step): int
    requires Enabled(s, step)
  {
    match step
    case Compare(id, spurious) =>
      if s.calls[id].caller.seen < MAX_WORKERS && s.calls[id].caller.seen == s.active && !spurious then s.active + 1 else s.active
    case Spawn(_, started) => if started then s.active else s.active - 1
    case Decrement(_) => s.active - 1
    case _ => s.active
  }

  function Holders(calls: map<nat, Call>): set<nat> {
    set id | id in calls && Holds(calls[id])
  }

  function Places(c: Call): nat {
    (if c.local then 1 else 0) + (if c.shared.addresses then 1 else 0) + (if c.out then 1 else 0) + c.freed
  }

  /** What holds of one call: its program counters fit its shared state, and its list is in exactly one place. */
  predicate CallOk(c: Call) {
    && Places(c) == (if c.produced then 1 else 0)
    && (c.local ==> c.worker.Returned? || c.worker.Freeing?)
    && (c.out <==> (c.caller.Done? || c.caller.Gone?) && c.caller.outcome.Resolved?)
    && (c.worker.Absent? <==> c.caller.Asked? || c.caller.Loaded? || c.caller.Reserved?
                              || ((c.caller.Done? || c.caller.Gone?) && (c.caller.outcome.Busy? || c.caller.outcome.Unavailable?)))
    && (c.worker.Absent? ==> c.shared == NEW_SHARED)
    && (c.produced ==> !c.worker.Absent? && !c.worker.Resolving?)
    && (c.shared.complete ==> c.worker.Counting? || c.worker.Notifying? || c.worker.Ended?)
    && (c.shared.addresses ==> c.shared.complete)
    && (c.caller.Waiting? ==> !c.shared.abandoned)
    && (c.worker.Counting? || c.worker.Notifying? || c.worker.Ended? ==> c.shared.complete || c.shared.abandoned)
    && (c.caller.Gone? && (c.worker.Absent? || c.worker.Ended?) ==> !c.shared.addresses)
    && (c.worker.Freeing? ==> c.shared.abandoned)
  }

  ghost predicate Inv(s: System) {
    && s.active == |Holders(s.calls)| <= MAX_WORKERS
    && forall id | id in s.calls :: CallOk(s.calls[id])
  }

  function Next(s: System, step: Step): System
    requires Enabled(s, step)
  {
    System(NextActive(s, step), s.calls[step.id := NextCall(s, step)])
  }

  lemma CallStep(s: System, step: Step)
    requires Enabled(s, step) && (step.Arrive? || CallOk(s.calls[step.id]))
    ensures CallOk(NextCall(s, step))
  {
  }

  /** The counter moves with the call that steps. */
  lemma CounterMoves(s: System, step: Step)
    requires Enabled(s, step) && (step.Arrive? || CallOk(s.calls[step.id]))
    ensures NextActive(s, step) - s.active
      == (if Holds(NextCall(s, step)) then 1 else 0) - (if !step.Arrive? && Holds(s.calls[step.id]) then 1 else 0)
  {
  }

  lemma HoldersStep(s: System, step: Step)
    requires Enabled(s, step) && (step.Arrive? || CallOk(s.calls[step.id]))
    ensures var after := s.calls[step.id := NextCall(s, step)];
            && |Holders(after)| == |Holders(s.calls)| + NextActive(s, step) - s.active
            && (NextActive(s, step) < s.active ==> step.id in Holders(s.calls))
  {
    CounterMoves(s, step);
    hide NextCall, NextActive, CallOk;
    var after := s.calls[step.id := NextCall(s, step)];
    ArriveIsNew(s, step);
    if step.id in Holders(s.calls) { assert Holders(s.calls) == Holders(s.calls) - {step.id} + {step.id}; }
    if Holds(NextCall(s, step)) {
      assert Holders(after) == Holders(s.calls) + {step.id};
    } else {
      assert Holders(after) == Holders(s.calls) - {step.id};
    }
  }

  lemma ArriveIsNew(s: System, step: Step)
    requires Enabled(s, step)
    ensures step.Arrive? <==> step.id !in s.calls
  {
  }

  lemma InvStep(s: System, step: Step)
    requires Inv(s) && Enabled(s, step)
    ensures Inv(Next(s, step))
  {
    hide CallOk, NextCall;
    HoldersStep(s, step);
    CallStep(s, step);
    if NextActive(s, step) < s.active {
      assert Holders(s.calls) == Holders(s.calls) - {step.id} + {step.id};
    }
  }

  // ----- every run -----

  ghost predicate ValidRun(steps: seq<Step>)
    decreases |steps|, 0
  {
    steps == [] || (ValidRun(steps[..|steps| - 1]) && Enabled(After(steps[..|steps| - 1]), steps[|steps| - 1]))
  }

  ghost function After(steps: seq<Step>): System
    requires ValidRun(steps)
    decreases |steps|, 1
  {
    if steps == [] then Init() else Next(After(steps[..|steps| - 1]), steps[|steps| - 1])
  }

  lemma {:induction false} InvAlways(steps: seq<Step>)
    requires ValidRun(steps)
    ensures Inv(After(steps))
  {
    if steps == [] {
      assert Holders(Init().calls) == {};
    } else {
      InvAlways(steps[..|steps| - 1]);
      InvStep(After(steps[..|steps| - 1]), steps[|steps| - 1]);
    }
  }

  /** Main counting result: in every interleaving the counter is the number of calls that hold a slot, at most four. */
  lemma CounterCountsReservations(steps: seq<Step>)
    requires ValidRun(steps)
    ensures After(steps).active == |set id | id in After(steps).calls && Holds(After(steps).calls[id])|
    ensures After(steps).active <= MAX_WORKERS
  {
    InvAlways(steps);
    assert Holders(After(steps).calls) == set id | id in After(steps).calls && Holds(After(steps).calls[id]);
  }

  /** A call whose caller has returned and whose worker has ended or never started. */
  predicate Finished(c: Call) {
    c.caller.Gone? && (c.worker.Absent? || c.worker.Ended?)
  }

  /** Main ownership result: at every moment a list that was resolved is in exactly one place, so it is never freed
      twice; and once the call is finished, it was either handed to the caller or freed once, never lost. */
  lemma EveryListHasOneOwner(steps: seq<Step>, id: nat)
    requires ValidRun(steps) && id in After(steps).calls
    ensures var c := After(steps).calls[id];
            && (c.produced ==> Places(c) == 1) && c.freed <= 1
            && (c.out <==> (c.caller.Done? || c.caller.Gone?) && c.caller.outcome.Resolved?)
            && (c.freed == 1 ==> !c.local && !c.shared.addresses && !c.out)
            && (Finished(c) ==> !Holds(c) && !c.local && !c.shared.addresses
                                && (c.produced ==> if c.caller.outcome.Resolved? then c.out && c.freed == 0 else c.freed == 1))
  {
    InvAlways(steps);
    assert CallOk(After(steps).calls[id]);
  }

  /** When every call is finished, every slot is free again. */
  lemma AllSlotsReturn(steps: seq<Step>)
    requires ValidRun(steps) && forall id | id in After(steps).calls :: Finished(After(steps).calls[id])
    ensures After(steps).active == 0
  {
    InvAlways(steps);
    assert Holders(After(steps).calls) == {} by {
      forall id | id in After(steps).calls ensures !Holds(After(steps).calls[id]) {
        assert CallOk(After(steps).calls[id]);
      }
    }
  }
}
