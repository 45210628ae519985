/** The per-server gate of the subagent scheduler: concurrent reads, exclusive changes, waiting writers first.
    Every method is the code between two suspension points of `_TargetGate.enter`; the condition's lock is never
    held across one, so each method is one atomic step of the event loop. */
module TargetGates {
  /** The fields of a gate. `waiters` holds the tasks waiting on the condition and whether each was notified. */
  datatype Gate = Gate(readers: int, writer: bool, waitingWriters: int, waiters: map<nat, bool>)

  const FREE_GATE: Gate := Gate(0, false, 0, map[])

  predicate CanEnter(g: Gate, write: bool) {
    if write then !g.writer && g.readers == 0 else !g.writer && g.waitingWriters == 0
  }

  function NotifyAll(g: Gate): Gate {
    g.(waiters := map t | t in g.waiters :: true)
  }

  function Forget(g: Gate, task: nat): Gate {
    g.(waiters := g.waiters - {task})
  }

  /** The test a task makes when it arrives and each time it is woken. */
  function Try(g: Gate, task: nat, write: bool): (r: (Gate, bool)) {
    if !CanEnter(g, write) then (g.(waiters := g.waiters[task := false]), false)
    else if write then (NotifyAll(g.(writer := true, waitingWriters := g.waitingWriters - 1)), true)
    else (g.(readers := g.readers + 1), true)
  }

  function Arrive(g: Gate, task: nat, write: bool): (Gate, bool) {
    Try(if write then g.(waitingWriters := g.waitingWriters + 1) else g, task, write)
  }

  function Wake(g: Gate, task: nat, write: bool): (Gate, bool) {
    Try(Forget(g, task), task, write)
  }

  /** Cancellation while waiting: only a writer has something to undo. */
  function Abandon(g: Gate, task: nat, write: bool): Gate {
    var rest := Forget(g, task);
    if write then NotifyAll(rest.(waitingWriters := rest.waitingWriters - 1)) else rest
  }

  function Leave(g: Gate, write: bool): Gate {
    NotifyAll(if write then g.(writer := false) else g.(readers := g.readers - 1))
  }

  class TargetGate {
    var readers: int
    var writer: bool
    var waitingWriters: int
    var waiters: map<nat, bool>

    function State(): Gate
      reads this
    {
      Gate(readers, writer, waitingWriters, waiters)
    }

    constructor ()
      ensures State() == FREE_GATE
    {
      readers, writer, waitingWriters, waiters := 0, false, 0, map[];
    }

    method Notify()
      modifies this`waiters
      ensures State() == NotifyAll(old(State()))
    {
      waiters := map t | t in waiters :: true;
    }

    /** A task reaches `async with gate.enter(write)`: it enters or starts to wait. */
    method Request(task: nat, write: bool) returns (entered: bool)
      modifies this
      ensures (State(), entered) == Arrive(old(State()), task, write)
    {
      if write {
        waitingWriters := waitingWriters + 1;
        entered := !writer && readers == 0;
        if entered {
          writer := true;
          waitingWriters := waitingWriters - 1;
          Notify();
        } else {
          waiters := waiters[task := false];
        }
      } else {
        entered := !writer && waitingWriters == 0;
        if entered {
          readers := readers + 1;
        } else {
          waiters := waiters[task := false];
        }
      }
    }

    /** A notified task runs again and re-tests its condition. */
    method Retry(task: nat, write: bool) returns (entered: bool)
      requires task in waiters && waiters[task]
      modifies this
      ensures (State(), entered) == Wake(old(State()), task, write)
    {
      waiters := waiters - {task};
      if write {
        entered := !writer && readers == 0;
        if entered {
          writer := true;
          waitingWriters := waitingWriters - 1;
          Notify();
        } else {
          waiters := waiters[task := false];
        }
      } else {
        entered := !writer && waitingWriters == 0;
        if entered {
          readers := readers + 1;
        } else {
          waiters := waiters[task := false];
        }
      }
    }

    method Cancel(task: nat, write: bool)
      requires task in waiters
      modifies this
      ensures State() == Abandon(old(State()), task, write)
    {
      waiters := waiters - {task};
      if write {
        waitingWriters := waitingWriters - 1;
        Notify();
      }
    }

    method Exit(write: bool)
      modifies this
      ensures State() == Leave(old(State()), write)
    {
      if write { writer := false; } else { readers := readers - 1; }
      Notify();
    }
  }
}
