/** The subagent scheduler as a step relation: per-server gates, three global slots, and a cancellation that may
    arrive whenever a task is suspended. */
module Scheduler {
  import opened TargetGates

  /** Where a task is suspended, or that it has ended. */
  datatype Phase = Created | AtGate | Inside | Launched | Ended
  datatype Job = Job(server: nat, write: bool, phase: Phase)

  const SLOTS: nat := 3

  datatype System = System(jobs: map<nat, Job>, gates: map<nat, Gate>, free: int)

  function Init(): System { System(map[], map[], SLOTS) }

  function GateOf(s: System, server: nat): Gate {
    if server in s.gates then s.gates[server] else FREE_GATE
  }

  datatype Step =
    | Submit(id: nat, server: nat, write: bool)
    | Begin(id: nat)    // the task starts and reaches its gate
    | Resume(id: nat)   // a notified waiter runs
    | Launch(id: nat)   // a task inside its gate obtains a slot
    | Finish(id: nat)   // the launched work returns or fails
    | Cancel(id: nat)

  predicate Enabled(s: System, step: Step) {
    match step
    case Submit(id, _, _) => id !in s.jobs
    case Begin(id) => id in s.jobs && s.jobs[id].phase.Created?
    case Resume(id) =>
      && id in s.jobs && s.jobs[id].phase.AtGate?
      && id in GateOf(s, s.jobs[id].server).waiters && GateOf(s, s.jobs[id].server).waiters[id]
    case Launch(id) => id in s.jobs && s.jobs[id].phase.Inside? && s.free > 0
    case Finish(id) => id in s.jobs && s.jobs[id].phase.Launched?
    case Cancel(id) => id in s.jobs && !s.jobs[id].phase.Ended?
  }

  function Move(s: System, id: nat, phase: Phase, gate: Gate, free: int): System
    requires id in s.jobs
  {
    var job := s.jobs[id];
    System(s.jobs[id := job.(phase := phase)], s.gates[job.server := gate], free)
  }

  function Next(s: System, step: Step): System
    requires Enabled(s, step)
  {
    if step.Submit? then s.(jobs := s.jobs[step.id := Job(step.server, step.write, Created)])
    else
      var id := step.id;
      var job := s.jobs[id];
      var gate := GateOf(s, job.server);
      match step
      case Begin(_) =>
        var (g, entered) := Arrive(gate, id, job.write);
        Move(s, id, if entered then Inside else AtGate, g, s.free)
      case Resume(_) =>
        var (g, entered) := Wake(gate, id, job.write);
        Move(s, id, if entered then Inside else AtGate, g, s.free)
      case Launch(_) => Move(s, id, Launched, gate, s.free - 1)
      case Finish(_) => Move(s, id, Ended, Leave(gate, job.write), s.free + 1)
      case Cancel(_) =>
        match job.phase
        case Created => Move(s, id, Ended, gate, s.free)
        case AtGate => Move(s, id, Ended, Abandon(gate, id, job.write), s.free)
        case Inside => Move(s, id, Ended, Leave(gate, job.write), s.free)
        case _ => Move(s, id, Ended, Leave(gate, job.write), s.free + 1)
  }

  // ----- who is where -----

  datatype Role = Reading(server: nat) | Writing(server: nat) | WaitingToWrite(server: nat) | Waiting(server: nat)
                | Running | InPhase(phase: Phase)

  predicate Plays(job: Job, role: Role) {
    match role
    case Reading(v) => job.server == v && !job.write && (job.phase.Inside? || job.phase.Launched?)
    case Writing(v) => job.server == v && job.write && (job.phase.Inside? || job.phase.Launched?)
    case WaitingToWrite(v) => job.server == v && job.write && job.phase.AtGate?
    case Waiting(v) => job.server == v && job.phase.AtGate?
    case Running => job.phase.Launched?
    case InPhase(p) => job.phase == p
  }

  function Select(jobs: map<nat, Job>, role: Role): set<nat> {
    set t | t in jobs && Plays(jobs[t], role)
  }

  function One(b: bool): nat { if b then 1 else 0 }

  lemma SelectAfter(jobs: map<nat, Job>, id: nat, job: Job, role: Role)
    ensures Select(jobs[id := job], role) == (Select(jobs, role) - {id}) + (if Plays(job, role) then {id} else {})
  {
    hide Plays;
  }

  lemma SelectUpdate(jobs: map<nat, Job>, id: nat, job: Job, role: Role)
    ensures |Select(jobs[id := job], role)|
            == |Select(jobs, role)| - One(id in jobs && Plays(jobs[id], role)) + One(Plays(job, role))
  {
    hide Plays;
    SelectAfter(jobs, id, job, role);
    var before := Select(jobs, role);
    assert id in before <==> id in jobs && Plays(jobs[id], role);
    RemoveOne(before, id);
    assert id !in before - {id};
  }

  lemma RemoveOne(s: set<nat>, x: nat)
    ensures |s - {x}| == |s| - One(x in s)
  {
    if x in s { assert s == (s - {x}) + {x}; } else { assert s - {x} == s; }
  }

  // ----- the invariant -----

  /** The gate's counters tell the truth, and a writer is alone. */
  ghost predicate CountsOk(s: System, server: nat) {
    var g := GateOf(s, server);
    && g.readers == |Select(s.jobs, Reading(server))|
    && |Select(s.jobs, Writing(server))| == One(g.writer)
    && (g.writer ==> g.readers == 0)
    && g.waitingWriters == |Select(s.jobs, WaitingToWrite(server))|
  }

  /** The condition's waiters are the tasks at the gate, and none that may enter is left asleep. */
  ghost predicate WaitersOk(s: System, server: nat) {
    var g := GateOf(s, server);
    && (forall t :: t in g.waiters <==> t in s.jobs && Plays(s.jobs[t], Waiting(server)))
    && (forall t | t in g.waiters && CanEnter(g, s.jobs[t].write) :: g.waiters[t])
  }

  ghost predicate GateOk(s: System, server: nat) {
    CountsOk(s, server) && WaitersOk(s, server)
  }

  ghost predicate Inv(s: System) {
    && (forall server :: GateOk(s, server))
    && s.free >= 0 && s.free + |Select(s.jobs, Running)| == SLOTS
  }

  /** A step touches one job and its gate; the other gates see nothing. */
  lemma OtherGates(s: System, id: nat, phase: Phase, gate: Gate, free: int, server: nat)
    requires id in s.jobs && GateOk(s, server) && server != s.jobs[id].server
    ensures GateOk(Move(s, id, phase, gate, free), server)
  {
    hide Select;
    var s' := Move(s, id, phase, gate, free);
    SelectUpdate(s.jobs, id, s'.jobs[id], Reading(server));
    SelectUpdate(s.jobs, id, s'.jobs[id], Writing(server));
    SelectUpdate(s.jobs, id, s'.jobs[id], WaitingToWrite(server));
  }

  predicate Holds(phase: Phase) { phase.Inside? || phase.Launched? }

  /** What a step must do to the gate of its job. */
  ghost predicate GateStep(g: Gate, g': Gate, id: nat, write: bool, from: Phase, to: Phase, jobs: map<nat, Job>)
    requires g'.waiters.Keys - {id} <= jobs.Keys
  {
    && g'.readers == g.readers + (if write then 0 else One(Holds(to)) - One(Holds(from)))
    && One(g'.writer) == One(g.writer) + (if write then One(Holds(to)) - One(Holds(from)) else 0)
    && g'.waitingWriters == g.waitingWriters + (if write then One(to.AtGate?) - One(from.AtGate?) else 0)
    && g'.waiters.Keys == (g.waiters.Keys - {id}) + (if to.AtGate? then {id} else {})
    && (g'.writer ==> g'.readers == 0)
    && (forall t | t in g'.waiters && CanEnter(g', if t == id then write else jobs[t].write) :: g'.waiters[t])
  }

  lemma OwnCounts(s: System, id: nat, phase: Phase, gate: Gate, free: int)
    requires id in s.jobs && CountsOk(s, s.jobs[id].server)
    requires gate.waiters.Keys - {id} <= s.jobs.Keys
    requires GateStep(GateOf(s, s.jobs[id].server), gate, id, s.jobs[id].write, s.jobs[id].phase, phase, s.jobs)
    ensures CountsOk(Move(s, id, phase, gate, free), s.jobs[id].server)
  {
    hide Select, CanEnter;
    var v, s' := s.jobs[id].server, Move(s, id, phase, gate, free);
    SelectUpdate(s.jobs, id, s'.jobs[id], Reading(v));
    SelectUpdate(s.jobs, id, s'.jobs[id], Writing(v));
    SelectUpdate(s.jobs, id, s'.jobs[id], WaitingToWrite(v));
  }

  lemma OwnWaiters(s: System, id: nat, phase: Phase, gate: Gate, free: int)
    requires id in s.jobs && WaitersOk(s, s.jobs[id].server)
    requires gate.waiters.Keys - {id} <= s.jobs.Keys
    requires GateStep(GateOf(s, s.jobs[id].server), gate, id, s.jobs[id].write, s.jobs[id].phase, phase, s.jobs)
    ensures WaitersOk(Move(s, id, phase, gate, free), s.jobs[id].server)
  {
    hide CanEnter;
    var v, s' := s.jobs[id].server, Move(s, id, phase, gate, free);
    var g := GateOf(s, v);
    assert GateOf(s', v) == gate;
    forall t ensures t in gate.waiters <==> t in s'.jobs && Plays(s'.jobs[t], Waiting(v)) {
      assert t in gate.waiters <==> t in gate.waiters.Keys;
    }
  }

  lemma Present(s: System, id: nat, role: Role)
    requires id in s.jobs && Plays(s.jobs[id], role)
    ensures id in Select(s.jobs, role) && |Select(s.jobs, role)| >= 1
  {
    assert id in Select(s.jobs, role);
  }

  /** What the invariant says about the gate of a job. */
  lemma JobAtGate(s: System, id: nat)
    requires id in s.jobs && GateOk(s, s.jobs[id].server)
    ensures var job := s.jobs[id]; var g := GateOf(s, job.server);
            && (job.phase.AtGate? <==> id in g.waiters)
            && (Holds(job.phase) && job.write ==> g.writer)
            && (Holds(job.phase) && !job.write ==> g.readers > 0)
            && (job.phase.AtGate? && job.write ==> g.waitingWriters > 0)
            && g.readers >= 0 && g.waitingWriters >= 0
            && g.waiters.Keys <= s.jobs.Keys
  {
    var job := s.jobs[id];
    if Holds(job.phase) && job.write { Present(s, id, Writing(job.server)); }
    if Holds(job.phase) && !job.write { Present(s, id, Reading(job.server)); }
    if job.phase.AtGate? && job.write { Present(s, id, WaitingToWrite(job.server)); }
  }

  /** The outcome of a step: the phase its job moves to, and the gate and slots it leaves behind. */
  function Outcome(s: System, step: Step): (Phase, Gate, int)
    requires Enabled(s, step) && !step.Submit?
  {
    var next := Next(s, step);
    (next.jobs[step.id].phase, next.gates[s.jobs[step.id].server], next.free)
  }

  lemma StepMoves(s: System, step: Step)
    requires Enabled(s, step) && !step.Submit?
    ensures var (phase, gate, free) := Outcome(s, step); Next(s, step) == Move(s, step.id, phase, gate, free)
  {
  }

  /** What one gate knows of itself. */
  ghost predicate Sane(g: Gate, jobs: map<nat, Job>) {
    && g.readers >= 0 && g.waitingWriters >= 0 && (g.writer ==> g.readers == 0)
    && g.waiters.Keys <= jobs.Keys
    && (forall t | t in g.waiters && CanEnter(g, jobs[t].write) :: g.waiters[t])
  }

  function EnterPhase(entered: bool): Phase { if entered then Inside else AtGate }

  lemma ArriveOk(g: Gate, id: nat, write: bool, jobs: map<nat, Job>)
    requires Sane(g, jobs) && id in jobs && id !in g.waiters
    ensures var (g', entered) := Arrive(g, id, write);
            g'.waiters.Keys <= jobs.Keys && GateStep(g, g', id, write, Created, EnterPhase(entered), jobs)
  {
  }

  lemma WakeOk(g: Gate, id: nat, write: bool, jobs: map<nat, Job>)
    requires Sane(g, jobs) && id in jobs && id in g.waiters && (write ==> g.waitingWriters > 0)
    ensures var (g', entered) := Wake(g, id, write);
            g'.waiters.Keys <= jobs.Keys && GateStep(g, g', id, write, AtGate, EnterPhase(entered), jobs)
  {
  }

  lemma AbandonOk(g: Gate, id: nat, write: bool, jobs: map<nat, Job>)
    requires Sane(g, jobs) && id in jobs && id in g.waiters && (write ==> g.waitingWriters > 0)
    ensures var g' := Abandon(g, id, write); g'.waiters.Keys <= jobs.Keys && GateStep(g, g', id, write, AtGate, Ended, jobs)
  {
  }

  lemma LeaveOk(g: Gate, id: nat, write: bool, from: Phase, jobs: map<nat, Job>)
    requires Sane(g, jobs) && id in jobs && id !in g.waiters && Holds(from) && (if write then g.writer else g.readers > 0)
    ensures var g' := Leave(g, write); g'.waiters.Keys <= jobs.Keys && GateStep(g, g', id, write, from, Ended, jobs)
  {
  }

  lemma StayOk(g: Gate, id: nat, write: bool, from: Phase, to: Phase, jobs: map<nat, Job>)
    requires Sane(g, jobs) && id in jobs && id !in g.waiters && Holds(from) == Holds(to) && !from.AtGate? && !to.AtGate?
    ensures GateStep(g, g, id, write, from, to, jobs)
  {
  }

  lemma StepKeepsGate(s: System, step: Step)
    requires Enabled(s, step) && !step.Submit? && GateOk(s, s.jobs[step.id].server)
    ensures var job := s.jobs[step.id];
            var (phase, gate, free) := Outcome(s, step);
            && gate.waiters.Keys - {step.id} <= s.jobs.Keys
            && GateStep(GateOf(s, job.server), gate, step.id, job.write, job.phase, phase, s.jobs)
  {
    hide Select, GateStep, CanEnter, Arrive, Wake, Abandon, Leave;
    JobAtGate(s, step.id);
    var job := s.jobs[step.id];
    var g := GateOf(s, job.server);
    match step
    case Begin(id) => ArriveOk(g, id, job.write, s.jobs);
    case Resume(id) => WakeOk(g, id, job.write, s.jobs);
    case Launch(id) => StayOk(g, id, job.write, Inside, Phase.Launched, s.jobs);
    case Finish(id) => LeaveOk(g, id, job.write, Phase.Launched, s.jobs);
    case Cancel(id) =>
      match job.phase {
        case Created => StayOk(g, id, job.write, Created, Ended, s.jobs);
        case AtGate => AbandonOk(g, id, job.write, s.jobs);
        case Inside => LeaveOk(g, id, job.write, Inside, s.jobs);
        case Launched => LeaveOk(g, id, job.write, Phase.Launched, s.jobs);
      }
  }

  lemma StepKeepsSlots(s: System, step: Step)
    requires Inv(s) && Enabled(s, step)
    ensures Next(s, step).free >= 0 && Next(s, step).free + |Select(Next(s, step).jobs, Running)| == SLOTS
  {
    hide Select, GateOk, GateOf, Arrive, Wake, Abandon, Leave;
    var s' := Next(s, step);
    SelectUpdate(s.jobs, step.id, s'.jobs[step.id], Running);
  }

  lemma SubmitKeepsGates(s: System, step: Step, server: nat)
    requires Enabled(s, step) && step.Submit? && GateOk(s, server)
    ensures GateOk(Next(s, step), server)
  {
    hide Select;
    var s' := Next(s, step);
    SelectUpdate(s.jobs, step.id, s'.jobs[step.id], Reading(server));
    SelectUpdate(s.jobs, step.id, s'.jobs[step.id], Writing(server));
    SelectUpdate(s.jobs, step.id, s'.jobs[step.id], WaitingToWrite(server));
  }

  lemma BothOk(s: System, server: nat)
    requires CountsOk(s, server) && WaitersOk(s, server)
    ensures GateOk(s, server)
  {
  }

  /** Every step keeps the invariant, in any interleaving. */
  lemma InvStep(s: System, step: Step)
    requires Inv(s) && Enabled(s, step)
    ensures Inv(Next(s, step))
  {
    hide CountsOk, WaitersOk, GateStep, Outcome, Move, Next;
    var s' := Next(s, step);
    forall server ensures GateOk(s', server) {
      if step.Submit? {
        SubmitKeepsGates(s, step, server);
      } else {
        var (phase, gate, free) := Outcome(s, step);
        StepMoves(s, step);
        if server == s.jobs[step.id].server {
          StepKeepsGate(s, step);
          OwnCounts(s, step.id, phase, gate, free);
          OwnWaiters(s, step.id, phase, gate, free);
          BothOk(s', server);
        } else {
          OtherGates(s, step.id, phase, gate, free, server);
        }
      }
    }
    StepKeepsSlots(s, step);
  }
}
