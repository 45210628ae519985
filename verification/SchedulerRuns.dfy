/** Properties of every run of the subagent scheduler. */
module SchedulerRuns {
  import opened TargetGates
  import opened Scheduler

  ghost predicate ValidRun(steps: seq<Step>)
    decreases |steps|, 0
  {
    steps == [] || (ValidRun(steps[..|steps| - 1]) && Enabled(After(steps[..|steps| - 1]), steps[|steps| - 1]))
  }

  ghost function After(steps: seq<Step>): System
    requires ValidRun(steps)
    decreases |steps|, 1
  {
    if steps == [] then Init() else Next(After(steps[..|steps| - 1]), steps[|steps| - 1])
  }

  lemma {:induction false} InvAlways(steps: seq<Step>)
    requires ValidRun(steps)
    ensures Inv(After(steps))
  {
    if steps == [] {
      forall server ensures GateOk(Init(), server) {
        NobodyAnywhere(Reading(server));
        NobodyAnywhere(Writing(server));
        NobodyAnywhere(WaitingToWrite(server));
      }
      NobodyAnywhere(Running);
    } else {
      InvAlways(steps[..|steps| - 1]);
      InvStep(After(steps[..|steps| - 1]), steps[|steps| - 1]);
    }
  }

  lemma NobodyAnywhere(role: Role)
    ensures Select(Init().jobs, role) == {}
  {
  }

  // ----- safety -----

  /** A writer that holds its server's gate shares it with no other job. */
  ghost predicate Exclusive(s: System) {
    forall a, b | a in s.jobs && b in s.jobs && a != b && s.jobs[a].server == s.jobs[b].server
                  && Holds(s.jobs[a].phase) && s.jobs[a].write :: !Holds(s.jobs[b].phase)
  }

  lemma TwoMembers(s: set<nat>, a: nat, b: nat)
    requires a in s && b in s && a != b
    ensures |s| >= 2
  {
    assert {a, b} <= s;
    assert |s| == |s - {a, b}| + |{a, b}|;
  }

  lemma InvExclusive(s: System)
    requires Inv(s)
    ensures Exclusive(s)
  {
    forall a, b | a in s.jobs && b in s.jobs && a != b && s.jobs[a].server == s.jobs[b].server
                  && Holds(s.jobs[a].phase) && s.jobs[a].write
      ensures !Holds(s.jobs[b].phase)
    {
      var v := s.jobs[a].server;
      assert GateOk(s, v);
      Present(s, a, Writing(v));
      if Holds(s.jobs[b].phase) {
        if s.jobs[b].write {
          Present(s, b, Writing(v));
          TwoMembers(Select(s.jobs, Writing(v)), a, b);
        } else {
          Present(s, b, Reading(v));
        }
        assert false;
      }
    }
  }

  /** Main safety result, for every interleaving of arrivals, entries, cancellations and exits. */
  lemma WritersAreAlone(steps: seq<Step>)
    requires ValidRun(steps)
    ensures Exclusive(After(steps))
    ensures |Select(After(steps).jobs, Running)| <= SLOTS
  {
    InvAlways(steps);
    InvExclusive(After(steps));
  }

  /** While a writer waits, and until it stops waiting, no step lets a reader into its server. */
  lemma NoReaderPassesAWaitingWriter(steps: seq<Step>, step: Step, writer: nat)
    requires ValidRun(steps) && Enabled(After(steps), step)
    requires writer in After(steps).jobs && After(steps).jobs[writer].write && After(steps).jobs[writer].phase.AtGate?
    requires Next(After(steps), step).jobs[writer].phase.AtGate?
    ensures var s, v := After(steps), After(steps).jobs[writer].server;
            Select(Next(s, step).jobs, Reading(v)) <= Select(s.jobs, Reading(v))
  {
    var s := After(steps);
    var v, s' := s.jobs[writer].server, Next(s, step);
    InvAlways(steps);
    JobAtGate(s, writer);
    forall t | t in Select(s'.jobs, Reading(v)) ensures t in Select(s.jobs, Reading(v)) {
      if t == step.id && !step.Submit? { ReaderStays(s, step); }
    }
  }

  lemma ReaderStays(s: System, step: Step)
    requires Inv(s) && Enabled(s, step) && !step.Submit? && !s.jobs[step.id].write
    requires GateOf(s, s.jobs[step.id].server).waitingWriters > 0
    ensures Holds(Next(s, step).jobs[step.id].phase) ==> Holds(s.jobs[step.id].phase)
  {
    hide GateOk;
  }

  // ----- progress -----

  /** A step of the system itself that moves a job to its next phase. */
  predicate Productive(s: System, step: Step)
    requires Enabled(s, step)
  {
    !step.Submit? && !step.Cancel? && Next(s, step).jobs[step.id].phase != s.jobs[step.id].phase
  }

  /** While any job is unfinished, some productive step is enabled: no deadlock, and no lost wake-up. */
  lemma SomeStepIsProductive(s: System, job: nat)
    requires Inv(s) && job in s.jobs && !s.jobs[job].phase.Ended?
    ensures exists step :: Enabled(s, step) && Productive(s, step)
  {
    if t :| t in s.jobs && s.jobs[t].phase.Created? {
      assert Enabled(s, Begin(t)) && Productive(s, Begin(t)) by { BeginMoves(s, t); }
    } else if t :| t in s.jobs && s.jobs[t].phase.Launched? {
      assert Enabled(s, Finish(t)) && Productive(s, Finish(t));
    } else if t :| t in s.jobs && s.jobs[t].phase.Inside? {
      NobodyRuns(s);
      assert Enabled(s, Launch(t)) && Productive(s, Launch(t));
    } else {
      assert s.jobs[job].phase.AtGate?;
      var next := FrontWaiter(s, job);
      assert Enabled(s, Resume(next)) && Productive(s, Resume(next));
    }
  }

  lemma BeginMoves(s: System, t: nat)
    requires t in s.jobs && s.jobs[t].phase.Created?
    ensures Enabled(s, Begin(t)) && Productive(s, Begin(t))
  {
    hide Arrive;
  }

  lemma NobodyRuns(s: System)
    requires Inv(s) && forall t | t in s.jobs :: !s.jobs[t].phase.Launched?
    ensures s.free == SLOTS
  {
    hide GateOk;
    assert Select(s.jobs, Running) == {};
  }

  /** With nobody inside, a waiting writer of the server, or else every waiting reader, may enter and was notified. */
  lemma FrontWaiter(s: System, job: nat) returns (next: nat)
    requires Inv(s) && job in s.jobs && s.jobs[job].phase.AtGate?
    requires forall t | t in s.jobs :: s.jobs[t].phase.AtGate? || s.jobs[t].phase.Ended?
    ensures Enabled(s, Resume(next)) && Next(s, Resume(next)).jobs[next].phase.Inside?
  {
    var v := s.jobs[job].server;
    var g := GateOf(s, v);
    assert GateOk(s, v);
    assert Select(s.jobs, Reading(v)) == {};
    assert Select(s.jobs, Writing(v)) == {};
    if w :| w in s.jobs && Plays(s.jobs[w], WaitingToWrite(v)) {
      next := w;
    } else {
      assert Select(s.jobs, WaitingToWrite(v)) == {};
      next := job;
    }
    JobAtGate(s, next);
    assert CanEnter(g, s.jobs[next].write);
  }

  /** In every reachable state. */
  lemma NoDeadlock(steps: seq<Step>, job: nat)
    requires ValidRun(steps) && job in After(steps).jobs && !After(steps).jobs[job].phase.Ended?
    ensures exists step :: Enabled(After(steps), step) && Productive(After(steps), step)
  {
    InvAlways(steps);
    SomeStepIsProductive(After(steps), job);
  }

  // ----- termination -----

  /** Waiters that have been notified but have not run yet. */
  function Awake(s: System): set<nat> {
    set t | t in s.jobs && s.jobs[t].phase.AtGate?
            && t in GateOf(s, s.jobs[t].server).waiters && GateOf(s, s.jobs[t].server).waiters[t]
  }

  /** Phases still to go, over all jobs. */
  function Work(jobs: map<nat, Job>): nat {
    4 * |Select(jobs, InPhase(Created))| + 3 * |Select(jobs, InPhase(AtGate))|
    + 2 * |Select(jobs, InPhase(Inside))| + |Select(jobs, InPhase(Phase.Launched))|
  }

  function Rank(phase: Phase): nat {
    match phase
    case Created => 4
    case AtGate => 3
    case Inside => 2
    case Launched => 1
    case Ended => 0
  }

  function Measure(s: System): nat {
    Work(s.jobs) * (|s.jobs| + 1) + |Awake(s)|
  }

  lemma WorkUpdate(jobs: map<nat, Job>, id: nat, job: Job)
    requires id in jobs
    ensures Work(jobs[id := job]) == Work(jobs) - Rank(jobs[id].phase) + Rank(job.phase)
  {
    hide Select;
    SelectUpdate(jobs, id, job, InPhase(Created));
    SelectUpdate(jobs, id, job, InPhase(AtGate));
    SelectUpdate(jobs, id, job, InPhase(Inside));
    SelectUpdate(jobs, id, job, InPhase(Phase.Launched));
  }

  lemma AwakeBound(s: System)
    ensures |Awake(s)| <= |s.jobs|
  {
    assert Awake(s) <= s.jobs.Keys;
    SubsetSize(Awake(s), s.jobs.Keys);
    assert |s.jobs.Keys| == |s.jobs|;
  }

  lemma SubsetSize(a: set<nat>, b: set<nat>)
    requires a <= b
    ensures |a| <= |b|
  {
    assert b == a + (b - a);
  }

  /** A waiter that wakes in vain is asleep afterwards, and wakes nobody. */
  lemma VainWake(s: System, id: nat)
    requires Inv(s) && Enabled(s, Resume(id)) && Next(s, Resume(id)).jobs[id].phase.AtGate?
    ensures Awake(Next(s, Resume(id))) == Awake(s) - {id} && id in Awake(s)
  {
    hide GateOk;
    var s' := Next(s, Resume(id));
    var v := s.jobs[id].server;
    assert forall t | t in s.jobs && s.jobs[t].server != v :: GateOf(s', s.jobs[t].server) == GateOf(s, s.jobs[t].server);
    assert GateOf(s', v).waiters == GateOf(s, v).waiters[id := false];
  }

  lemma MeasureFalls(s: System, step: Step)
    requires Inv(s) && Enabled(s, step) && !step.Submit?
    ensures Measure(Next(s, step)) < Measure(s)
  {
    hide GateOk, Work, Awake, Select;
    var s' := Next(s, step);
    var n := |s.jobs|;
    assert |s'.jobs| == n by { assert s'.jobs.Keys == s.jobs.Keys; assert |s'.jobs.Keys| == |s'.jobs|; assert |s.jobs.Keys| == |s.jobs|; }
    WorkUpdate(s.jobs, step.id, s'.jobs[step.id]);
    if s'.jobs[step.id].phase == s.jobs[step.id].phase {
      VainWake(s, step.id);
      assert |Awake(s')| == |Awake(s)| - 1;
    } else {
      RankFalls(s, step);
      AwakeBound(s');
      assert Work(s'.jobs) <= Work(s.jobs) - 1;
      Scale(Work(s'.jobs), Work(s.jobs), n + 1);
    }
  }

  lemma {:induction false} Scale(a: nat, b: nat, k: nat)
    requires a + 1 <= b
    ensures a * k + k <= b * k
    decreases b
  {
    assert b * k == (b - 1) * k + k;
    if a + 1 < b { Scale(a, b - 1, k); }
  }

  lemma RankFalls(s: System, step: Step)
    requires Enabled(s, step) && !step.Submit? && Next(s, step).jobs[step.id].phase != s.jobs[step.id].phase
    ensures Rank(Next(s, step).jobs[step.id].phase) < Rank(s.jobs[step.id].phase)
  {
    hide Arrive, Wake;
  }

  /** States reached from s by steps none of which is a new submission. */
  ghost predicate Continues(s: System, steps: seq<Step>, t: System)
    decreases |steps|
  {
    if steps == [] then s == t
    else !steps[0].Submit? && Enabled(s, steps[0]) && Continues(Next(s, steps[0]), steps[1..], t)
  }

  /** Main liveness result: without new submissions, every schedule from a reachable state has a bounded number of
      steps, and when no further step is possible every job has ended. */
  lemma {:induction false} EverySchedulerRunEnds(s: System, steps: seq<Step>, t: System)
    requires Inv(s) && Continues(s, steps, t)
    ensures Inv(t) && |steps| <= Measure(s)
    ensures (forall step | Enabled(t, step) :: step.Submit?) ==> forall job | job in t.jobs :: t.jobs[job].phase.Ended?
    decreases |steps|
  {
    if steps == [] {
      forall job | job in t.jobs && !t.jobs[job].phase.Ended? ensures exists step :: Enabled(t, step) && !step.Submit? {
        SomeStepIsProductive(t, job);
      }
    } else {
      InvStep(s, steps[0]);
      MeasureFalls(s, steps[0]);
      EverySchedulerRunEnds(Next(s, steps[0]), steps[1..], t);
    }
  }
}
