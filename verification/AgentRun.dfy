/** Whole runs: the graph of nodes, one environment input per step, and the history of handled calls. */
module AgentRun {
  import opened Wrappers
  import opened AgentState
  import opened AgentTool
  import opened AgentBatch
  import opened AgentModel

  /** `history[k]` lists the calls handled by step k, in the order in which they were recorded.
      `issued` collects every call id handed out so far. */
  datatype Run = Run(node: Node, s: State, history: seq<seq<Event>>, issued: set<nat>)

  const FreshState: State := State([], 0, [], [], 0, 0, false, false, Running, None, map[], [], false, 0,
                                   false, 0, 0, false, 0)

  function Start(): Run { Run(Model, FreshState, [], {}) }

  datatype Input =
    | FromModel(reply: Reply)
    | FromTools(envs: seq<ToolEnv>)
    | FromReview(review: Review)
    | FromOperator(fingerprint: nat, approved: bool, code: Code)
    | Interrupted(envs: seq<ToolEnv>)   // the process stopped inside the tool node; its update is lost

  /** How many calls the tool node handles in one step: a whole read group when the output budget has a
      byte for each member, otherwise one call. */
  function Width(cfg: Config, s: State): (n: nat)
    requires s.callIndex < |s.calls|
    ensures 1 <= n && s.callIndex + n <= |s.calls|
    ensures n > 1 ==> n <= cfg.maxOutput - s.outputBytes
    ensures n > 1 ==> forall i | s.callIndex <= i < s.callIndex + n :: cfg.IsParallelSafe(s.calls[i].op)
  {
    var n := GroupSize(cfg, s);
    if n > 1 && n <= cfg.maxOutput - s.outputBytes then n else 1
  }

  predicate FreshIds(r: Run, proposals: seq<Proposal>) {
    && (forall p | p in proposals :: p.callId !in r.issued)
    && (forall i, j | 0 <= i < j < |proposals| :: proposals[i].callId != proposals[j].callId)
  }

  function Proposals(reply: Reply): seq<Proposal> {
    if reply.Message? then reply.proposals else []
  }

  /** The inputs a run can receive in its current node: call ids are fresh, and there is one outcome for
      each call the tool node is about to handle. */
  predicate Accepts(cfg: Config, r: Run, input: Input) {
    match input
    case FromModel(reply) => r.node.Model? && FreshIds(r, Proposals(reply))
    case FromTools(envs) => Ready(cfg, r, envs)
    case Interrupted(envs) => Ready(cfg, r, envs)
    case FromReview(_) => r.node.ReviewNode?
    case FromOperator(fingerprint, _, _) => r.node.End? && Resume(r.s, fingerprint, true, ApprovalRejected).Some?
  }

  predicate Ready(cfg: Config, r: Run, envs: seq<ToolEnv>) {
    r.node.Execute? && r.s.callIndex < |r.s.calls| && |envs| == Width(cfg, r.s)
  }

  function ToolUpdate(cfg: Config, s: State, envs: seq<ToolEnv>): (Update, seq<Event>)
    requires s.callIndex < |s.calls| && |envs| == Width(cfg, s)
  {
    if |envs| > 1 then BatchResult(cfg, s, envs) else ExecuteTool(cfg, s, s.callIndex, None, envs[0])
  }

  /** A long goal run is sent to review after every twenty counted calls. */
  function Checkpointed(cfg: Config, s: State): State {
    if cfg.goalLoop && s.status.Running? && !s.goalReview && s.callIndex >= |s.calls|
       && s.callCount - s.goalReviewed >= 20
    then s.(goalReview := true, answered := false, calls := [], callIndex := 0) else s
  }

  function AsLost(events: seq<Event>): (lost: seq<Event>)
    ensures |lost| == |events|
    ensures forall i | 0 <= i < |events| :: lost[i] == events[i].(kind := Lost)
  {
    seq(|events|, i requires 0 <= i < |events| => events[i].(kind := Lost))
  }

  function CallIds(proposals: seq<Proposal>): set<nat> {
    set p | p in proposals :: p.callId
  }

  function Next(cfg: Config, r: Run, input: Input): Run
    requires Accepts(cfg, r, input)
  {
    match input
    case FromModel(reply) =>
      var s := CallModel(cfg, r.s, reply);
      Run(RouteModel(s), s, r.history + [[]], r.issued + CallIds(Proposals(reply)))
    case FromTools(envs) =>
      var (u, events) := ToolUpdate(cfg, r.s, envs);
      var s := Checkpointed(cfg, Apply(r.s, u));
      Run(RouteTool(s), s, r.history + [events], r.issued)
    case Interrupted(envs) =>
      r.(history := r.history + [AsLost(ToolUpdate(cfg, r.s, envs).1)])
    case FromReview(review) =>
      var s := ReviewGoal(cfg, r.s, review);
      Run(RouteReview(s), s, r.history + [[]], r.issued)
    case FromOperator(fingerprint, approved, code) =>
      var s := Resume(r.s, fingerprint, approved, code).value;
      Run(RouteTool(s), s, r.history + [[]], r.issued)
  }

  ghost predicate ValidRun(cfg: Config, inputs: seq<Input>)
    decreases |inputs|, 0
  {
    inputs == [] || (ValidRun(cfg, inputs[..|inputs| - 1])
                     && Accepts(cfg, After(cfg, inputs[..|inputs| - 1]), inputs[|inputs| - 1]))
  }

  /** The run after a sequence of inputs. */
  ghost function After(cfg: Config, inputs: seq<Input>): Run
    requires ValidRun(cfg, inputs)
    decreases |inputs|, 1
  {
    if inputs == [] then Start()
    else Next(cfg, After(cfg, inputs[..|inputs| - 1]), inputs[|inputs| - 1])
  }

  lemma ExtendRun(cfg: Config, inputs: seq<Input>, input: Input)
    requires ValidRun(cfg, inputs) && Accepts(cfg, After(cfg, inputs), input)
    ensures ValidRun(cfg, inputs + [input]) && After(cfg, inputs + [input]) == Next(cfg, After(cfg, inputs), input)
  {
    hide Next, Accepts;
    assert (inputs + [input])[..|inputs|] == inputs;
  }

  function Flatten(history: seq<seq<Event>>): seq<Event> {
    if history == [] then [] else Flatten(history[..|history| - 1]) + history[|history| - 1]
  }

  lemma FlattenStep(history: seq<seq<Event>>, events: seq<Event>)
    ensures Flatten(history + [events]) == Flatten(history) + events
  {
    assert (history + [events])[..|history|] == history;
  }
}
