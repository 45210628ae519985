/** Model rounds, goal reviews, approval verdicts and the routes between the graph nodes. */
module AgentModel {
  import opened Wrappers
  import opened AgentState
  import opened AgentTool

  /** A call as the model proposed it, with the fresh id the run gives it. */
  datatype Proposal = Proposal(op: Operation, purpose: nat, callId: nat, malformed: bool)

  /** What one model request returns. `answerSize` is zero for a blank answer. */
  datatype Reply =
    | Unusable(code: Code)
    | InvalidCalls
    | Message(proposals: seq<Proposal>, answerSize: nat)

  function Effectless(cfg: Config, proposals: seq<Proposal>): seq<Proposal> {
    if proposals == [] then []
    else if cfg.ChangesTarget(proposals[0].op) then Effectless(cfg, proposals[1..])
    else [proposals[0]] + Effectless(cfg, proposals[1..])
  }

  function CleanCalls(proposals: seq<Proposal>, round: nat): (calls: seq<Call>)
    ensures |calls| == |proposals|
    ensures forall i | 0 <= i < |calls| ::
      calls[i] == Call(proposals[i].callId, proposals[i].op, proposals[i].purpose, round)
  {
    seq(|proposals|, i requires 0 <= i < |proposals| =>
      Call(proposals[i].callId, proposals[i].op, proposals[i].purpose, round))
  }

  predicate CallLimitAllows(cfg: Config, s: State, proposals: seq<Proposal>) {
    cfg.maxCalls.None? || s.callCount + |proposals| <= cfg.maxCalls.value
  }

  /** Every run-ending exit of a model round also ends the confirmation turn. */
  function EndModel(s: State, code: Code): State {
    s.(status := Stopped, error := Some(code), confirm := false)
  }

  function AskAgain(s: State): State {
    s.(modelRounds := s.modelRounds + 1, calls := [], callIndex := 0, answered := false, status := Running, error := None)
  }

  function Finish(cfg: Config, s: State, answerSize: nat): State {
    if answerSize == 0 then EndModel(s, EmptyModelResponse)
    else if s.outputBytes + answerSize > cfg.maxOutput then EndModel(s, OutputBudgetExceeded)
    else
      var last := if s.results == [] then NoPhase else s.results[|s.results| - 1].phase;
      var unrepaired := last in {InputValidation, RepetitionGuard} && !cfg.goalLoop;
      var answered := s.(modelRounds := s.modelRounds + 1, answered := true,
                         outputBytes := s.outputBytes + answerSize, calls := [],
                         goalReview := cfg.goalLoop && !unrepaired);
      if unrepaired then
        answered.(status := Stopped, confirm := false,
                  error := Some(if last.RepetitionGuard? then ToolRepetition else InvalidArguments))
      else if cfg.goalLoop then answered.(status := Running, error := None)
      else answered.(status := Done, error := None, confirm := false)
  }

  function Admitted(s: State, proposals: seq<Proposal>): State {
    if exists p | p in proposals :: p.malformed then EndModel(s, InvalidModelToolCall)
    else s.(calls := CleanCalls(proposals, s.modelRounds + 1), callIndex := 0,
            modelRounds := s.modelRounds + 1, status := Running, error := None)
  }

  function NoCalls(cfg: Config, s: State, answerSize: nat): State {
    if s.recoveryDiagnosis then AskAgain(s) else Finish(cfg, s, answerSize)
  }

  function CallModel(cfg: Config, s: State, reply: Reply): State {
    if cfg.maxRounds.Some? && s.modelRounds + 1 > cfg.maxRounds.value then EndModel(s, RoundLimitExceeded)
    else
      match reply
      case Unusable(code) => EndModel(s, code)
      case InvalidCalls => EndModel(s, InvalidModelToolCall)
      case Message(proposals, answerSize) =>
        if !CallLimitAllows(cfg, s, proposals) then EndModel(s, CallLimitExceeded)
        else if s.confirm && exists p | p in proposals :: cfg.ChangesTarget(p.op) then
          var kept := Effectless(cfg, proposals);
          if s.refusals + 1 > 2 then EndModel(s, ConfirmationTurnRequired)
          else if kept == [] then AskAgain(s).(refusals := s.refusals + 1)
          else
            var next := Admitted(s, kept);
            if next.status.Running? then next.(refusals := s.refusals + 1) else next
        else if proposals == [] then NoCalls(cfg, s, answerSize)
        else Admitted(s, proposals)
  }

  /** The verdict of a completion review. */
  datatype Review = Failed(code: Code) | Invalid(size: nat) | Completed(size: nat) | Blocked(size: nat)
                  | Continue(size: nat, progressed: bool)

  function Reviewed(s: State, size: nat): State {
    s.(modelRounds := s.modelRounds + 1, outputBytes := s.outputBytes + size,
       goalReview := false, goalReviewed := s.callCount)
  }

  function ReviewGoal(cfg: Config, s: State, review: Review): State {
    if cfg.maxRounds.Some? && s.modelRounds + 1 > cfg.maxRounds.value then EndModel(s, RoundLimitExceeded)
    else if review.Failed? then EndModel(s, review.code)
    else
      var t := Reviewed(s, review.size);
      if t.outputBytes > cfg.maxOutput then EndModel(t, OutputBudgetExceeded)
      else
        match review
        case Failed(code) => EndModel(t, code)
        case Invalid(_) => EndModel(t, GoalReviewFailed)
        case Completed(_) =>
          if !s.answered then t.(calls := [], status := Running, error := None)
          else t.(status := Done, error := None, confirm := false)
        case Blocked(_) => EndModel(t, GoalBlocked)
        case Continue(_, progressed) =>
          var stalls := if progressed then 0 else s.goalStalls + 1;
          if stalls >= 2 then EndModel(t, GoalNoProgress)
          else t.(answered := false, calls := [], goalStalls := stalls, status := Running, error := None)
  }

  /** The approval verdict for the call the run is paused on; None when the request is refused. */
  function Resume(s: State, fingerprint: nat, approved: bool, code: Code): Option<State> {
    if !s.status.Paused? || fingerprint !in s.approvals || s.callIndex >= |s.calls| then None
    else
      var t := s.(approvals := Without(s.approvals, fingerprint), status := Running, error := None);
      Some(if approved then t else t.(rejected := s.rejected[s.calls[s.callIndex].callId := code]))
  }

  /** Whether a verdict is accepted does not depend on what it says. */
  lemma ResumeAgrees(s: State, fingerprint: nat, approved: bool, code: Code)
    ensures Resume(s, fingerprint, true, ApprovalRejected).Some? <==> Resume(s, fingerprint, approved, code).Some?
  {
  }

  datatype Node = Model | Execute | ReviewNode | End

  function RouteModel(s: State): Node {
    if s.status.Running? && s.goalReview then ReviewNode
    else if s.status.Running? && s.recoveryDiagnosis && s.calls == [] then Model
    else if s.status.Running? && s.confirm && s.calls == [] then Model
    else if !s.status.Running? || s.calls == [] then End
    else Execute
  }

  function RouteReview(s: State): Node {
    if s.status.Running? then Model else End
  }

  function RouteTool(s: State): Node {
    if !s.status.Running? then End
    else if s.goalReview then ReviewNode
    else if s.callIndex < |s.calls| then Execute
    else Model
  }
}
