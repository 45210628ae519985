/** The entities of one agent run: tool registry, calls, result records, run state
    and the partial updates that its graph nodes return. */
module AgentState {
  import opened Wrappers

  datatype Risk = Read | Write | Destructive

  /** One registered tool. */
  datatype Spec = Spec(risk: Risk, requiresApproval: bool, parallelSafe: bool, isServerExec: bool) {
    predicate Effectful() { !risk.Read? }

    /** What registration enforces: changes need approval, only approval-free reads may overlap.
        The host registers the shell tool as a change. */
    predicate Valid() {
      && (Effectful() ==> requiresApproval)
      && (parallelSafe ==> risk.Read? && !requiresApproval)
      && (isServerExec ==> Effectful())
    }
  }

  /** What the request digest covers: the tool and every argument except the stated purpose. */
  datatype Operation = Operation(tool: nat, arguments: nat)

  /** A tool call the model proposed in model round `round`. */
  datatype Call = Call(callId: nat, op: Operation, purpose: nat, round: nat)

  function RequestDigest(call: Call): Operation { call.op }

  datatype Code =
    | UnknownTool | InvalidArguments | ToolRepetition | ReadOnlyVerification
    | ApprovalRequired | ApprovalRejected | ApprovalTimeout
    | Timeout | ExecutionTimeout | ExecutionFailed
    | Cancelled | ToolNotAllowed | TargetNotAllowed | TargetRequired
    | RiskNotAllowed | AuthorizationFailed | PermissionDenied
    | ToolFailed | OtherTool(detail: nat)
    | OutputBudgetExceeded | SettlementFailed
    | RoundLimitExceeded | InvalidModelInput | InputBudgetExceeded | ModelUnavailable(reason: nat)
    | ModelOutputTruncated | ModelResponseBlocked | InvalidModelToolCall | CallLimitExceeded
    | ConfirmationTurnRequired | EmptyModelResponse
    | GoalReviewFailed | GoalBlocked | GoalNoProgress

  predicate TimedOut(code: Code) { code.Timeout? || code.ExecutionTimeout? }

  /** Codes that answer a question of authority, or that another repair path owns:
      never returned to the model as a failure to diagnose. */
  predicate NotDiagnosable(code: Code) {
    code in {ApprovalRejected, ApprovalTimeout, Cancelled, ToolNotAllowed, TargetNotAllowed, TargetRequired,
             RiskNotAllowed, AuthorizationFailed, PermissionDenied, InvalidArguments, ToolRepetition}
  }

  datatype RecordStatus = Succeeded | Failed | AwaitingApproval
  datatype Phase = NoPhase | InputValidation | RepetitionGuard | FailureDiagnosis | OutcomeUnknown | ApprovalDenied

  /** One entry of the run's result log. */
  datatype Record = Record(callId: nat, tool: nat, status: RecordStatus, code: Option<Code>, phase: Phase,
                           digest: Option<Operation>, resultDigest: Option<nat>)

  datatype Status = Running | Paused | Done | Stopped

  /** The fields of the run state that decide what happens next. `rejected` holds the rejected call
      ids together with the verdict recorded for each. */
  datatype State = State(
    calls: seq<Call>, callIndex: nat, results: seq<Record>,
    counted: seq<nat>, callCount: nat, outputBytes: int,
    recoveryRead: bool, recoveryDiagnosis: bool,
    status: Status, error: Option<Code>,
    rejected: map<nat, Code>, approvals: seq<nat>,
    answered: bool, modelRounds: nat,
    goalReview: bool, goalReviewed: nat, goalStalls: nat,
    confirm: bool, refusals: nat)

  datatype Config = Config(
    registry: map<nat, Spec>,
    readOnlyCommands: set<nat>,
    goalLoop: bool, autoApproval: bool,
    maxCalls: Option<nat>, maxRounds: Option<nat>,
    maxOutput: nat, maxParallel: nat)
  {
    predicate Valid() {
      forall t | t in registry :: registry[t].Valid()
    }

    predicate Effectful(op: Operation) {
      op.tool in registry && registry[op.tool].Effectful()
    }

    predicate IsRead(op: Operation) {
      op.tool in registry && registry[op.tool].risk.Read?
    }

    predicate IsParallelSafe(op: Operation) {
      op.tool in registry && registry[op.tool].parallelSafe
    }

    /** Whether an executed or proposed operation changes the target: a shell command made of
        pure readers does not, every other operation keeps its declared risk. */
    predicate ChangesTarget(op: Operation) {
      op.tool in registry ==>
        && registry[op.tool].Effectful()
        && !(registry[op.tool].isServerExec && op.arguments in readOnlyCommands)
    }
  }

  /** The partial state a node returns; an absent field keeps its old value. */
  datatype Update = Update(
    status: Status, error: Option<Code>,
    results: Option<seq<Record>>, counted: Option<seq<nat>>, callCount: Option<nat>, outputBytes: Option<int>,
    calls: Option<seq<Call>>, callIndex: Option<nat>,
    recoveryRead: Option<bool>, recoveryDiagnosis: Option<bool>,
    approvals: Option<seq<nat>>, goalReview: Option<bool>, answered: Option<bool>, confirm: Option<bool>)

  function Bare(status: Status, error: Option<Code>): Update {
    Update(status, error, None, None, None, None, None, None, None, None, None, None, None, None)
  }

  function Apply(s: State, u: Update): State {
    s.(status := u.status, error := u.error,
       results := u.results.GetOr(s.results), counted := u.counted.GetOr(s.counted),
       callCount := u.callCount.GetOr(s.callCount), outputBytes := u.outputBytes.GetOr(s.outputBytes),
       calls := u.calls.GetOr(s.calls), callIndex := u.callIndex.GetOr(s.callIndex),
       recoveryRead := u.recoveryRead.GetOr(s.recoveryRead),
       recoveryDiagnosis := u.recoveryDiagnosis.GetOr(s.recoveryDiagnosis),
       approvals := u.approvals.GetOr(s.approvals), goalReview := u.goalReview.GetOr(s.goalReview),
       answered := u.answered.GetOr(s.answered), confirm := u.confirm.GetOr(s.confirm))
  }

  /** What one handled call left in the run's history. `dispatched` means that the registry was
      asked to execute it. */
  datatype Kind =
    | Returned          // the handler ran and succeeded
    | Diagnosed         // failure handed back to the model for diagnosis
    | Unresolved        // timeout handed back as an unknown outcome
    | CommandFailed     // a completed command with a non-zero exit status
    | Denied            // the recorded approval verdict was negative
    | AskedApproval     // paused for a decision
    | Repaired          // refused before execution, with one repair opportunity
    | Ended             // the run stops here
    | Lost              // dispatched, but the process stopped before the node was saved
  datatype Event = Event(callId: nat, op: Operation, round: nat, dispatched: bool, kind: Kind)
}
