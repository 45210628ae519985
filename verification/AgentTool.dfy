/** Handling of a single tool call: admission checks, dispatch to the registry and the
    branches that decide what a failure means for the run. */
module AgentTool {
  import opened Wrappers
  import opened AgentState

  /** What the registry did with a dispatched call. `Crashed` is an exception that is not a tool error. */
  datatype Outcome =
    | Value(resultDigest: nat, size: nat)
    | Raised(code: Code, fingerprint: Option<nat>, commandSize: Option<nat>)
    | Crashed

  /** Encoded sizes of the notices that may be returned instead of a result. */
  datatype NoticeSizes = NoticeSizes(unknown: nat, unresolved: nat, repetition: nat, schema: nat,
                                     diagnosis: nat, rejection: nat)

  /** The environment of one call. */
  datatype ToolEnv = ToolEnv(schemaValid: bool, outcome: Outcome, sizes: NoticeSizes, settlementFails: bool)

  datatype Verdict = Refused(code: Code, schemaValid: bool) | Dispatched(outcome: Outcome)

  predicate HasPhase(results: seq<Record>, phase: Phase, op: Operation) {
    exists r | r in results :: r.phase == phase && r.digest == Some(op)
  }

  /** The repetition guard: the operation was denied, is unresolved or was diagnosed before,
      was refused last, or returned the same evidence twice in a row. */
  predicate Repeated(call: Call, results: seq<Record>) {
    var op := RequestDigest(call);
    || HasPhase(results, ApprovalDenied, op)
    || HasPhase(results, OutcomeUnknown, op)
    || HasPhase(results, FailureDiagnosis, op)
    || (|results| > 0 && results[|results| - 1].phase == RepetitionGuard && results[|results| - 1].digest == Some(op))
    || (|results| >= 2
        && results[|results| - 1].status.Succeeded? && results[|results| - 1].digest == Some(op)
        && results[|results| - 2].status.Succeeded? && results[|results| - 2].digest == Some(op)
        && results[|results| - 1].resultDigest == results[|results| - 2].resultDigest)
  }

  function Admit(cfg: Config, s: State, call: Call, env: ToolEnv): Verdict {
    if call.op.tool !in cfg.registry then Refused(UnknownTool, false)
    else if !env.schemaValid then Refused(InvalidArguments, false)
    else if Repeated(call, s.results) then Refused(ToolRepetition, true)
    else if (s.recoveryRead || s.recoveryDiagnosis) && cfg.Effectful(call.op) then Refused(ReadOnlyVerification, true)
    else Dispatched(env.outcome)
  }

  /** The log without this call's own pause record. */
  function DropPause(results: seq<Record>, callId: nat): seq<Record> {
    if results == [] then []
    else if results[0].callId == callId && results[0].status.AwaitingApproval? then DropPause(results[1..], callId)
    else [results[0]] + DropPause(results[1..], callId)
  }

  function Count(results: seq<Record>, p: Record -> bool): nat {
    if results == [] then 0
    else Count(results[..|results| - 1], p) + (if p(results[|results| - 1]) then 1 else 0)
  }

  /** Consecutive schema repairs at the end of the log. */
  function TrailingRepairs(results: seq<Record>): nat {
    if results == [] || results[|results| - 1].phase != InputValidation then 0
    else 1 + TrailingRepairs(results[..|results| - 1])
  }

  function CountedAfter(s: State, call: Call): seq<nat> {
    if call.callId in s.counted then s.counted else s.counted + [call.callId]
  }

  function CallCountAfter(s: State, call: Call): nat {
    s.callCount + if call.callId in s.counted then 0 else 1
  }

  function Handled(s: State, call: Call, status: Status, error: Option<Code>, record: Record): Update {
    Bare(status, error).(results := Some(DropPause(s.results, call.callId) + [record]),
                         counted := Some(CountedAfter(s, call)), callCount := Some(CallCountAfter(s, call)))
  }

  function HandleRejection(cfg: Config, s: State, index: nat, env: ToolEnv): (Update, Kind)
    requires index < |s.calls| && s.calls[index].callId in s.rejected
  {
    var call := s.calls[index];
    var record := Record(call.callId, call.op.tool, Failed, Some(s.rejected[call.callId]), ApprovalDenied,
                         Some(RequestDigest(call)), None);
    if s.outputBytes + env.sizes.rejection > cfg.maxOutput then
      (Handled(s, call, Stopped, Some(OutputBudgetExceeded), record), Denied)
    else
      (Handled(s, call, Running, None, record).(
         outputBytes := Some(s.outputBytes + env.sizes.rejection), callIndex := Some(index + 1),
         recoveryRead := Some(false), recoveryDiagnosis := Some(false), answered := Some(false)),
       Denied)
  }

  function HandleSuccess(cfg: Config, s: State, index: nat, env: ToolEnv, resultDigest: nat, size: nat): (Update, Kind)
    requires index < |s.calls|
  {
    var call := s.calls[index];
    var record := Record(call.callId, call.op.tool, Succeeded, None, NoPhase,
                         Some(RequestDigest(call)), Some(resultDigest));
    var base := Handled(s, call, Running, None, record).(
      outputBytes := Some(s.outputBytes + size), callIndex := Some(index + 1));
    var settled := if env.settlementFails
      then base.(calls := Some([]), status := Stopped, error := Some(SettlementFailed)) else base;
    var confirming := if cfg.autoApproval && cfg.ChangesTarget(call.op) && !s.confirm
      then settled.(confirm := Some(true)) else settled;
    var read := if s.recoveryRead && cfg.IsRead(call.op) then confirming.(recoveryRead := Some(false)) else confirming;
    (if s.recoveryDiagnosis && cfg.IsRead(call.op) then read.(recoveryDiagnosis := Some(false)) else read, Returned)
  }

  function HandleCrash(s: State, index: nat): (Update, Kind)
    requires index < |s.calls|
  {
    var call := s.calls[index];
    (Handled(s, call, Stopped, Some(ToolFailed),
             Record(call.callId, call.op.tool, Failed, Some(ToolFailed), NoPhase, None, None)), Ended)
  }

  /** The log entry of a failed call; an approval request of a registered tool is a pause. */
  function FailureRecord(cfg: Config, call: Call, code: Code, fingerprint: Option<nat>): Record {
    var pending := code.ApprovalRequired? && fingerprint.Some? && call.op.tool in cfg.registry;
    Record(call.callId, call.op.tool, if pending then AwaitingApproval else Failed, Some(code), NoPhase,
           Some(RequestDigest(call)), None)
  }

  function HandleError(cfg: Config, s: State, index: nat, remaining: int, env: ToolEnv,
                       code: Code, schemaValid: bool, fingerprint: Option<nat>, commandSize: Option<nat>): (Update, Kind)
    requires index < |s.calls|
  {
    var call := s.calls[index];
    var record := FailureRecord(cfg, call, code, fingerprint);
    var forgotten := code.UnknownTool? && Count(s.results, (r: Record) => r.code == Some(UnknownTool)) == 0
                     && s.outputBytes + env.sizes.unknown <= cfg.maxOutput;
    if forgotten then
      (Handled(s, call, Running, None, record).(
         calls := Some([]), callIndex := Some(0), outputBytes := Some(s.outputBytes + env.sizes.unknown)), Repaired)
    else
      HandleTimeout(cfg, s, index, remaining, env, code, schemaValid, fingerprint, commandSize, record)
  }

  function HandleTimeout(cfg: Config, s: State, index: nat, remaining: int, env: ToolEnv, code: Code,
                         schemaValid: bool, fingerprint: Option<nat>, commandSize: Option<nat>, record: Record): (Update, Kind)
    requires index < |s.calls|
  {
    var call := s.calls[index];
    var unresolved := cfg.goalLoop && schemaValid && !record.status.AwaitingApproval? && TimedOut(code)
                      && (|s.calls| == 1 || forall c | c in s.calls :: cfg.IsRead(c.op));
    var marked := if unresolved then record.(phase := OutcomeUnknown) else record;
    if unresolved && env.sizes.unresolved <= remaining then
      (Handled(s, call, Running, None, marked).(
         callIndex := Some(index + 1), outputBytes := Some(s.outputBytes + env.sizes.unresolved),
         recoveryRead := Some(s.recoveryRead || cfg.Effectful(call.op))), Unresolved)
    else
      HandleRepetition(cfg, s, index, remaining, env, code, schemaValid, fingerprint, commandSize, marked)
  }

  function HandleRepetition(cfg: Config, s: State, index: nat, remaining: int, env: ToolEnv, code: Code,
                            schemaValid: bool, fingerprint: Option<nat>, commandSize: Option<nat>, record: Record): (Update, Kind)
    requires index < |s.calls|
  {
    var call := s.calls[index];
    var marked := if code.ToolRepetition? then record.(phase := RepetitionGuard) else record;
    var alone := cfg.goalLoop && |s.calls| == 1;
    if code.ToolRepetition?
       && (Count(s.results, (r: Record) => r.phase == RepetitionGuard) == 0 || alone)
       && env.sizes.repetition <= remaining then
      var u := Handled(s, call, Running, None, marked).(
        callIndex := Some(index + 1), outputBytes := Some(s.outputBytes + env.sizes.repetition));
      (if alone then u.(goalReview := Some(true), answered := Some(false), calls := Some([]), callIndex := Some(0))
       else u, Repaired)
    else
      HandleSchema(cfg, s, index, remaining, env, code, schemaValid, fingerprint, commandSize, marked)
  }

  function HandleSchema(cfg: Config, s: State, index: nat, remaining: int, env: ToolEnv, code: Code,
                        schemaValid: bool, fingerprint: Option<nat>, commandSize: Option<nat>, record: Record): (Update, Kind)
    requires index < |s.calls|
  {
    var call := s.calls[index];
    var repairs := TrailingRepairs(s.results);
    var repairable := !schemaValid && code.InvalidArguments? && call.op.tool in cfg.registry && |s.calls| == 1
                      && (repairs < 2 || cfg.goalLoop);
    var marked := if repairable then record.(phase := InputValidation) else record;
    if repairable && env.sizes.schema <= remaining then
      var u := Handled(s, call, Running, None, marked).(
        callIndex := Some(index + 1), outputBytes := Some(s.outputBytes + env.sizes.schema));
      (if cfg.goalLoop && repairs >= 2
       then u.(goalReview := Some(true), answered := Some(false), calls := Some([]), callIndex := Some(0))
       else u, Repaired)
    else
      HandleFailure(cfg, s, index, remaining, env, code, schemaValid, fingerprint, commandSize, marked)
  }

  function HandleFailure(cfg: Config, s: State, index: nat, remaining: int, env: ToolEnv, code: Code,
                         schemaValid: bool, fingerprint: Option<nat>, commandSize: Option<nat>, record: Record): (Update, Kind)
    requires index < |s.calls|
  {
    var call := s.calls[index];
    var known := call.op.tool in cfg.registry;
    var effectful := cfg.Effectful(call.op);
    var pending := record.status.AwaitingApproval?;
    var completed := known && cfg.registry[call.op.tool].isServerExec && code.ExecutionFailed?
                     && commandSize.Some? && commandSize.value <= remaining;
    if completed then
      (Handled(s, call, Running, None, record).(
         calls := Some([]), callIndex := Some(0), outputBytes := Some(s.outputBytes + commandSize.value),
         recoveryRead := Some(s.recoveryRead || effectful)), CommandFailed)
    else if schemaValid && known && !pending && !NotDiagnosable(code)
            && !(TimedOut(code) && effectful && |s.calls| > 1)
            && env.sizes.diagnosis <= remaining then
      (Handled(s, call, Running, None, record.(phase := FailureDiagnosis)).(
         callIndex := Some(index + 1), outputBytes := Some(s.outputBytes + env.sizes.diagnosis),
         recoveryRead := Some(s.recoveryRead || effectful || s.recoveryDiagnosis),
         recoveryDiagnosis := Some(!s.recoveryDiagnosis || effectful)), Diagnosed)
    else if pending && fingerprint.Some? then
      (Handled(s, call, Paused, Some(code), record).(
         calls := Some(s.calls), approvals := Some(Without(s.approvals, fingerprint.value) + [fingerprint.value])),
       AskedApproval)
    else
      (Handled(s, call, Stopped, Some(code), record), Ended)
  }

  function Without(xs: seq<nat>, x: nat): seq<nat> {
    if xs == [] then []
    else if xs[0] == x then Without(xs[1..], x)
    else [xs[0]] + Without(xs[1..], x)
  }

  /** One call, as `_execute_tool` handles it. `allowance` is the share a read batch grants it. */
  function ExecuteTool(cfg: Config, s: State, index: nat, allowance: Option<nat>, env: ToolEnv): (Update, seq<Event>)
    requires index < |s.calls|
  {
    var call := s.calls[index];
    var room := cfg.maxOutput - s.outputBytes;
    var remaining := if allowance.Some? && allowance.value < room then allowance.value else room;
    if remaining <= 0 then (Bare(Stopped, Some(OutputBudgetExceeded)), [])
    else
      var (u, kind) := Handle(cfg, s, index, remaining, env);
      (u, [Event(call.callId, call.op, call.round, IsDispatched(cfg, s, call, env), kind)])
  }

  predicate IsDispatched(cfg: Config, s: State, call: Call, env: ToolEnv) {
    call.callId !in s.rejected && Admit(cfg, s, call, env).Dispatched?
  }

  function Handle(cfg: Config, s: State, index: nat, remaining: int, env: ToolEnv): (Update, Kind)
    requires index < |s.calls|
  {
    var call := s.calls[index];
    if call.callId in s.rejected then HandleRejection(cfg, s, index, env)
    else
      match Admit(cfg, s, call, env)
      case Refused(code, schemaValid) =>
        HandleError(cfg, s, index, remaining, env, code, schemaValid, None, None)
      case Dispatched(Value(digest, size)) => HandleSuccess(cfg, s, index, env, digest, size)
      case Dispatched(Raised(code, fingerprint, commandSize)) =>
        HandleError(cfg, s, index, remaining, env, code, true, fingerprint, commandSize)
      case Dispatched(Crashed) => HandleCrash(s, index)
  }
}
