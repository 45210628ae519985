/** What every handled call does to the result log, the counters and the queue of calls. */
module AgentFacts {
  import opened Wrappers
  import opened AgentState
  import opened AgentTool

  /** The record an update appends to the log. */
  function NewRecord(u: Update): Option<Record> {
    if u.results.Some? && u.results.value != [] then Some(u.results.value[|u.results.value| - 1]) else None
  }

  /** The record that settles a call, by the kind of its handling. */
  predicate RecordRule(call: Call, record: Record, kind: Kind) {
    && record.callId == call.callId
    && (record.status.Succeeded? <==> kind.Returned?)
    && (record.status.AwaitingApproval? <==> kind.AskedApproval?)
    && (kind.Denied? ==> record.phase.ApprovalDenied? && record.digest == Some(call.op))
    && (kind.Diagnosed? ==> record.phase.FailureDiagnosis? && record.digest == Some(call.op))
    && (kind.Unresolved? ==> record.phase.OutcomeUnknown? && record.digest == Some(call.op))
  }

  /** The log grows by exactly one record, the call is counted once, and the queue either advances, is
      dropped, or waits at the same call. */
  predicate Shape(cfg: Config, s: State, index: nat, u: Update, kind: Kind)
    requires index < |s.calls|
  {
    var call := s.calls[index];
    && NewRecord(u).Some?
    && u.results.value == DropPause(s.results, call.callId) + [NewRecord(u).value]
    && RecordRule(call, NewRecord(u).value, kind)
    && u.counted == Some(CountedAfter(s, call)) && u.callCount == Some(CallCountAfter(s, call))
    && (u.status.Running? ==>
          (u.calls.None? && u.callIndex == Some(index + 1)) || (u.calls == Some([]) && u.callIndex == Some(0)))
    && (u.calls.None? || u.calls == Some([]) || u.calls == Some(s.calls))
    && (u.status.Paused? <==> kind.AskedApproval?)
    && (u.status.Paused? ==> u.calls == Some(s.calls) && u.callIndex.None? && u.goalReview.None?)
    && !u.status.Done?
    && u.confirm == (if kind.Returned? && cfg.autoApproval && cfg.ChangesTarget(call.op) && !s.confirm then Some(true) else None)
    && !kind.Lost?
  }

  predicate Pausable(cfg: Config, call: Call, fingerprint: Option<nat>, record: Record) {
    && record.callId == call.callId && record.digest == Some(call.op) && !record.status.Succeeded?
    && (record.status.AwaitingApproval? ==> fingerprint.Some?)
  }

  lemma FailureShape(cfg: Config, s: State, index: nat, remaining: int, env: ToolEnv, code: Code, schemaValid: bool,
                     fingerprint: Option<nat>, commandSize: Option<nat>, record: Record)
    requires index < |s.calls| && Pausable(cfg, s.calls[index], fingerprint, record)
    requires record.status.AwaitingApproval? ==> code.ApprovalRequired?
    ensures var (u, kind) := HandleFailure(cfg, s, index, remaining, env, code, schemaValid, fingerprint, commandSize, record);
            Shape(cfg, s, index, u, kind)
  {
  }

  lemma SchemaShape(cfg: Config, s: State, index: nat, remaining: int, env: ToolEnv, code: Code, schemaValid: bool,
                    fingerprint: Option<nat>, commandSize: Option<nat>, record: Record)
    requires index < |s.calls| && Pausable(cfg, s.calls[index], fingerprint, record)
    requires record.status.AwaitingApproval? ==> code.ApprovalRequired?
    ensures var (u, kind) := HandleSchema(cfg, s, index, remaining, env, code, schemaValid, fingerprint, commandSize, record);
            Shape(cfg, s, index, u, kind)
  {
    hide HandleFailure;
    var repairable := !schemaValid && code.InvalidArguments? && s.calls[index].op.tool in cfg.registry && |s.calls| == 1
                      && (TrailingRepairs(s.results) < 2 || cfg.goalLoop);
    FailureShape(cfg, s, index, remaining, env, code, schemaValid, fingerprint, commandSize,
                 if repairable then record.(phase := InputValidation) else record);
  }

  lemma RepetitionShape(cfg: Config, s: State, index: nat, remaining: int, env: ToolEnv, code: Code, schemaValid: bool,
                        fingerprint: Option<nat>, commandSize: Option<nat>, record: Record)
    requires index < |s.calls| && Pausable(cfg, s.calls[index], fingerprint, record)
    requires record.status.AwaitingApproval? ==> code.ApprovalRequired?
    ensures var (u, kind) := HandleRepetition(cfg, s, index, remaining, env, code, schemaValid, fingerprint, commandSize, record);
            Shape(cfg, s, index, u, kind)
  {
    hide HandleSchema;
    SchemaShape(cfg, s, index, remaining, env, code, schemaValid, fingerprint, commandSize,
                if code.ToolRepetition? then record.(phase := RepetitionGuard) else record);
  }

  lemma TimeoutShape(cfg: Config, s: State, index: nat, remaining: int, env: ToolEnv, code: Code, schemaValid: bool,
                     fingerprint: Option<nat>, commandSize: Option<nat>, record: Record)
    requires index < |s.calls| && Pausable(cfg, s.calls[index], fingerprint, record)
    requires record.status.AwaitingApproval? ==> code.ApprovalRequired?
    ensures var (u, kind) := HandleTimeout(cfg, s, index, remaining, env, code, schemaValid, fingerprint, commandSize, record);
            Shape(cfg, s, index, u, kind)
  {
    hide HandleRepetition;
    var unresolved := cfg.goalLoop && schemaValid && !record.status.AwaitingApproval? && TimedOut(code)
                      && (|s.calls| == 1 || forall c | c in s.calls :: cfg.IsRead(c.op));
    RepetitionShape(cfg, s, index, remaining, env, code, schemaValid, fingerprint, commandSize,
                    if unresolved then record.(phase := OutcomeUnknown) else record);
  }

  lemma ErrorShape(cfg: Config, s: State, index: nat, remaining: int, env: ToolEnv, code: Code, schemaValid: bool,
                   fingerprint: Option<nat>, commandSize: Option<nat>)
    requires index < |s.calls|
    ensures var (u, kind) := HandleError(cfg, s, index, remaining, env, code, schemaValid, fingerprint, commandSize);
            Shape(cfg, s, index, u, kind)
  {
    hide HandleTimeout, Count;
    TimeoutShape(cfg, s, index, remaining, env, code, schemaValid, fingerprint, commandSize,
                 FailureRecord(cfg, s.calls[index], code, fingerprint));
  }

  lemma HandleShape(cfg: Config, s: State, index: nat, remaining: int, env: ToolEnv)
    requires index < |s.calls|
    ensures var (u, kind) := Handle(cfg, s, index, remaining, env); Shape(cfg, s, index, u, kind)
  {
    hide HandleError, Repeated;
    var call := s.calls[index];
    if call.callId !in s.rejected {
      match Admit(cfg, s, call, env)
      case Refused(code, schemaValid) => ErrorShape(cfg, s, index, remaining, env, code, schemaValid, None, None);
      case Dispatched(Value(_, _)) =>
      case Dispatched(Crashed) =>
      case Dispatched(Raised(code, fingerprint, commandSize)) =>
        ErrorShape(cfg, s, index, remaining, env, code, true, fingerprint, commandSize);
    }
  }

  lemma {:induction false} DropPauseKeeps(results: seq<Record>, callId: nat, r: Record)
    ensures r in DropPause(results, callId) <==> r in results && !(r.callId == callId && r.status.AwaitingApproval?)
  {
    if results != [] {
      DropPauseKeeps(results[1..], callId, r);
      assert results == [results[0]] + results[1..];
    }
  }
}
