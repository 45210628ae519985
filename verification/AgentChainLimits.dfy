/** Two changes of one response can always be chained, so one change for each response is the exact condition. */
module AgentChainLimits {
  import opened Wrappers
  import opened AgentState
  import opened AgentTool
  import opened AgentBatch
  import opened AgentModel
  import opened AgentRun
  import opened AgentFacts
  import opened AgentTidy
  import opened AgentConfirm
  import opened AgentChain

  /** No earlier verdict blocks the operation for good. */
  predicate Unsettled(results: seq<Record>, op: Operation) {
    && !HasPhase(results, ApprovalDenied, op)
    && !HasPhase(results, OutcomeUnknown, op)
    && !HasPhase(results, FailureDiagnosis, op)
  }

  /** The next call changes the target and is let through. */
  predicate NextCanChange(cfg: Config, s: State) {
    && s.callIndex < |s.calls|
    && var call := s.calls[s.callIndex];
       && Acts(cfg, call.op) && call.callId !in s.rejected && !Repeated(call, s.results)
       && !s.recoveryRead && !s.recoveryDiagnosis && s.outputBytes < cfg.maxOutput
  }

  /** Two changes stand next in the queue. */
  predicate TwoChangesNext(cfg: Config, s: State) {
    && NextCanChange(cfg, s) && s.callIndex + 1 < |s.calls| && s.outputBytes + 2 <= cfg.maxOutput
    && var second := s.calls[s.callIndex + 1];
       Acts(cfg, second.op) && second.callId !in s.rejected && Unsettled(s.results, second.op)
  }

  function Success(digest: nat): Input {
    FromTools([ToolEnv(true, Value(digest, 1), NoticeSizes(1, 1, 1, 1, 1, 1), false)])
  }

  function SuccessRecord(call: Call, digest: nat): Record {
    Record(call.callId, call.op.tool, Succeeded, None, NoPhase, Some(call.op), Some(digest))
  }

  function ChangeEvent(call: Call): Event {
    Event(call.callId, call.op, call.round, true, Returned)
  }

  lemma ChangesStandAlone(cfg: Config, s: State)
    requires cfg.Valid() && s.callIndex < |s.calls| && Acts(cfg, s.calls[s.callIndex].op)
    ensures Width(cfg, s) == 1
  {
    assert GroupSize(cfg, s) == 0;
  }

  /** A change that is let through, and succeeds. */
  lemma ChangeSucceeds(cfg: Config, s: State, digest: nat)
    requires cfg.Valid() && NextCanChange(cfg, s)
    ensures var call := s.calls[s.callIndex];
            var (u, events) := ExecuteTool(cfg, s, s.callIndex, None, Success(digest).envs[0]);
            var t := Apply(s, u);
            && events == [ChangeEvent(call)]
            && t.status.Running? && t.calls == s.calls && t.callIndex == s.callIndex + 1 && t.rejected == s.rejected
            && t.results == DropPause(s.results, call.callId) + [SuccessRecord(call, digest)]
            && t.outputBytes == s.outputBytes + 1 && t.goalReview == s.goalReview
            && t.recoveryRead == s.recoveryRead && t.recoveryDiagnosis == s.recoveryDiagnosis
  {
    hide DropPause, Repeated;
  }

  lemma ChangeStep(cfg: Config, r: Run, digest: nat)
    requires cfg.Valid() && r.node.Execute? && NextCanChange(cfg, r.s)
    ensures Accepts(cfg, r, Success(digest))
    ensures Next(cfg, r, Success(digest)).history == r.history + [[ChangeEvent(r.s.calls[r.s.callIndex])]]
  {
    hide ExecuteTool, NextCanChange, Acts;
    NextActs(cfg, r.s);
    ChangesStandAlone(cfg, r.s);
    ChangeSucceeds(cfg, r.s, digest);
  }

  lemma NextActs(cfg: Config, s: State)
    requires NextCanChange(cfg, s)
    ensures s.callIndex < |s.calls| && Acts(cfg, s.calls[s.callIndex].op)
  {
  }

  /** A result that differs from the last one of the log. */
  function OtherResult(results: seq<Record>): nat {
    if results != [] && results[|results| - 1].resultDigest == Some(0) then 1 else 0
  }

  /** A success with a new result blocks nothing that was not settled. */
  lemma SuccessBlocksNothing(call: Call, results: seq<Record>, done: Call)
    requires Unsettled(results, call.op)
    ensures var kept := DropPause(results, done.callId);
            !Repeated(call, kept + [SuccessRecord(done, OtherResult(kept))])
  {
    var kept := DropPause(results, done.callId);
    var log := kept + [SuccessRecord(done, OtherResult(kept))];
    forall phase, r | r in log && r.phase == phase && r.digest == Some(call.op) && phase != NoPhase
      ensures HasPhase(results, phase, call.op)
    {
      DropPauseKeeps(results, done.callId, r);
    }
    assert log[|log| - 1] == SuccessRecord(done, OtherResult(kept));
  }

  lemma SecondCanChange(cfg: Config, s: State, t: State)
    requires TwoChangesNext(cfg, s)
    requires var call := s.calls[s.callIndex];
             t.results == DropPause(s.results, call.callId) + [SuccessRecord(call, OtherResult(DropPause(s.results, call.callId)))]
    requires t.calls == s.calls && t.callIndex == s.callIndex + 1 && t.rejected == s.rejected
    requires t.outputBytes == s.outputBytes + 1 && t.recoveryRead == s.recoveryRead && t.recoveryDiagnosis == s.recoveryDiagnosis
    ensures NextCanChange(cfg, t)
  {
    hide Repeated, Unsettled, DropPause, Acts;
    SuccessBlocksNothing(s.calls[s.callIndex + 1], s.results, s.calls[s.callIndex]);
  }

  lemma FirstOfTwo(cfg: Config, r: Run)
    requires cfg.Valid() && r.node.Execute? && TwoChangesNext(cfg, r.s) && !r.s.goalReview
    ensures var digest := OtherResult(DropPause(r.s.results, r.s.calls[r.s.callIndex].callId));
            var next := Next(cfg, r, Success(digest));
            && Accepts(cfg, r, Success(digest))
            && next.node.Execute? && NextCanChange(cfg, next.s) && next.s.calls == r.s.calls && next.s.callIndex == r.s.callIndex + 1
            && next.history == r.history + [[ChangeEvent(r.s.calls[r.s.callIndex])]]
  {
    hide ExecuteTool, NextCanChange, Acts, DropPause, OtherResult;
    var s := r.s;
    NextActs(cfg, s);
    var digest := OtherResult(DropPause(s.results, s.calls[s.callIndex].callId));
    ChangesStandAlone(cfg, s);
    ChangeSucceeds(cfg, s, digest);
    ChangeStep(cfg, r, digest);
    SecondCanChange(cfg, s, Next(cfg, r, Success(digest)).s);
  }

  lemma EventsChain(cfg: Config, log: seq<Event>, first: Call, second: Call)
    requires Acts(cfg, first.op) && Acts(cfg, second.op)
    ensures !NoChain(cfg, log + [ChangeEvent(first)] + [ChangeEvent(second)])
  {
    var all := log + [ChangeEvent(first)] + [ChangeEvent(second)];
    assert Changed(cfg, all[|log|]) && TriesChange(cfg, all[|log| + 1]);
  }

  /** Main converse: wherever two unblocked changes stand next in the queue of a reachable run, with both recovery flags
      down and room for two results, two successful tool steps chain them. */
  lemma TwoChangesNextCanChain(cfg: Config, inputs: seq<Input>)
    requires cfg.Valid() && ValidRun(cfg, inputs)
    requires After(cfg, inputs).node.Execute? && TwoChangesNext(cfg, After(cfg, inputs).s)
    ensures exists first, second :: ChainsBy(cfg, inputs, [Success(first), Success(second)])
  {
    hide Next, Accepts, TwoChangesNext, NextCanChange, Acts, DropPause, OtherResult, NoChain, Flatten;
    var r := After(cfg, inputs);
    TidyAlways(cfg, inputs);
    ReviewAlwaysRouted(cfg, inputs);
    ExecuteHasCall(r);
    FirstOfTwo(cfg, r);
    var first := OtherResult(DropPause(r.s.results, r.s.calls[r.s.callIndex].callId));
    ExtendRun(cfg, inputs, Success(first));
    var middle := Next(cfg, r, Success(first));
    NextActs(cfg, middle.s);
    ChangeStep(cfg, middle, 0);
    ExtendRun(cfg, inputs + [Success(first)], Success(0));
    assert inputs + [Success(first)] + [Success(0)] == inputs + [Success(first), Success(0)];
    var one, two := r.s.calls[r.s.callIndex], r.s.calls[r.s.callIndex + 1];
    FlattenStep(r.history, [ChangeEvent(one)]);
    FlattenStep(middle.history, [ChangeEvent(two)]);
    TwoAct(cfg, r.s);
    EventsChain(cfg, Flatten(r.history), one, two);
    assert ChainsBy(cfg, inputs, [Success(first), Success(0)]);
  }

  /** These further steps are possible, and after them two changes are chained. */
  ghost predicate ChainsBy(cfg: Config, inputs: seq<Input>, more: seq<Input>) {
    ValidRun(cfg, inputs + more) && !NoChain(cfg, Flatten(After(cfg, inputs + more).history))
  }

  lemma ExecuteHasCall(r: Run)
    requires Tidy(r) && ReviewRouted(r) && r.node.Execute?
    ensures r.s.callIndex < |r.s.calls| && !r.s.goalReview
  {
    hide TidyState;
  }

  lemma TwoAct(cfg: Config, s: State)
    requires TwoChangesNext(cfg, s)
    ensures s.callIndex + 1 < |s.calls| && Acts(cfg, s.calls[s.callIndex].op) && Acts(cfg, s.calls[s.callIndex + 1].op)
  {
  }

  // ----- the condition for one response -----

  /** The run takes the response, and nothing it knows stands in the way of its operations. */
  predicate Welcome(cfg: Config, s: State, proposals: seq<Proposal>) {
    && proposals != [] && (forall p | p in proposals :: !p.malformed)
    && !s.confirm && !s.recoveryRead && !s.recoveryDiagnosis && s.outputBytes + 2 <= cfg.maxOutput
    && (cfg.maxRounds.Some? ==> s.modelRounds < cfg.maxRounds.value) && CallLimitAllows(cfg, s, proposals)
    && forall p, record | p in proposals && record in s.results :: record.digest != Some(p.op)
  }

  /** Its changes, if any, come before its other calls. */
  predicate ChangesFirst(cfg: Config, proposals: seq<Proposal>) {
    forall i, j | 0 <= i < j < |proposals| && Acts(cfg, proposals[j].op) :: Acts(cfg, proposals[i].op)
  }

  lemma WelcomeIsAdmitted(cfg: Config, r: Run, reply: Reply)
    requires Tidy(r) && ReviewRouted(r) && reply.Message? && Accepts(cfg, r, FromModel(reply)) && Welcome(cfg, r.s, reply.proposals)
    ensures var next := Next(cfg, r, FromModel(reply));
            && next.node.Execute? && next.s.calls == CleanCalls(reply.proposals, r.s.modelRounds + 1) && next.s.callIndex == 0
            && next.s.results == r.s.results && next.s.rejected == r.s.rejected && next.s.outputBytes == r.s.outputBytes
            && next.s.recoveryRead == r.s.recoveryRead && next.s.recoveryDiagnosis == r.s.recoveryDiagnosis
  {
    hide TidyState, CleanCalls;
    assert CleanCalls(reply.proposals, r.s.modelRounds + 1) != [];
  }

  lemma NewIsUnblocked(call: Call, results: seq<Record>)
    requires forall record | record in results :: record.digest != Some(call.op)
    ensures !Repeated(call, results) && Unsettled(results, call.op)
  {
  }

  lemma TwoOfResponse(cfg: Config, r: Run, proposals: seq<Proposal>, next: State)
    requires Tidy(r) && FreshIds(r, proposals) && Welcome(cfg, r.s, proposals)
    requires |proposals| > 1 && Acts(cfg, proposals[0].op) && Acts(cfg, proposals[1].op)
    requires next.calls == CleanCalls(proposals, r.s.modelRounds + 1) && next.callIndex == 0
    requires next.results == r.s.results && next.rejected == r.s.rejected && next.outputBytes == r.s.outputBytes
    requires next.recoveryRead == r.s.recoveryRead && next.recoveryDiagnosis == r.s.recoveryDiagnosis
    ensures TwoChangesNext(cfg, next)
  {
    hide Acts, Repeated, Unsettled, OpenQueue;
    assert proposals[0] in proposals && proposals[1] in proposals;
    NewIsUnblocked(next.calls[0], r.s.results);
    NewIsUnblocked(next.calls[1], r.s.results);
  }

  /** Some further steps, with at most one change in each later response, chain two changes. */
  ghost predicate CanChain(cfg: Config, inputs: seq<Input>) {
    exists more :: OneChangeEach(cfg, more) && ChainsBy(cfg, inputs, more)
  }

  /** Main exactness result: of an auto-approved run whose responses so far held one change each, a welcome response with
      its changes first can lead to a chain exactly when it holds more than one. */
  lemma ResponseChainsExactly(cfg: Config, inputs: seq<Input>, reply: Reply)
    requires cfg.Valid() && cfg.autoApproval && ValidRun(cfg, inputs) && OneChangeEach(cfg, inputs) && reply.Message?
    requires Accepts(cfg, After(cfg, inputs), FromModel(reply)) && Welcome(cfg, After(cfg, inputs).s, reply.proposals)
    requires ChangesFirst(cfg, reply.proposals)
    ensures CanChain(cfg, inputs + [FromModel(reply)]) <==> !OneChange(cfg, reply.proposals)
  {
    hide Next, NoChain, Flatten, Acts, Welcome, TwoChangesNext, ChainsBy;
    var r, longer := After(cfg, inputs), inputs + [FromModel(reply)];
    ExtendRun(cfg, inputs, FromModel(reply));
    if !OneChange(cfg, reply.proposals) {
      TidyAlways(cfg, inputs);
      ReviewAlwaysRouted(cfg, inputs);
      WelcomeIsAdmitted(cfg, r, reply);
      FirstTwoAct(cfg, reply.proposals);
      TwoOfResponse(cfg, r, reply.proposals, After(cfg, longer).s);
      TwoChangesNextCanChain(cfg, longer);
      var first, second :| ChainsBy(cfg, longer, [Success(first), Success(second)]);
      assert OneChangeEach(cfg, [Success(first), Success(second)]);
    } else {
      forall more | OneChangeEach(cfg, more) ensures !ChainsBy(cfg, longer, more) {
        EachStaysUnchained(cfg, inputs, reply, more);
      }
    }
  }

  lemma FirstTwoAct(cfg: Config, proposals: seq<Proposal>)
    requires ChangesFirst(cfg, proposals) && !OneChange(cfg, proposals)
    ensures |proposals| > 1 && Acts(cfg, proposals[0].op) && Acts(cfg, proposals[1].op)
  {
    hide Acts;
    var i, j :| 0 <= i < j < |proposals| && Acts(cfg, proposals[i].op) && Acts(cfg, proposals[j].op);
  }

  lemma EachStaysUnchained(cfg: Config, inputs: seq<Input>, reply: Reply, more: seq<Input>)
    requires cfg.Valid() && cfg.autoApproval && OneChangeEach(cfg, inputs) && OneChangeEach(cfg, more)
    requires reply.Message? && OneChange(cfg, reply.proposals)
    ensures !ChainsBy(cfg, inputs + [FromModel(reply)], more)
  {
    hide OneChange, NoChain, After, Flatten;
    var all := inputs + [FromModel(reply)] + more;
    assert OneChangeEach(cfg, all);
    if ValidRun(cfg, all) { OneChangeEachNeverChains(cfg, all); }
  }
}
