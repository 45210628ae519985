/** Overlapping execution of consecutive parallel-safe reads and the ordered merge of their updates. */
module AgentBatch {
  import opened Wrappers
  import opened AgentState
  import opened AgentTool

  /** How many calls from `callIndex` on may overlap. */
  function GroupSize(cfg: Config, s: State): (n: nat)
    ensures s.callIndex + n <= |s.calls| || n == 0
    ensures forall i | s.callIndex <= i < s.callIndex + n :: cfg.IsParallelSafe(s.calls[i].op)
  {
    Leading(cfg, s.calls, s.callIndex, cfg.maxParallel)
  }

  function Leading(cfg: Config, calls: seq<Call>, from: nat, limit: nat): (n: nat)
    ensures from + n <= |calls| || n == 0
    ensures forall i | from <= i < from + n :: cfg.IsParallelSafe(calls[i].op)
    decreases limit
  {
    if limit == 0 || from >= |calls| || !cfg.IsParallelSafe(calls[from].op) then 0
    else 1 + Leading(cfg, calls, from + 1, limit - 1)
  }

  /** The accumulators of the merge loop. */
  datatype Merge = Merge(results: seq<Record>, counted: seq<nat>, outputBytes: int,
                         recoveryRead: bool, recoveryDiagnosis: bool,
                         pending: seq<Call>, firstApproval: Option<nat>, failure: Option<Update>)

  function DropCall(results: seq<Record>, callId: nat): seq<Record> {
    if results == [] then []
    else if results[0].callId == callId then DropCall(results[1..], callId)
    else [results[0]] + DropCall(results[1..], callId)
  }

  function OnlyCall(results: seq<Record>, callId: nat): seq<Record> {
    if results == [] then []
    else if results[0].callId == callId then [results[0]] + OnlyCall(results[1..], callId)
    else OnlyCall(results[1..], callId)
  }

  predicate SucceededIn(results: seq<Record>, callId: nat) {
    exists r | r in results :: r.callId == callId && r.status.Succeeded?
  }

  function StartMerge(s: State): Merge {
    Merge(s.results, s.counted, s.outputBytes, s.recoveryRead, s.recoveryDiagnosis, [], None, None)
  }

  /** One turn of the merge loop: the update of the sibling at `index`. */
  function Absorb(cfg: Config, s: State, m: Merge, index: nat, u: Update): Merge
    requires index < |s.calls|
  {
    var call := s.calls[index];
    var reported := u.results.GetOr([]);
    var read := cfg.IsRead(call.op) && u.status.Running? && SucceededIn(reported, call.callId);
    var m1 := m.(
      results := DropCall(m.results, call.callId) + OnlyCall(reported, call.callId),
      counted := if call.callId in m.counted then m.counted else m.counted + [call.callId],
      outputBytes := m.outputBytes + u.outputBytes.GetOr(s.outputBytes) - s.outputBytes,
      recoveryRead := if read then false else u.recoveryRead.GetOr(m.recoveryRead),
      recoveryDiagnosis := if read then false else u.recoveryDiagnosis.GetOr(m.recoveryDiagnosis));
    if u.status.Paused? && u.calls.Some? && index < |u.calls.value| && u.approvals.Some? && |u.approvals.value| > 0 then
      m1.(pending := m1.pending + [u.calls.value[index]],
          firstApproval := if m1.firstApproval.None? then Some(u.approvals.value[|u.approvals.value| - 1]) else m1.firstApproval)
    else if !u.status.Running? && m1.failure.None? then m1.(failure := Some(u))
    else m1
  }

  function MergeUpTo(cfg: Config, s: State, updates: seq<Update>, n: nat): Merge
    requires n <= |updates| && s.callIndex + |updates| <= |s.calls|
  {
    if n == 0 then StartMerge(s)
    else Absorb(cfg, s, MergeUpTo(cfg, s, updates, n - 1), s.callIndex + n - 1, updates[n - 1])
  }

  function Conclude(s: State, size: nat, m: Merge): Update
    requires s.callIndex + size <= |s.calls|
  {
    var next := s.callIndex + size;
    var merged := Bare(Running, None).(
      results := Some(m.results), counted := Some(m.counted), callCount := Some(|m.counted|),
      outputBytes := Some(m.outputBytes), callIndex := Some(next),
      recoveryRead := Some(m.recoveryRead), recoveryDiagnosis := Some(m.recoveryDiagnosis));
    if m.failure.Some? then
      merged.(status := Stopped, error := if m.failure.value.error.Some? then m.failure.value.error else Some(ToolFailed))
    else if m.pending != [] && m.firstApproval.Some? then
      merged.(calls := Some(m.pending + s.calls[next..]), callIndex := Some(0),
              approvals := Some([m.firstApproval.value]), status := Paused, error := Some(ApprovalRequired))
    else merged
  }

  lemma {:induction false} Product(q: int, size: nat)
    requires size > 0
    ensures q <= 0 ==> q * size <= 0
    ensures q >= 0 ==> q * size >= q
  {
    if size > 1 { Product(q, size - 1); assert q * size == q * (size - 1) + q; }
  }

  lemma Quotient(room: int, size: nat)
    requires 0 < size <= room
    ensures 0 < room / size <= room
  {
    Product(room / size, size);
    assert room == (room / size) * size + room % size;
  }

  function Share(cfg: Config, s: State, size: nat): (share: nat)
    requires 0 < size && size <= cfg.maxOutput - s.outputBytes
    ensures 0 < share <= cfg.maxOutput - s.outputBytes
  {
    var room := cfg.maxOutput - s.outputBytes;
    Quotient(room, size);
    room / size
  }

  /** Every sibling is handled from the same state. */
  function SiblingUpdates(cfg: Config, s: State, share: nat, envs: seq<ToolEnv>): (r: (seq<Update>, seq<Event>))
    requires s.callIndex + |envs| <= |s.calls|
    ensures |r.0| == |envs|
  {
    if envs == [] then ([], [])
    else
      var n := |envs| - 1;
      var (before, log) := SiblingUpdates(cfg, s, share, envs[..n]);
      var (u, events) := ExecuteTool(cfg, s, s.callIndex + n, Some(share), envs[n]);
      (before + [u], log + events)
  }

  function BatchResult(cfg: Config, s: State, envs: seq<ToolEnv>): (Update, seq<Event>)
    requires 0 < |envs| <= cfg.maxOutput - s.outputBytes
    requires s.callIndex + |envs| <= |s.calls|
  {
    var (updates, log) := SiblingUpdates(cfg, s, Share(cfg, s, |envs|), envs);
    (Conclude(s, |envs|, MergeUpTo(cfg, s, updates, |updates|)), log)
  }

  /** Start every sibling from the same state. */
  method RunSiblings(cfg: Config, s: State, share: nat, envs: seq<ToolEnv>) returns (updates: seq<Update>, log: seq<Event>)
    requires s.callIndex + |envs| <= |s.calls|
    ensures (updates, log) == SiblingUpdates(cfg, s, share, envs)
  {
    hide ExecuteTool;
    updates, log := [], [];
    var k := 0;
    while k < |envs|
      invariant 0 <= k <= |envs|
      invariant (updates, log) == SiblingUpdates(cfg, s, share, envs[..k])
    {
      assert envs[..k + 1][..k] == envs[..k];
      var (u, events) := ExecuteTool(cfg, s, s.callIndex + k, Some(share), envs[k]);
      updates, log := updates + [u], log + events;
      k := k + 1;
    }
    assert envs[..|envs|] == envs;
  }

  /** Fold the sibling updates in call order. */
  method MergeUpdates(cfg: Config, s: State, updates: seq<Update>) returns (m: Merge)
    requires s.callIndex + |updates| <= |s.calls|
    ensures m == MergeUpTo(cfg, s, updates, |updates|)
  {
    hide Absorb;
    m := StartMerge(s);
    for n := 0 to |updates|
      invariant m == MergeUpTo(cfg, s, updates, n)
    {
      m := MergeOne(cfg, s, m, s.callIndex + n, updates[n]);
    }
  }

  method MergeOne(cfg: Config, s: State, m: Merge, index: nat, u: Update) returns (next: Merge)
    requires index < |s.calls|
    ensures next == Absorb(cfg, s, m, index, u)
  {
    var call := s.calls[index];
    var reported := u.results.GetOr([]);
    var counted := m.counted;
    if call.callId !in counted { counted := counted + [call.callId]; }
    var recoveryRead, recoveryDiagnosis := false, false;
    if !(cfg.IsRead(call.op) && u.status.Running? && SucceededIn(reported, call.callId)) {
      recoveryRead := u.recoveryRead.GetOr(m.recoveryRead);
      recoveryDiagnosis := u.recoveryDiagnosis.GetOr(m.recoveryDiagnosis);
    }
    next := m.(results := DropCall(m.results, call.callId) + OnlyCall(reported, call.callId), counted := counted,
               outputBytes := m.outputBytes + u.outputBytes.GetOr(s.outputBytes) - s.outputBytes,
               recoveryRead := recoveryRead, recoveryDiagnosis := recoveryDiagnosis);
    if u.status.Paused? && u.calls.Some? && index < |u.calls.value| && u.approvals.Some? && |u.approvals.value| > 0 {
      next := next.(pending := m.pending + [u.calls.value[index]]);
      if m.firstApproval.None? { next := next.(firstApproval := Some(u.approvals.value[|u.approvals.value| - 1])); }
    } else if !u.status.Running? && m.failure.None? {
      next := next.(failure := Some(u));
    }
  }

  /** The batch node: start every sibling, then merge the updates in order. */
  method ExecuteReadBatch(cfg: Config, s: State, envs: seq<ToolEnv>) returns (update: Update, log: seq<Event>)
    requires 0 < |envs| <= cfg.maxOutput - s.outputBytes
    requires s.callIndex + |envs| <= |s.calls|
    ensures (update, log) == BatchResult(cfg, s, envs)
  {
    hide MergeUpTo, SiblingUpdates, Conclude;
    var updates;
    updates, log := RunSiblings(cfg, s, (cfg.maxOutput - s.outputBytes) / |envs|, envs);
    var m := MergeUpdates(cfg, s, updates);
    update := Conclude(s, |envs|, m);
  }
}
