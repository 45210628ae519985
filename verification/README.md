# Verified model of the operations console's core protocols

This project models, in Dafny 4.11, the parts of the repository whose correctness does not show in any single
function: the agent's run state machine, the subagent scheduler and its admission table, the SSH service's guarded
file replacement, resolver and codecs, the conversation projection, the bounded result counter and the backup
retention planner. Every statement below is for all inputs, all runs or all interleavings.

## How it is organised

- **Agent run** (`Agent*.dfy`). A run is a sequence of inputs from the model, the tools, the completion review and
  the operator. `AgentTool` is one tool call, `AgentBatch` overlapping reads and their merge, `AgentModel` the model
  round, the goal review and the routes, `AgentRun` the steps and the history of handled calls. The tool registry is
  an environment: an outcome for every dispatched call. Registration's own checks
  (`agent/src/yukinal_agent/tools.py:66` and `:78`) are `Config.Valid`; `AgentRecovery.Honest` adds the one thing the
  recovery results need and nothing enforces: no read asks for an approval. A handler may report
  `unknown_tool` itself (`agent/src/yukinal_agent/ssh_tools.py:537`); the run then takes its call for a refused one, and
  `AgentRecovery.UnsuccessfulChangeIsHazard` names that as the only unsuccessful change that opens no failure.
  A process that stops inside the tool step is the input `Interrupted`: the calls ran, the update is lost, and the
  step runs again.
- **Subagents** (`TargetGate`, `Scheduler*`, `Admission*`). The gate is a class whose methods are the code between two
  suspension points; the scheduler interleaves them as steps with cancellation; admission is a class over the job
  table, the active table and the database, and its runs include restarts.
- **Guarded replacement** (`RemoteFiles`, `GuardedReplace*`). The remote file system belongs to everybody: before each
  request the other clients may do anything but touch this session's own staging file. A reply may be an error although
  the request was applied. The operation is written as the service writes it; its history is the subject of the theorems.
- **Resolver**. Callers, detached workers, the compare-and-exchange loop and the shared state, as a step relation.
- **Codecs** (`Glob`, `Utf8`, `BigEndian`, `Krl*`, `TextSplit`, `IpAddress`, `Ipv6Address`, `IpPrefix`, `Base64`,
  `Shell`). Each scanner is a loop proved against a specification that says what the text means.
- **Projection** (`Transcript`, `Projection`), **result counter** (`Json*`), **retention** (`Retention`).

## What does not hold

- The read batch claims to fold its siblings so that the recovery rules match the sequential path
  (`agent/src/yukinal_agent/model_agent.py:665-669`). They do not: all siblings start from the same flags, so a timed-out
  sibling restores a flag that a diagnosed one has just raised. `AgentRecovery.BatchKeepsGuard` gives the outcomes under
  which a batch keeps the guard, and `AgentBatchRisk.BatchMayDropIffAtRisk` the state in which it may lose it: a goal loop,
  a queue of reads, and only the diagnosis flag up. Runs that never start a batch there are disciplined
  (`AgentBatchRisk.DisciplineWithoutRisk`); `AgentRecoveryLimits.BatchCanDropTheGuard` is a run that does and is not, and
  `AgentRecoveryLimits.LostGuardCanBeUsed` shows that a lost guard leads to a violation whenever the model may still
  propose a new change. Outside goal loops the discipline always holds.
- The confirmation turn is documented as never letting an auto-approved batch chain a second effect
  (`agent/src/yukinal_agent/model_agent.py:177-180`). It constrains later model responses only: two changes proposed in one
  response both run (`AgentConfirm.ResponseCanChainTwoChanges`). The condition is one change for each response: then no run
  chains two (`AgentChain.OneChangeEachNeverChains`), and two changes next in the queue always can be chained
  (`AgentChainLimits.TwoChangesNextCanChain`, `AgentChainLimits.ResponseChainsExactly`).
- A rejection lowers both recovery flags (`agent/src/yukinal_agent/model_agent.py:1169-1170`). That is safe after a change
  asked, since no change reaches the registry with a flag up, but reads can ask too: registration admits reads that need
  an approval, and a custom policy may demand one (`agent/src/yukinal_agent/model_agent.py:694-697`). Rejecting a read while
  a failure is open loses the guard (`AgentRejection.RejectionCanDropTheGuard`); outside goal loops a rejection keeps it
  exactly when both flags were down at the pause (`AgentRejection.RejectionKeepsGuardIffFlagsDown`).
- The bitmap integer parser lets a lone zero byte through as zero
  (`native/src/host_certificate.cpp:437`), which section 5 of RFC 4251 writes as no byte at all (`KrlFormat.MpintMeaning`).

## Model

| member | source | states |
|---|---|---|
| AgentFacts.HandleShape | agent/src/yukinal_agent/model_agent.py:1063-1694 | Every branch of one call appends exactly one record to the log, counts the call once, and either advances the queue, drops it, or waits at the same call; the record's phase and digest fit the branch. |
| AgentFacts.DropPauseKeeps | agent/src/yukinal_agent/model_agent.py:1126-1129 | Settling a call removes exactly its own pause records from the log. |
| AgentBatch.Share | agent/src/yukinal_agent/model_agent.py:639-640 | Each overlapping read gets a positive share that fits the remaining output room. |
| AgentBatch.RunSiblings | agent/src/yukinal_agent/model_agent.py:639-642 | Every sibling read is handled from the same state, whatever the others do. |
| AgentTidy.AbsorbRecords | agent/src/yukinal_agent/model_agent.py:657-661 | One turn of the merge loop replaces exactly the sibling's own records in the merged log: its pauses go, its settled records and its new record stay, and every other call's records are untouched. |
| AgentTidy.AbsorbQueue | agent/src/yukinal_agent/model_agent.py:662-688 | One turn of the merge loop counts the sibling once, queues it for approval exactly when it asked, keeps the first request, and notes a failure exactly when the sibling ended the run. |
| AgentBatch.MergeUpdates | agent/src/yukinal_agent/model_agent.py:648-688 | The loop folds the sibling updates in call order. |
| AgentBatch.ExecuteReadBatch | agent/src/yukinal_agent/model_agent.py:636-702 | The whole read batch: equal shares, overlapping siblings, ordered merge, and the failed, paused or running conclusion. |
| AgentTidy.MergedRecords | agent/src/yukinal_agent/model_agent.py:648-661 | After merging, a record is in the log exactly when it was there and no sibling's pause, or a sibling reported it: no record is lost or invented. |
| AgentTidy.MergedCounted | agent/src/yukinal_agent/model_agent.py:650-663 | After merging, an id is counted exactly when it was counted before or belongs to the batch. |
| AgentTidy.MergedPending | agent/src/yukinal_agent/model_agent.py:683-701 | The calls waiting for approval are exactly the siblings that asked, in call order. |
| AgentTidy.ModelCases | agent/src/yukinal_agent/model_agent.py:809-996 | A model round admits fresh calls, or only the harmless ones of a confirmation turn, or leaves log, counters and flags alone. |
| AgentTidy.TidyAlways | agent/src/yukinal_agent/model_agent.py:572-788 | In every run call ids stay distinct, a queued call has no settled record, only the next call can carry a verdict, and a run pauses only at an undecided call. |
| AgentRun.Width | agent/src/yukinal_agent/model_agent.py:576-585 | A step handles one call, or a whole group of parallel-safe calls that has a byte of room for each. |
| AgentRecovery.HandleFlags | agent/src/yukinal_agent/model_agent.py:1284-1502 | How every kind of outcome leaves the two recovery flags: only a successful read or a recorded rejection lowers both. |
| AgentRecovery.UnsuccessfulChangeIsHazard | agent/src/yukinal_agent/model_agent.py:1434-1502 | A dispatched change that does not succeed while the run goes on is always an open failure, unless its handler reported one of the codes that the run itself gives to refused calls. |
| AgentRecovery.HazardOpenMeaning | agent/src/yukinal_agent/model_agent.py:1434-1502 | The running notion of an open failure means that some failure has had no successful read after it. |
| AgentRecovery.BatchKeepsGuard | agent/src/yukinal_agent/model_agent.py:655-693 | A read batch leaves a flag up for every open failure exactly unless the diagnosis flag alone was up before it and a diagnosed failure is followed by a timed-out sibling with no successful read after the diagnosis. |
| AgentRecovery.RecoveryDiscipline | agent/src/yukinal_agent/model_agent.py:1185-1191 | In every run whose batches keep the guard, no change is dispatched after a failure was returned for diagnosis, or an effectful call failed or timed out, before some read has succeeded; through batches, pauses, verdicts and re-execution. |
| AgentBatchRisk.DisciplineWithoutRisk | agent/src/yukinal_agent/model_agent.py:655-693 | The discipline from the state alone: it holds of every run none of whose tool steps starts with the diagnosis flag alone up, in a goal loop, before a batch of a queue of reads. |
| AgentBatchRisk.BatchMayDropIffAtRisk | agent/src/yukinal_agent/model_agent.py:665-682 | In an honest run that has kept the guard so far, before a batch of unblocked reads, outcomes that lose the guard exist exactly when the state is that one. |
| AgentBatchRisk.RecoveryDisciplineOutsideGoals | agent/src/yukinal_agent/model_agent.py:1284-1313 | Outside goal loops the discipline holds of every run, because a timeout never stays in such a run. |
| AgentFlags.FlagsAreJustified | agent/src/yukinal_agent/model_agent.py:1434-1502 | Outside goal loops, in every run and whatever the registry does, a raised flag stands for a failure that is still open. |
| AgentFlags.FlagsMeanOpenHazard | agent/src/yukinal_agent/model_agent.py:1185-1191 | Outside goal loops, in every honest run, a flag is up exactly while a failure is open. |
| AgentRecoveryLimits.BatchCanDropTheGuard | agent/src/yukinal_agent/model_agent.py:665-682 | A concrete goal run in which a read batch lowers both flags and a change follows with no successful read: the batch is not the sequential path. |
| AgentRecoveryLimits.LostGuardCanBeUsed | agent/src/yukinal_agent/model_agent.py:1185-1191 | The guard is necessary: wherever both flags are down with a failure open, and the model may still propose a new change, two more honest steps break the discipline. |
| AgentRejection.RejectionCanDropTheGuard | agent/src/yukinal_agent/model_agent.py:1166-1170 | A concrete run in which a registered read asks for an approval while a failure is open: its rejection lowers the flag, and a change is dispatched with no successful read. |
| AgentRejection.RejectionKeepsGuardExactly | agent/src/yukinal_agent/model_agent.py:1166-1170 | From a guarded pause of any run, at a call handled alone and with room for the notice, the recorded rejection keeps the guard exactly when no failure was open at the pause, and surely when both flags were down. |
| AgentRejection.RejectionKeepsGuardIffFlagsDown | agent/src/yukinal_agent/model_agent.py:1166-1170 | Outside goal loops the flags at the pause decide alone: a rejection keeps the guard exactly when both were down. |
| AgentCounts.CallBudget | agent/src/yukinal_agent/model_agent.py:1094-1097 | In every run the call count is the number of distinct counted ids, every recorded dispatch is counted, and counted plus admitted-but-uncounted calls stay within the limit. |
| AgentCounts.DispatchesWithinLimit | agent/src/yukinal_agent/model_agent.py:858-859 | No run sends more distinct calls to the registry, with a recorded outcome, than its limit. |
| AgentRepetition.GrowBatch | agent/src/yukinal_agent/model_agent.py:1126-1137 | A batch keeps every blocking record and adds one for each verdict it reaches. |
| AgentRepetition.SettledNeverReplayed | agent/src/yukinal_agent/model_agent.py:1961-1977 | In every run an operation once denied, unresolved or diagnosed is dispatched by no later step, whatever its stated purpose or call id. |
| AgentConfirm.ChangesShareOneResponse | agent/src/yukinal_agent/model_agent.py:861-900 | In every auto-approved run a change dispatched after a successful change was proposed in the same model response. |
| AgentChain.OneChangeEachNeverChains | agent/src/yukinal_agent/model_agent.py:177-180 | In every auto-approved run in which each response proposes at most one registered change, no change is dispatched after one has succeeded; through batches, pauses and lost steps. |
| AgentChainLimits.TwoChangesNextCanChain | agent/src/yukinal_agent/model_agent.py:177-180 | Wherever two unblocked changes stand next in the queue of a run, with both recovery flags down and room for two results, two tool steps chain them. |
| AgentChainLimits.ResponseChainsExactly | agent/src/yukinal_agent/model_agent.py:861-900 | A new response whose changes come first can lead to a chain, with one change in each later response, exactly when it proposes more than one. |
| AgentConfirm.ResponseCanChainTwoChanges | agent/src/yukinal_agent/model_agent.py:177-180 | A concrete auto-approved run in which one response chains two changes with no read between them. |
| TargetGates.TargetGate.Request | agent/src/yukinal_agent/subagents.py:39-51 | A task reaching the gate enters or waits; a writer announces itself first and wakes everyone when it stops waiting. |
| TargetGates.TargetGate.Retry | agent/src/yukinal_agent/subagents.py:44-50 | A woken task re-tests its condition. |
| TargetGates.TargetGate.Cancel | agent/src/yukinal_agent/subagents.py:46-48 | A cancelled writer withdraws its announcement and wakes everyone; a cancelled reader leaves no trace. |
| TargetGates.TargetGate.Exit | agent/src/yukinal_agent/subagents.py:54-60 | Leaving releases the gate and wakes every waiter. |
| Scheduler.InvStep | agent/src/yukinal_agent/subagents.py:30-60 | Every step keeps: gate counters equal the tasks in each role, a writer is alone, the waiters are the tasks at the gate, every waiter that may enter was notified, and free slots plus launched tasks are three. |
| SchedulerRuns.WritersAreAlone | agent/src/yukinal_agent/subagents.py:231-248 | In every interleaving a writer that holds its server's gate shares it with nobody, and at most three tasks are launched. |
| SchedulerRuns.NoReaderPassesAWaitingWriter | agent/src/yukinal_agent/subagents.py:49-51 | While a writer waits, no step lets a reader into its server. |
| SchedulerRuns.NoDeadlock | agent/src/yukinal_agent/subagents.py:231-240 | In every reachable state with an unfinished task some productive step is enabled. |
| SchedulerRuns.MeasureFalls | agent/src/yukinal_agent/subagents.py:39-60 | Every step but a new submission lowers a measure of the work left. |
| SchedulerRuns.EverySchedulerRunEnds | agent/src/yukinal_agent/subagents.py:231-248 | Without new submissions every schedule is finite, and when nothing can move every task has ended. |
| Admission.SubagentRuntime.constructor | agent/src/yukinal_agent/subagents.py:84-99 | Opening on a database marks every unfinished task interrupted, in memory and on disk, and starts none. |
| Admission.SubagentRuntime.Start | agent/src/yukinal_agent/subagents.py:167-210 | A start request is refused as a whole with the first refusal met, or adds every unknown task, queued and recorded. |
| Admission.SubagentRuntime.Plan | agent/src/yukinal_agent/subagents.py:177-198 | The checking loop answers the first refusal in request order, or the unknown items in that order. |
| Admission.SubagentRuntime.Launch | agent/src/yukinal_agent/subagents.py:233-237 | A task is launched once by its own task object and recorded as running. |
| Admission.SubagentRuntime.Observe | agent/src/yukinal_agent/subagents.py:255-279 | A progress event changes an unfinished task and is ignored for a finished one. |
| Admission.SubagentRuntime.Settle | agent/src/yukinal_agent/subagents.py:241-253 | A task object that ends leaves the active table, and its task finished. |
| AdmissionRuns.StartMeans | agent/src/yukinal_agent/subagents.py:177-210 | An accepted start makes exactly the requested tasks known, each new one queued and not launched; a refused one changes nothing. |
| AdmissionRuns.StartBinds | agent/src/yukinal_agent/subagents.py:186-198 | After an accepted start every requested key names exactly the requested work. |
| AdmissionRuns.LimitsAlways | agent/src/yukinal_agent/subagents.py:199-203 | In every reachable state at most 32 tasks are active, a parent run owns at most eight, a session has at most eight unfinished, every unfinished task is active, and the database agrees with memory. |
| AdmissionRuns.LaunchedOnce | agent/src/yukinal_agent/subagents.py:231-240 | No task id is launched twice, over any number of restarts. |
| AdmissionRuns.KeyNeverRebound | agent/src/yukinal_agent/subagents.py:186-192 | A key that once named some work is refused for different work at every later point, with no effect. |
| AdmissionRuns.RestartRetires | agent/src/yukinal_agent/subagents.py:94-99 | A restart leaves every known task finished, unfinished ones as interrupted, and none of them is ever launched again. |
| RemoteFiles.Session.Rename | native/src/ssh.cpp:3645-3646 | A rename request: acknowledged means applied, and an error reply leaves open whether it was. |
| GuardedReplaceRun.StagingFileCleanup.Destroy | native/src/ssh.cpp:3389-3394 | The destructor asks to unlink the staging file exactly when its creation was acknowledged and its rename was not. |
| GuardedReplaceRun.CheckTarget | native/src/ssh.cpp:3431-3448 | The target must be a regular file of the expected size and modification time: the first check calls any other kind of file unsupported, the later ones a concurrent change, and a different size or time is a concurrent change in all of them. |
| GuardedReplaceRun.WriteContent | native/src/ssh.cpp:3472-3491 | Partial writes add up to exactly the requested bytes, or the step fails. |
| GuardedReplaceRun.PreserveMetadata | native/src/ssh.cpp:3493-3509 | One request by handle when there is metadata to set, and one by name exactly when the first was refused and there was time; a refused second request is no error. |
| GuardedReplaceRun.Stage | native/src/ssh.cpp:3450-3532 | On success the staging file was created exclusively, then filled with exactly the content, then synced, then closed, each acknowledged; once created its handle is closed on every path. |
| GuardedReplaceRun.VerifyStage | native/src/ssh.cpp:3534-3546 | The step passes exactly when the staging file was seen with every metadata field of the target, and otherwise names exactly the fields that differ. |
| GuardedReplaceRun.ReadTarget | native/src/ssh.cpp:3576-3599 | Reads continue where the last one ended, take at most one byte more than expected, and stop short only at the end of the file. |
| GuardedReplaceRun.ConfirmTarget | native/src/ssh.cpp:3548-3639 | The target was read to its end between two matching metadata checks and had the expected size and digest. |
| GuardedReplaceRun.Publish | native/src/ssh.cpp:3641-3675 | The rename comes only after everything was confirmed; success needs an acknowledged rename and a matching published file. |
| GuardedReplaceRun.Replace | native/src/ssh.cpp:3405-3683 | Every history keeps the protocol: one exclusive staging file, at most one rename and only of a filled, synced, closed and verified file after a confirmed read of the target, and a last unlink exactly when a creation but no rename was acknowledged. The first answer about the target decides alone when it is not the expected file; missing metadata is named and means that no rename was sent. |
| GuardedReplaceFacts.OnlyThePublishedFileReplacesTheTarget | native/src/ssh.cpp:3541-3661 | Of this session's requests only one can change the target: a rename, after which the target is the staged file with the requested bytes and preserved metadata. |
| GuardedReplaceFacts.RenamePublishesRequest | native/src/ssh.cpp:3472-3546 | When the rename is sent the staging file holds exactly the requested bytes and every metadata field the target was first seen with. |
| GuardedReplaceFacts.ReplacedFileWasTheExpectedOne | native/src/ssh.cpp:3548-3639 | If nobody else changes the target between the second metadata check and the rename, the replaced file is regular and has exactly the expected content. |
| GuardedReplaceFacts.MissingFieldMayDiffer | native/src/ssh.cpp:3362-3383 | A metadata field is named exactly when a file that the staging reply describes may differ in it from what the target showed. |
| GuardedReplaceFacts.PreservedExactly | native/src/ssh.cpp:3362-3383 | The list is empty exactly when every file the second reply describes also fits the first reply's metadata. |
| Resolver.AddressInfoState.Deliver | native/src/ssh.cpp:201-211 | The worker stores its result, or learns that it must free it because the caller has given up. |
| Resolver.AddressInfoState.Collect | native/src/ssh.cpp:227-234 | The caller is late, fails, or takes the list out of the shared state. |
| Resolver.InvStep | native/src/ssh.cpp:184-234 | Every step keeps the counter equal to the calls that hold a slot, and every list in one place. |
| Resolver.CounterCountsReservations | native/src/ssh.cpp:143-149 | In every interleaving of callers and workers the counter is the number of unreleased reservations, at most four. |
| Resolver.EveryListHasOneOwner | native/src/ssh.cpp:184-234 | A resolved list is always in exactly one place, is never freed twice, and ends with the caller or freed once. |
| Resolver.AllSlotsReturn | native/src/ssh.cpp:212-220 | When every call is finished, every slot is free again. |
| Glob.FillRow | native/src/host_certificate.cpp:219-231 | One row of the table: each cell tells whether the pattern prefix matches the value prefix. |
| Glob.PrincipalMatches | native/src/host_certificate.cpp:215-235 | True exactly when both texts are within 253 bytes and the value can be cut into one run per pattern token. |
| Glob.PlainPatternIsCaseInsensitiveEquality | native/src/host_certificate.cpp:210-230 | A pattern without wildcards matches exactly the values equal to it but for ASCII case. |
| Glob.CaseNeverMatters | native/src/host_certificate.cpp:227-229 | Values that differ only in ASCII case match the same patterns. |
| Utf8.ValidUtf8 | native/src/host_certificate.cpp:398-419 | True exactly when the bytes are the encoding of some sequence of Unicode scalar values. |
| Utf8.UnitEncodes | native/src/host_certificate.cpp:402-416 | Bytes that pass the checks are the encoding of the scalar value gathered from them. |
| Utf8.EncodingIsUnit | native/src/host_certificate.cpp:405-416 | Every encoded scalar value passes the checks and is gathered back: no overlong form, surrogate or larger value does. |
| Utf8.OneReading | native/src/host_certificate.cpp:398-419 | No byte string has two readings. |
| KrlFormat.MpintMeaning | native/src/host_certificate.cpp:429-438 | A bitmap integer is accepted exactly in the shortest form of section 5 of RFC 4251, or as a lone zero byte; its bytes are the minimal magnitude. |
| KrlFormat.SectionRoundTrip | native/src/host_certificate.cpp:440-498 | Reading accepts exactly the encodings of valid sections and returns the one section a byte string encodes. |
| KrlFormat.PayloadRoundTrip | native/src/host_certificate.cpp:447-494 | Each kind of subsection is read exactly from its own encoding, to the last byte. |
| KrlParser.KrlReader.Exact | native/src/host_certificate.cpp:336-341 | The cursor yields the next bytes or fails, and never passes the end. |
| KrlParser.KrlReader.U32 | native/src/host_certificate.cpp:346-352 | Four bytes are a big-endian integer. |
| KrlParser.KrlReader.U64 | native/src/host_certificate.cpp:353-359 | Eight bytes are a big-endian integer. |
| KrlParser.KrlReader.String | native/src/host_certificate.cpp:360-363 | A length-prefixed text is taken whole or refused. |
| KrlParser.CheckBitmap | native/src/host_certificate.cpp:467-476 | The two loops accept exactly the bitmaps whose every set bit denotes a serial from one to the largest. |
| KrlParser.ParseSerials | native/src/host_certificate.cpp:448-455 | A serial list is read to its end; zero is refused. |
| KrlParser.ParseBitmap | native/src/host_certificate.cpp:463-479 | A bitmap is read, checked and kept with its magnitude bytes. |
| KrlParser.ParseKeyIds | native/src/host_certificate.cpp:480-487 | Key IDs are read to the end and must be UTF-8. |
| KrlParser.ParseSubsection | native/src/host_certificate.cpp:445-494 | A subsection must be of a known kind and leave no bytes over. |
| KrlParser.ParseCertificateSection | native/src/host_certificate.cpp:440-498 | The parser accepts exactly what the format describes and collects what its subsections say. |
| KrlRevocation.RevokedReason | native/src/host_certificate.cpp:1093-1115 | The reason given is the first that applies: the subject key, the signing key, then the first section that lists the key ID or the serial. |
| KrlRevocation.BitmapFinds | native/src/host_certificate.cpp:1104-1111 | The byte and bit lookup finds a serial exactly when its bit of the big-endian integer is set. |
| KrlRevocation.RevokedBySerialExactly | native/src/host_certificate.cpp:1098-1113 | With keys and key ID clear, a certificate is reported revoked by serial exactly when its non-zero serial lies in the union of what the sections for its CA or any CA denote. |
| KrlRevocation.AcceptedSerialsAreInRange | native/src/host_certificate.cpp:448-476 | No accepted section denotes serial zero or a number past the largest. |
| IpAddress.ParseIpv4 | native/src/config.cpp:80-95 | The scanner reads a text as four dotted decimal bytes or refuses it. |
| IpAddress.Ipv4RoundTrip | native/src/config.cpp:80-95 | A text is accepted exactly when it is the printed form of the address it is read as. |
| IpAddress.OctetMeans | native/src/config.cpp:86-90 | A byte is accepted exactly in decimal without leading zeros. |
| IpAddress.ParseIpv4Cidr | native/src/config.cpp:97-113 | An address, exactly one slash, and a length of at most 32. |
| Ipv6Address.Ipv6Exactly | native/src/config.cpp:115-171 | A text is accepted exactly when it is a written form of eight groups, a double colon standing for at least one zero group, and is read as the bytes of those groups. |
| Ipv6Address.CompressedIsFound | native/src/config.cpp:117-120 | The search finds the double colon between the written sides and no other. |
| IpPrefix.ParseSide | native/src/config.cpp:122-148 | One side is read token by token; a dotted tail only at the end and only where allowed. |
| IpPrefix.ParseIpv6 | native/src/config.cpp:115-171 | The scanner reads the sixteen bytes or refuses the text. |
| IpPrefix.ParseIpv6Cidr | native/src/config.cpp:173-189 | An address, exactly one slash, and a length of at most 128. |
| IpPrefix.MatchesPrefix | native/src/config.cpp:196-206 | The loop compares whole bytes, then the masked rest. |
| IpPrefix.AgreeIsLeadingBits | native/src/config.cpp:214-223 | The byte-wise comparison equals comparing the leading bits of the big-endian integers, for byte strings of any length. |
| IpPrefix.Ipv4MatchesCidr | native/src/config.cpp:191-207 | A host lies in an IPv4 network exactly when both parse and their leading bits are the same number. |
| IpPrefix.Ipv6MatchesCidr | native/src/config.cpp:209-225 | A host lies in an IPv6 network exactly when both parse and their leading bits are the same number. |
| Base64.Base64Encode | native/src/ssh.cpp:1396-1412 | The loop computes the standard encoding. |
| Base64.DecodeBase64 | native/src/policy.cpp:53-94 | Decoding yields a byte string exactly when the text is its encoding and it is within the limit: only canonical padding and zero unused bits. |
| Base64.DecodesEncoded | native/src/policy.cpp:53-94 | Every encoding passes the checks and decodes to what was encoded. |
| Base64.EncodesDecoded | native/src/policy.cpp:58-94 | Every text that passes the checks re-encodes to itself, and its decoded size is as computed. |
| Base64.CheckText | native/src/policy.cpp:55-72 | The checks before decoding accept exactly the canonical texts. |
| Shell.ShellSingleQuote | native/src/ssh.cpp:3685-3696 | The loop computes the quoted form. |
| Shell.QuotedIsOneWord | native/src/ssh.cpp:2489-2497 | A POSIX shell reads the quoted form as exactly one word equal to the value, for every value without a NUL, and only for those. |
| Shell.BuildExecLine | native/src/ssh.cpp:2488-2508 | The command line is assembled from the directory, the variables and the command. |
| Shell.ExecLineSplits | native/src/ssh.cpp:2498-2508 | The shell splits the line into exactly the intended words, for any directory, variables and command. |
| Shell.ExecLineRuns | native/src/ssh.cpp:2488-2508 | Read by the shell, the assembled line changes to the requested directory, if any, and then runs the shell command with exactly the requested variables, in their order. |
| Shell.AllowedNamesAreNameLike | native/src/policy.cpp:716-723 | Every variable name that policy allows is plain and holds no equals sign. |
| Transcript.ProjectMessages | agent/src/yukinal_agent/conversation_store.py:685-712 | A turn is replayed as it is, after its participant note, exactly when it holds only complete tool exchanges; otherwise a note stands for it. |
| Transcript.ScanMeans | agent/src/yukinal_agent/conversation_store.py:691-704 | The pending-set scan accepts exactly the turns made of complete exchanges: every call answered once, in any order, before the next message. |
| Transcript.Subadditive | agent/src/yukinal_agent/conversation_store.py:28-29 | The JSON list of two joined lists is shorter than the two lists apart. |
| Projection.SelectNewest | agent/src/yukinal_agent/conversation_store.py:486-497 | The selected turns are the longest newest run within the trigger. |
| Projection.DropOldest | agent/src/yukinal_agent/conversation_store.py:504-506 | What remains is the longest newest run within the limit. |
| Projection.ChooseExcerpts | agent/src/yukinal_agent/conversation_store.py:574-601 | Excerpts are distinct turns, each category stays within its share, and the archive within its budget. |
| Projection.FitCandidate | agent/src/yukinal_agent/conversation_store.py:584-593 | A candidate is quoted whole exactly when it fits, else shortened to the room its label and the ellipsis leave, and passed over exactly when that room is under 100 bytes or the shortened text does not fit. |
| Projection.Trim | agent/src/yukinal_agent/conversation_store.py:606-613 | The last loop keeps the turn total and never fires when the projection already fits. |
| Projection.Compact | agent/src/yukinal_agent/conversation_store.py:504-617 | A compacted projection takes at most 60% of the limit: an archive of chosen excerpts within its budget and the longest newest run within its own. |
| Projection.BuildContext | agent/src/yukinal_agent/conversation_store.py:468-617 | A projection is whole and within 80% of the limit, or compacted and within 60%; its turns are the longest newest run, and included plus compacted turns are all turns. |
| JsonText.WideIntegersAreLong | agent/src/yukinal_agent/mcp_manager.py:344-345 | An integer of more than four bits for each allowed byte always prints to more than the allowed bytes. |
| JsonCounter.TextSize | agent/src/yukinal_agent/mcp_manager.py:326-343 | A string is measured as its quoted, escaped UTF-8 form, or refused when it is too long or not valid text. |
| JsonCounter.ScalarSize | agent/src/yukinal_agent/mcp_manager.py:319-350 | A scalar is measured as its printed form. |
| JsonCounter.SizeCounter.Visit | agent/src/yukinal_agent/mcp_manager.py:352-393 | One visit accepts exactly what depth, nodes and bytes allow, answers the printed size, adds exactly the value's nodes, and leaves the active containers as they were. |
| JsonCounter.SizeCounter.VisitItems | agent/src/yukinal_agent/mcp_manager.py:374-393 | The elements of a list, stopping at the first that is refused or takes the sum past the limit. |
| JsonCounter.SizeCounter.VisitEntries | agent/src/yukinal_agent/mcp_manager.py:383-393 | The members of a dictionary, each key measured before its value. |
| JsonCounter.BoundedJsonResultSize | agent/src/yukinal_agent/mcp_manager.py:314-395 | A value is accepted exactly when it stands for a JSON tree of at most 32 levels, 100000 nodes and 4 MiB of compact UTF-8; the answer is the exact length of that text. |
| JsonTree.UnfoldIsTheTree | agent/src/yukinal_agent/mcp_manager.py:352-393 | Reading down to a depth finds exactly the trees that are no deeper. |
| JsonTree.CycleHasNoTree | agent/src/yukinal_agent/mcp_manager.py:368-370 | A container met again below itself stands for no tree. |
| Retention.OrderedIsTotal | agent/src/yukinal_agent/host_tools.py:1282-1284 | The three stable sorts give the records ordered by path, then newest creation text, then largest id, then place in the request. |
| Retention.Scan | agent/src/yukinal_agent/host_tools.py:1290-1310 | The scan counts from zero at each new path and collects the candidates. |
| Retention.EarlierIsRank | agent/src/yukinal_agent/host_tools.py:1293-1298 | The running index of a record is the number of newer records of its path. |
| Retention.RetentionCandidates | agent/src/yukinal_agent/host_tools.py:1276-1311 | A record is a candidate exactly when its rank within its path and its age say so; candidates and kept records are all records. |
| Retention.NewestAreKept | agent/src/yukinal_agent/host_tools.py:1298-1307 | With k backups to keep, every path keeps its k newest, whatever the age rule says. |

## Left out

- Message texts, stage and transcript events, token usage, streaming, evidence and plan settlement contents of the agent: they decide nothing that the run state machine does next. Whether a settlement fails is an input.
- Output bytes over read batches: the rejection branch checks the whole budget rather than the batch share, so no bound over batches is claimed.
- AgentRecovery.RecoveryDiscipline: one direction over a whole run; a run that loses the guard and never proposes another change is disciplined all the same, and AgentRecoveryLimits.LostGuardCanBeUsed gives the other direction for runs that may go on.
- AgentChainLimits.ResponseChainsExactly: for responses of operations new to the run that place their changes first; another call before a change may end the run or drop the queue, as its own outcome decides.
- AgentCounts.DispatchesWithinLimit: counts recorded dispatches; a step lost to a stopped process runs its calls again under the same ids.
- Scheduler.InvStep: one gate operation is one atomic step, since the condition's lock is never held across a suspension; the fairness of the semaphore's queue and of the event loop is not modelled, so progress is stated as an enabled step and finite schedules.
- Admission.SubagentRuntime.Settle: one call stands for the end of the task body and its done callback; a late cancellation may replace one finished state by another, as in the source. Revision numbers, timestamps, results and approvals of a job are not modelled.
- Digests of task ids, work bindings, requests and results are taken as injective. The hash of file content is a parameter.
- Connecting an SFTP session, its deadline clock and the words of its errors: whether time is left is an arbitrary answer before each request, and a failing step may report a timeout instead of its own error.
- GuardedReplaceRun.Replace: speaks of acknowledged steps, because an error reply does not tell whether a request was applied. After a rename that was applied behind an error reply the unlink is still sent, and a staging file created behind an error reply is never unlinked. Access times are not modelled, because the service does not compare them; that a server reports true metadata and honours exclusive creation is part of the model of the server.
- GuardedReplaceFacts.ReplacedFileWasTheExpectedOne: needs that nobody else changes the target from the second check on, because SFTP has no conditional rename.
- The resolver's numeric fast path and the failure to allocate shared state before a worker exists: no list crosses threads there.
- The key revocation list's header, explicit keys, fingerprints, signatures and their verification: certificate sections and the lookup are modelled, the two key digests are functions of the caller.
- The proxy bypass port syntax and the other configuration checks of the service: long and shallow.
- Unsigned 64-bit and size_t arithmetic of the codecs: inputs are bounded far below wrap-around by the callers, and the serial range checks are modelled with their limits.
- Shell.QuotedIsOneWord: the shell reader gives up on unquoted characters with other special meanings, and none of the assembled lines contains one; alias expansion and locale-dependent blanks are not modelled.
- Ranking and retrieval of archive candidates, and the words of the archive: candidates are given lists, and an excerpt is its size. The two ratios are exact fractions, which the floating-point products equal for every limit in use.
- Projection.ChooseExcerpts: a shortened excerpt's size is an arbitrary function of the room it is given.
- JsonCounter.BoundedJsonResultSize: which of the two refusals is raised first is fixed only one way: an invalid-result refusal means that there is no tree within the depth limit. The printed form of a float is given with the value.
- Retention.RetentionCandidates: reading a creation time out of its text is a parameter; the position carried with each record only tells records apart, no comparison looks at it.
