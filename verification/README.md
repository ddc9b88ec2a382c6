# Suspended-caller liveness and its neighbours, modelled in Dafny

An execution that asks another agent, or a user, for a reply ends and stays
suspended until the reply arrives. This project models how by-framework makes
sure that happens: the wait index a caller registers in before it sends, the
gate that lets exactly one copy of a reply through, and the sweeper that
answers on behalf of a callee that never will. Three state machines that live
in the same Redis data are modelled beside it: the worker registry (statistics,
leases, membership), the client (cascade cancellation, checkpointed
consumption) and availability routing with its delivery gate.

The store is a value (`WaitStore.Db`) and an object with one method per Redis
command (`WaitStore.Redis`). The program's methods are methods of classes that
hold that object; each is proved equal to a function of the old store, and the
properties are proved about those functions over whole runs. Runs come at two
granularities: one step per gate call, registration or examination
(`LivenessRuns`), and one step per command (`CommandInterleaving`).

Files, in reading order: `WaitIndex`, `WaitStore`, `WaitGate`, `WaitReply`,
`WaitSweeper`, `TaskGroupJoin` and `AgentContexts` hold the operations;
`SweepSafety`, `SweepVerdicts`, `LivenessRuns`, `SweepRuns`, `RenewalBudget`,
`GroupAccounting`, `AbortedGroups`, `WaitChains`, `WaitTrees` and
`CommandInterleaving` what holds of them;
`ExecutionCounters`, `CascadeCancel`, `CheckpointedConsumer`, `WorkerLeases`, `WorkerMembership`,
`Availability` and `DeliveryGate` are the machines beside it.

## Where the code and its description differ

The model follows the code. Each point is proved, with the exact condition.

- The gate removes an entry and sets its marker in two commands, so two copies
  of one reply can both pass, and the second can clear a live ask_user wait of
  the same caller (`CommandInterleaving.BothCopiesAllowed`). A race resumes the
  caller once exactly if no copy overtakes the winner's marker, or the marker of
  an ask_user wait answered before stops the overtakers
  (`CommandInterleaving.RaceWakesOnceIff`, `CommandInterleaving.RaceClearsAskUserIff`).
- A renewal writes its score unconditionally and can put back an entry the gate
  has just claimed (`CommandInterleaving.LateRenewalRevives`).
- 200 due ask_user entries of suspended callers ahead of the others stall a
  shard (`SweepSafety.SweepProgressIff`).
- "Recovered" is counted for a stored result that could not be sent
  (`SweepSafety.OutcomeTellsEmission`).
- N = 1 is described as never renewing; the ceiling still leaves one increment,
  and it is registration plus N timeouts only when N-1 timeouts reach one
  increment (`SweepSafety.CeilingIsNTimeouts`).
- A member registered again inherits the renewal origin of its predecessor
  while that is stored (`RenewalBudget.ReRegistrationBudget`).
- A duplicate sub-agent reply clears a live ask_user wait when the sweeper took
  the sub-agent's own entry (`LivenessRuns.DuplicateClearsAskUserIff`).
- That the deepest wait has the earliest deadline is not guaranteed and not
  needed; that there is a deepest one is. A knot of suspended callers, of which a
  cycle is the simplest, has none and is never resolved, in any run, until one of
  them is cancelled (`WaitChains.StandInDueIff`, `WaitTrees.KnotIsNeverResolved`).
- Resuming an execution on another worker leaves the first worker's counters
  and active index wrong, and so does a rejected RESUME: it is routed under the
  id of the execution it would reattach to, and the failed route is recorded by
  initializing that very record (`ExecutionCounters.CountersAgreeIff`,
  `ExecutionCounters.ResumeElsewhereLeaks`, `ExecutionCounters.RejectedResumeLeaks`).
- Cascade cancellation has no visited set. It never ends if a cycle lies below
  its target (`CascadeCancel.WalkEndsIff`), and it lists a node once for each path
  to it, hence cancels it more than once exactly when two records below the
  target share a message id and a child, as a rejected send repeated under its
  own message id leaves them (`CascadeCancel.ListedOnceIff`).
- Marking a worker inactive without any token deletes whoever's lease it is
  (`WorkerLeases.MarkInactiveTakesIff`).
- A heartbeat cycle that read the lifecycle before it changed, and the
  deprecated register_worker, can bring a suspended worker back
  (`WorkerMembership.OnlyActiveStepIff`).
- An undecodable entry in a data stream also withholds the good entries before
  it, exactly when one read from the checkpoint reaches it
  (`CheckpointedConsumer.PoisonIsReachedIff`). Without a crash a consumer gets as far
  as the last whole slice before it, and once there the rest is withheld for good
  (`CheckpointedConsumer.WithoutCrash`).
- A wake-up answered by a fallback without an agent type puts the client's
  command on a stream with an empty name (`Availability.PlacedWithAReaderIff`);
  an agent's dispatch falls back on the target's own stream
  (`AgentContexts.DispatchPlacedOnce`).
- The delivery gate removes nothing it releases and never looks past the
  `count` entries it reads, so a command is placed as often as calls cover its
  deliveries, and one without a copy exactly once if exactly one call does
  (`DeliveryGate.PlacedAsOftenAsCovered`, `DeliveryGate.PlacedOnceIff`,
  `DeliveryGate.ReleasedIffRead`).

## Model

| member | source | states |
|---|---|---|
| WaitIndex.RoundTrip | src/by_framework/core/wait_index.py:76-110 | decoding an encoded member returns all four fields, for arbitrary strings, separators and escapes included |
| WaitIndex.EncodeInjective | src/by_framework/core/wait_index.py:76-99 | two different waits never share a member |
| WaitIndex.ReencodeIffWellEscaped | src/by_framework/core/wait_index.py:51-110 | re-encoding a decodable string restores it exactly when every escape in it is one the encoder writes |
| WaitIndex.EncodeIsWellEscaped | src/by_framework/core/wait_index.py:76-99 | every encoded member is such a string, so members in the index re-encode to themselves |
| WaitIndex.EscapedCons | src/by_framework/core/wait_index.py:51-52 | the two replacement passes escape each character exactly once, neither seeing the other's output |
| WaitIndex.FieldsOfEscaped | src/by_framework/core/wait_index.py:51-73 | reading an escaped value gives the value back and leaves whatever follows it unread |
| WaitIndex.SplitEscaped | src/by_framework/core/wait_index.py:55-73 | the character loop computes the fields as read recursively from the left, None for a dangling escape |
| WaitIndex.Fnv1a32 | src/by_framework/core/wait_index.py:143-155 | the byte loop folds the UTF-8 bytes of the text, in order, into the 32-bit hash |
| WaitIndex.ShardOf | src/by_framework/core/wait_index.py:143-160 | every session has one of the 16 shards |
| WaitIndex.KnownDigests | src/by_framework/core/wait_index.py:143-155 | the published digests of the empty text, "a" and "fo" |
| WaitIndex.ShardIsLastDigit | src/by_framework/core/wait_index.py:143-160 | the shard is the last hexadecimal digit of the digest, so 5, 12 and 2 for those three |
| WaitStore.Redis.ZRangeByScore | src/by_framework/core/wait_sweeper.py:466-475 | a batch is the first due entries in score order, ties by member, and short of the limit only when it is all of them |
| WaitStore.BatchIsOldestDue | src/by_framework/core/wait_sweeper.py:466-475 | nothing a batch leaves is older than anything it takes, its scores ascend, and it leaves nothing due unless it is full |
| WaitStore.PlainStatus | src/by_framework/core/wait_sweeper.py:189-198 | a status is read without the blanks around it and without what follows a colon |
| WaitStore.Redis.ZRem | src/by_framework/core/wait_gate.py:139-147 | removal reports whether this very call removed the entry, which is what makes a claim exclusive |
| WaitGate.ConsumeWaitEntry | src/by_framework/core/wait_gate.py:132-160 | the loop over the candidates claims the first live one, denies on the first marker met before that, allows otherwise, and changes the store by the claim only |
| WaitGate.CandidateMembers | src/by_framework/core/wait_gate.py:80-110 | one or two candidates, the reply's own member first |
| WaitGate.DecideAmongIsCandidate | src/by_framework/core/wait_gate.py:132-160 | a claim takes a live candidate, a denial names a marked one that is gone, and an unregistered reply has no candidate live or marked |
| WaitGate.AskUserCleared | src/by_framework/core/wait_gate.py:80-110 | a sub-agent reply clears the caller's ask_user entry exactly when it has no group, that entry is live and the reply's own member is neither live nor marked |
| WaitReply.StandInTargetsItsEntry | src/by_framework/core/wait_reply.py:64-121 | the reply built from a decoded entry rebuilds that entry, and names it as the gate's first candidate, exactly when the entry is spelled as the encoder spells it |
| WaitReply.StandInClaimsItsEntry | src/by_framework/core/wait_reply.py:64-121 | for a registered wait the gate claims on the stand-in the very entry it stands in for, in the session's shard |
| WaitSweeper.WaitIndexSweeper.ResolveEntry | src/by_framework/core/wait_sweeper.py:490-559 | one examination makes exactly the change, reports exactly the outcome and asks for exactly the cancellation of the triage table, for every state of the store |
| WaitSweeper.WaitIndexSweeper.ResolveChild | src/by_framework/core/wait_sweeper.py:661-761 | the callee half of the table, with the cancel request a timed-out callee gets |
| WaitSweeper.WaitIndexSweeper.GroupBlocksCompensation | src/by_framework/core/wait_sweeper.py:561-630 | a group that is gone, aborted or already holds the result blocks compensation and drops the entry; a live unjoined one changes nothing |
| WaitSweeper.WaitIndexSweeper.ResolveUnsuspendedCaller | src/by_framework/core/wait_sweeper.py:632-659 | an entry of a running caller is dropped only if the caller's worker has lost its lease, renewed otherwise |
| WaitSweeper.WaitIndexSweeper.RecoverFinishedChild | src/by_framework/core/wait_sweeper.py:888-940 | a finished callee is answered with its stored result, or with its terminal status when nothing is stored |
| WaitSweeper.WaitIndexSweeper.SynthesizeFailure | src/by_framework/core/wait_sweeper.py:961-1004 | the failure stand-in, or unroutable with a plain renewal |
| WaitSweeper.WaitIndexSweeper.EmitReply | src/by_framework/core/wait_sweeper.py:1006-1078 | a stand-in goes to the callee's recorded source, else the caller's own agent type; without either nothing is sent; the entry is renewed in both cases |
| WaitSweeper.WaitIndexSweeper.RenewalCeiling | src/by_framework/core/wait_sweeper.py:838-871 | the ceiling is the origin plus the larger of N-1 timeouts and one increment, with the default timeout where none can be derived |
| WaitSweeper.WaitIndexSweeper.RenewalOrigin | src/by_framework/core/wait_sweeper.py:873-886 | the recorded origin, or the score when none is stored; a stored zero reads as none |
| WaitSweeper.WaitIndexSweeper.ExtendDeadline | src/by_framework/core/wait_sweeper.py:1080-1106 | a renewal records the first deadline once and moves the score to one increment from now |
| WaitSweeper.WaitIndexSweeper.CancelTimedOutChild | src/by_framework/core/wait_sweeper.py:763-836 | a timed-out callee is asked to stop only when configured and not asked before |
| WaitSweeper.WaitIndexSweeper.PruneShard | src/by_framework/core/wait_sweeper.py:419-464 | one range deletion, counting exactly the entries it takes |
| WaitSweeper.WaitIndexSweeper.ResolveDueEntries | src/by_framework/core/wait_sweeper.py:466-488 | a batch examines, in order, the entries it read with the scores it read, counts each outcome and makes each cancel request |
| WaitSweeper.WaitIndexSweeper.PruneIsDue | src/by_framework/core/wait_sweeper.py:362-371 | pruning is due when enabled and never done or an interval ago, and is then remembered as done |
| WaitSweeper.WaitIndexSweeper.SweepShard | src/by_framework/core/wait_sweeper.py:373-417 | a shard whose lock is free is pruned first and resolved from what the prune left; otherwise it is untouched; what it reports is what it did |
| WaitSweeper.WaitIndexSweeper.SweepOnce | src/by_framework/core/wait_sweeper.py:344-360 | one pass visits every shard once from the cursor on, adds up what the shards report, and moves the cursor by one |
| WaitSweeper.WaitIndexSweeper.constructor | src/by_framework/core/wait_sweeper.py:244-310 | the renewal multiple and the prune interval are at least one |
| SweepSafety.StandInIffOwed | src/by_framework/core/wait_sweeper.py:490-559 | a stand-in goes out exactly to a suspended, addressable caller with a non-empty child id, an abandoned callee and a live unjoined group |
| SweepSafety.ExaminationSafety | src/by_framework/core/wait_sweeper.py:490-559 | one examination emits at most one reply, never emits and removes, leaves the entry due one increment later if it emits, and changes no other entry |
| SweepSafety.EmittedReplyClaimsItsEntry | src/by_framework/core/wait_sweeper.py:1043-1106 | the reply the sweeper emits for a registered wait claims that wait at the gate |
| SweepSafety.OutcomeTellsEmission | src/by_framework/core/wait_sweeper.py:888-1004 | the outcome tells whether a reply went out, with one exception: a stored result that cannot be routed is still counted as recovered |
| SweepSafety.CeilingIsNTimeouts | src/by_framework/core/wait_sweeper.py:838-871 | the ceiling equals registration plus N timeouts, as documented, exactly when N-1 timeouts reach one increment; otherwise it is one increment past the origin, as with N of 1, so a wait is still renewed; a timeout that cannot be derived counts as an hour |
| SweepSafety.ParkedIffLeft | src/by_framework/core/wait_sweeper.py:548-552 | an examination leaves an entry untouched exactly when it is an ask_user wait of a suspended caller |
| SweepVerdicts.DroppedIff | src/by_framework/core/wait_sweeper.py:490-659 | an entry is dropped exactly if it does not decode, its caller has no record, is finished, or runs on a worker that lost its lease, or its caller is suspended on a named callee whose group is gone, aborted or has the result; so no state of the callee ever gets it dropped |
| SweepVerdicts.RenewedIff | src/by_framework/core/wait_sweeper.py:632-761 | it is renewed exactly if its caller runs on no or a live worker, or its callee is suspended, or at work on a live worker before the ceiling, or there is nowhere to send a stand-in |
| SweepVerdicts.CancelIff | src/by_framework/core/wait_sweeper.py:744-836 | the callee is asked to stop exactly if that is configured, it is at work on a live worker past its ceiling, its caller still waits, and it was not asked before |
| SweepVerdicts.StandInSays | src/by_framework/core/wait_sweeper.py:888-1078 | a stand-in goes to the source recorded for the callee, else to the caller's own agent type, in the callee's name; status, error code and payload are those of what became of the callee: unknown, never started, finished with or without a stored result, on a lost worker, or over its ceiling |
| SweepVerdicts.OutcomeTellsEvidence | src/by_framework/core/wait_sweeper.py:490-761 | each of the sixteen outcomes is reported on its own evidence in the records, leases and groups |
| SweepSafety.BatchEffect | src/by_framework/core/wait_sweeper.py:466-488 | a batch takes everything it examines out of the due range, except the parked ask_user entries |
| SweepSafety.SweepProgressIff | src/by_framework/core/wait_sweeper.py:466-488 | a sweep makes progress exactly when fewer than 200 parked ask_user entries precede the first movable one; otherwise it leaves the due range as it was |
| SweepSafety.SweepShrinks | src/by_framework/core/wait_sweeper.py:466-488 | with fewer than 200 parked entries each sweep takes at least one movable entry while there is one |
| SweepSafety.ShardDrains | src/by_framework/core/wait_sweeper.py:466-488 | repeated sweeps at one instant then end, within as many sweeps as there are movable entries, with exactly the parked entries due |
| SweepSafety.ShardSettles | src/by_framework/core/wait_sweeper.py:373-417 | sweeping one shard, pruned or not, touches no other and settles its own if one batch holds all the prune leaves due |
| SweepSafety.PassSettlesShards | src/by_framework/core/wait_sweeper.py:344-360 | after one pass with all locks free, pruning or not and from any cursor, every shard in which at most 200 entries are due after its prune has exactly its parked ones still due |
| SweepRuns.VerdictStands | src/by_framework/core/wait_sweeper.py:466-488 | when an entry's turn in a batch comes, triage still says what it said when the batch began |
| SweepRuns.BatchDoesWhatIsDue | src/by_framework/core/wait_sweeper.py:466-488 | a batch appends to the callers' streams exactly the stand-ins due when it began, in batch order, and drops, renews or leaves each entry as triage said then |
| SweepRuns.BatchReportsWhatIsDue | src/by_framework/core/wait_sweeper.py:466-488 | a batch counts one outcome for each entry and requests exactly the cancellations triage called for when it began |
| SweepRuns.BatchIsRun | src/by_framework/core/wait_sweeper.py:466-488 | sweeping a batch is the run of the examinations of its entries |
| SweepRuns.PassIsRun | src/by_framework/core/wait_sweeper.py:344-360 | a whole pass, whatever locks are free, is a run of prunes and examinations, so what holds of every run holds of it |
| SweepRuns.PassRescues | src/by_framework/core/wait_sweeper.py:344-360 | after one pass with all locks free, for every caller owed a stand-in when it began a stand-in that says what became of its callee is on the stream that caller reads, in every shard in which at most 200 entries are due after its prune |
| TaskGroupJoin.HandleReply | src/by_framework/worker/worker.py:845-936 | a reply without a known group passes, one of an aborted group is discarded, any other is stored, counted once and, when the count reaches the total, aggregated with every result stored for the group |
| LivenessRuns.SlotStep | src/by_framework/worker/context.py:496-517 | the only ways an index entry appears, vanishes or changes its score in one step |
| LivenessRuns.MarkerStep | src/by_framework/core/wait_gate.py:113-160 | a marker appears only by a claim of its member and vanishes only by a registration of it |
| LivenessRuns.Ledger | src/by_framework/core/wait_gate.py:139-147 | over every run and for every slot, insertions of an absent entry equal claims plus drops plus prunes plus what is left; claims never exceed registrations |
| LivenessRuns.PruneTakesOnlyOld | src/by_framework/core/wait_sweeper.py:448-454 | wherever in a run it falls, a prune takes only entries last written at least eight days before |
| LivenessRuns.DuplicatesDenied | src/by_framework/core/wait_gate.py:132-160 | once a reply has claimed a wait every further copy is denied, after any run in which that wait, and any candidate looked at before it, is not registered again |
| LivenessRuns.UnclaimedNeverDenied | src/by_framework/core/wait_gate.py:132-160 | a reply none of whose candidates was ever claimed is never denied |
| LivenessRuns.RecognizableIffOnlyClaimed | src/by_framework/core/wait_gate.py:94-110 | a wait stays recognizable to the gate exactly as long as neither a sweep nor a prune took its entry |
| LivenessRuns.DuplicateClearsAskUserIff | src/by_framework/core/wait_gate.py:94-110 | a copy of a sub-agent reply clears a live ask_user wait of the same caller exactly when a sweep or a prune took the sub-agent's own entry |
| LivenessRuns.WokenExactlyOnce | src/by_framework/core/wait_gate.py:132-160 | from a live sub-agent wait, in every run in which that wait is not registered again and the sweeper does not take its entry, exactly the first delivered copy of the reply is allowed, be it the real one, a duplicate or a stand-in, even if the woken caller goes on to ask the user |
| LivenessRuns.AbandonedCallerIsWoken | src/by_framework/core/wait_sweeper.py:490-559 | examining the due wait of a suspended caller with an abandoned callee puts a stand-in that says what became of the callee on the stream the caller reads, and once it is delivered exactly one copy has resumed the caller, in every run in which that wait is not registered again and the sweeper does not take its entry |
| LivenessRuns.KeptWhileCalleeSleeps | src/by_framework/core/wait_sweeper.py:684-699 | over every run in which caller and callee stay suspended and no group settles the wait, the sweeper neither drops it nor answers it, however often it comes due |
| LivenessRuns.ResumesIff | src/by_framework/worker/worker.py:845-936 | a delivery resumes its caller exactly if the gate lets it through and it has no known group, or one that is not aborted and lacks no other result |
| LivenessRuns.OwnReplyClaims | src/by_framework/core/wait_gate.py:80-110 | the entry of a sub-agent wait is claimed only by a copy of its own reply |
| RenewalBudget.StandInsApart | src/by_framework/core/wait_sweeper.py:1080-1106 | two stand-ins for one entry are at least one increment apart unless it was registered again |
| RenewalBudget.OriginStep | src/by_framework/core/wait_sweeper.py:1080-1106 | the recorded origin changes only when a renewal of this very entry writes it for the first time |
| RenewalBudget.RenewalBound | src/by_framework/core/wait_sweeper.py:713-748 | over every run the ceiling stands still through renewals of all kinds, and live-callee renewals number at most ceil(grace / increment) |
| RenewalBudget.CeilingDecides | src/by_framework/core/wait_sweeper.py:713-748 | after every such run a live callee buys a renewal before the ceiling and gets a timeout stand-in from it on |
| RenewalBudget.ReRegistrationBudget | src/by_framework/core/wait_sweeper.py:873-886 | a wait registered again is measured from its new deadline exactly when no other origin is still stored for it |
| WaitChains.OverdueFailsIff | src/by_framework/core/wait_sweeper.py:684-699 | of an overdue wait only a suspended callee keeps the stand-in back |
| WaitChains.StandInDueIff | src/by_framework/core/wait_sweeper.py:684-699 | at any instant some stand-in is due among overdue waits exactly when not all callees are suspended |
| WaitChains.DeepestWaitFails | src/by_framework/core/wait_sweeper.py:684-699 | in any finite acyclic set of overdue waits there is a deepest one, and a stand-in is due for it |
| WaitTrees.TreeUnwindsFromBelow | src/by_framework/core/wait_sweeper.py:684-699 | over every run, for callers suspended on single calls, groups or several of either, and whatever records change and whoever is cancelled: a reply or stand-in for a caller goes out only after the callee it speaks for left suspension, and a caller is woken only after all callees of one of its calls did, so a tree of waits unwinds from its deepest waits or from a cancelled member |
| WaitTrees.ResumedIsFreed | src/by_framework/worker/worker.py:845-936 | a delivery that resumes a caller, alone or as the last of its group, finds all callees of one of its calls out of suspension; a group reply that only joins resumes nobody |
| WaitTrees.KnotIsNeverResolved | src/by_framework/core/wait_sweeper.py:684-699 | suspended callers none of whose calls can complete without another of them stay suspended over every run in which nobody of them is cancelled, whatever replies from outside join their groups, and no stand-in that speaks for one of them comes due |
| WaitTrees.CycleIsKnot | src/by_framework/core/wait_sweeper.py:684-699 | a cycle of callers each of which waits for the next alone is such a knot |
| GroupAccounting.GroupReply | src/by_framework/worker/worker.py:845-936 | a reply of the group joins exactly when its member is still waiting, and then adds exactly its own sub-task |
| GroupAccounting.AccountsStep | src/by_framework/worker/worker.py:845-936 | one step keeps the group's books and fires the aggregate exactly at the last join |
| GroupAccounting.GroupCountedOnce | src/by_framework/worker/worker.py:845-936 | over every run completed equals the number of distinct results, never exceeds n, and the aggregate fires once if all are in and not before |
| GroupAccounting.AggregateIsComplete | src/by_framework/worker/worker.py:923-933 | the aggregate the caller is resumed with holds a result of every sub-task, the last reply's own status and content included |
| GroupAccounting.ResultIsJoinedReply | src/by_framework/worker/worker.py:871-907 | over every run a sub-task has a result exactly once a copy of its reply was let through, and it is that copy's status and content |
| AbortedGroups.LateReplyIsDiscarded | src/by_framework/worker/worker.py:856-869 | a reply of an aborted group resumes nobody and changes neither results nor groups |
| AbortedGroups.EntryOfDeadGroup | src/by_framework/core/wait_sweeper.py:561-630 | a due entry of an aborted group never gets a stand-in, and is dropped unless its caller may still run or it names no sub-task |
| AbortedGroups.DeadForGood | src/by_framework/worker/worker.py:856-869 | over every run in which a group stays aborted no reply of it resumes its caller and no stand-in of it goes out, and its counter and results stand still |
| CommandInterleaving.GateIsOneStep | src/by_framework/core/wait_gate.py:132-160 | a gate call run command by command without interruption is the one-step gate |
| CommandInterleaving.CommandLedger | src/by_framework/core/wait_gate.py:139-147 | the ledger at single-command granularity, over every interleaving of gate calls, registrations, renewals, removals and the passing of time |
| CommandInterleaving.CopiesRace | src/by_framework/core/wait_gate.py:139-160 | of any number of copies of any reply racing through the gate at most one claims its own wait and at most one the caller's ask_user wait, and whoever else is let through looked for the own wait's marker before the winner set it |
| CommandInterleaving.RaceWakesOnceIff | src/by_framework/core/wait_gate.py:139-160 | a finished race for a live wait lets exactly one copy through if and only if no copy overtook the winner's marker, or the marker of an already answered ask_user wait stopped the overtakers |
| CommandInterleaving.RaceClearsAskUserIff | src/by_framework/core/wait_gate.py:80-110 | a finished race has cleared a live ask_user wait of the same caller exactly if some copy overtook the winner's marker |
| CommandInterleaving.OvertakersFate | src/by_framework/core/wait_gate.py:139-160 | an overtaker claims the ask_user wait, is stopped by its marker, or passes as unregistered, according to that wait |
| CommandInterleaving.BothCopiesAllowed | src/by_framework/core/wait_gate.py:139-160 | for every reply with a live wait, a schedule in which the second copy runs between the first's removal and its marker: it is decided by the next candidate alone, so it claims a live ask_user wait, or passes where there is none |
| CommandInterleaving.LateRenewalRevives | src/by_framework/core/wait_sweeper.py:1105-1106 | for every reply, a renewal written after the claim puts the entry back and the late reply claims it again; written before, the reply is denied |
| AgentContexts.AgentContext.RegisterWait | src/by_framework/worker/context.py:474-534 | a registration sets the score to now plus the non-negative timeout and voids the member's marker |
| AgentContexts.AgentContext.AskUser | src/by_framework/worker/context.py:536-586 | the ask_user wait has an empty sub-task id, the given or the default timeout, and suspends for the user |
| AgentContexts.AgentContext.DispatchSingleTask | src/by_framework/worker/context.py:686-949 | a rejected dispatch restores all three flags and registers nothing; an accepted one records, registers and sends or leaves a pending delivery, as routing answers; store, pending stream and flags as they are left |
| AgentContexts.AgentContext.QueueUndispatchedMemberFailure | src/by_framework/worker/context.py:1164-1247 | a refused member is registered all the same and stood in for when there is an agent type to address |
| AgentContexts.AgentContext.DispatchMember | src/by_framework/worker/context.py:1072-1125 | one turn of the fan-out loop |
| AgentContexts.AgentContext.DispatchEach | src/by_framework/worker/context.py:1072-1125 | the loop takes every member in turn up to the first send that raises, and leaves the flags as set before it |
| AgentContexts.AgentContext.CallAgents | src/by_framework/worker/context.py:993-1162 | a fan-out refuses an empty batch and a pinned id over several tasks and stops at the first raise; a waiting one that fails leaves its group aborted, one that returns leaves it open at n; store, pending stream, stand-ins and flags as they are left |
| AgentContexts.AgentContext.FlushPendingGroupReplies | src/by_framework/core/wait_reply.py:124-167 | a flush empties the pending list and appends each stand-in |
| AgentContexts.DispatchPlacedOnce | src/by_framework/worker/context.py:774-949 | under every policy a dispatch that returns accepted is placed exactly once, on the control stream of the agent type it names or among the pending deliveries for its target; a refused or raising one nowhere; a fallback that names no agent type leaves the target's own stream |
| AgentContexts.UntouchedTaskIsAnswered | src/by_framework/worker/context.py:861-912 | a sub-task dispatched or refused that nobody has touched since is answered once its wait is due: the stand-in goes to the agent type that dispatched it and says never started or, of a refused one, failed |
| AgentContexts.RefusedMemberSays | src/by_framework/worker/context.py:1200-1247 | the stand-in of a refused member is a failure addressed at the caller that says why routing refused it |
| AgentContexts.MembersPlacedOnce | src/by_framework/worker/context.py:1072-1125 | in a waiting fan-out that returns, sends plus stand-ins are n, and every sub-task has exactly one of the two |
| AgentContexts.FanOutAccounts | src/by_framework/worker/context.py:1051-1125 | it registers n distinct members and leaves the group's books in order |
| AgentContexts.FanOutAggregatesOnce | src/by_framework/worker/context.py:1051-1125 | from such a fan-out on, in every run in which members leave only through the gate, the group is aggregated exactly when all n results are in, and once |
| AgentContexts.GroupOpensInOrder | src/by_framework/worker/context.py:1051-1070 | the group's books are in order as soon as it is opened, before any member is registered |
| AgentContexts.MemberTurnKeepsBooks | src/by_framework/worker/context.py:1072-1125 | each turn of the loop keeps them, whatever replies arrived in between, and is a registration of a fresh member |
| AgentContexts.InterleavedFanOutAggregatesOnce | src/by_framework/worker/context.py:1072-1125 | with registrations and replies interleaved in any order from the opening on, the group is aggregated exactly when all n results are in, and once |
| AgentContexts.StandInsClaimTheirEntries | src/by_framework/worker/context.py:1200-1247 | on each queued stand-in the gate claims the entry of the member it stands in for |
| AgentContexts.FlushKeepsOrder | src/by_framework/core/wait_reply.py:124-167 | every stream receives its own stand-ins behind what it held, in the order queued |
| AgentContexts.FlagsAgreeWithIndex | src/by_framework/worker/context.py:718-726 | after any calls that return, suspended, a named state and a registered wait coincide, the state is that of the latest call not rejected, and the permission is handed on exactly if some call not rejected did not wait |
| ExecutionCounters.WorkerRegistry.UpdateWorkerExecutionStats | src/by_framework/core/registry.py:717-788 | the increments move each counter of the new record's worker by the difference of the two records' shares, and no other |
| ExecutionCounters.WorkerRegistry.IncrementCounters | src/by_framework/core/registry.py:733-759 | the counter half of it, for every combination of old and new worker and status |
| ExecutionCounters.WorkerRegistry.InitializeExecution | src/by_framework/core/registry.py:599-629 | initializing writes the record and no statistics |
| ExecutionCounters.WorkerRegistry.SaveExecution | src/by_framework/core/registry.py:858-892 | a save replaces the record and updates the statistics from what was stored |
| ExecutionCounters.WorkerRegistry.UpdateExecutionStatus | src/by_framework/core/registry.py:790-821 | a status update, with the worker it may carry, rewrites a known record and stamps its first start; an unknown id changes nothing |
| ExecutionCounters.WorkerRegistry.UpdateExecutionFields | src/by_framework/core/registry.py:834-856 | a field update rewrites a known record and leaves everything not named |
| ExecutionCounters.WorkerRegistry.MarkExecutionCancelling | src/by_framework/core/registry.py:946-980 | CANCELLING, flagged, with the reason |
| ExecutionCounters.WorkerRegistry.MarkCancelRequested | src/by_framework/core/registry.py:982-1017 | flagged only; the status stays |
| ExecutionCounters.WorkerRegistry.MarkExecutionFinished | src/by_framework/core/registry.py:1019-1067 | the final status, and the finish time if it is terminal |
| ExecutionCounters.RecountWrite | src/by_framework/core/registry.py:717-788 | writing one record moves each counter, recounted as numbers of records, by the difference of the two shares |
| ExecutionCounters.CountersOverRun | src/by_framework/core/registry.py:717-788 | over every run of writes a counter is ahead of the recount by exactly the shares of the records taken away from its worker |
| ExecutionCounters.CountersAgreeIff | src/by_framework/core/registry.py:717-788 | from agreement, a run of writes, initializations of stored ids included, ends with every counter equal to the number of records it stands for exactly when no write took a record away from a worker |
| ExecutionCounters.AgreementSays | src/by_framework/core/registry.py:717-788 | agreement means: total_count is the number of the worker's records, active_count of its unfinished ones, and each status counter of those in that status, up to case |
| ExecutionCounters.LowerEach | src/by_framework/core/registry.py:714-715 | a status counter is named by the status in lower case, letter by letter |
| ExecutionCounters.LatestIsStored | src/by_framework/core/registry.py:790-1067 | over every run of writes a record has the status and the worker last asked for it |
| ExecutionCounters.UpdatesKeep | src/by_framework/core/registry.py:790-1067 | an update keeps the ids, the first start once stamped and a cancel request once made; the finish time is stamped exactly by a finish in a final status, the request by either cancel mark |
| ExecutionCounters.IndexStepIff | src/by_framework/core/registry.py:777-782 | a write, an initialization of a stored id included, keeps the active indexes true exactly when it takes no active record away from a worker |
| ExecutionCounters.IndexAgreesOverRun | src/by_framework/core/registry.py:777-782 | over every run without such writes each active index lists exactly the worker's active records |
| ExecutionCounters.ResumeElsewhereLeaks | src/by_framework/worker/runner.py:651-678 | a suspended execution resumed by another worker leaves the first one counting it, in total and as active |
| ExecutionCounters.RejectedResumeLeaks | src/by_framework/client/client.py:793-876 | a suspended execution whose RESUME is rejected is initialized over as FAILED without a worker, and the worker it had goes on counting and listing it |
| CascadeCancel.WalkStep | src/by_framework/client/client.py:507-521 | one turn of the loop keeps, for any records: no path from the target is queued twice, everything queued is one, every continuation of a visited path is queued, and only those |
| CascadeCancel.WalkEndsIff | src/by_framework/client/client.py:507-521 | for any records, however many share a message id, the loop ends exactly when no descendant of the target descends from itself; there is no visited set |
| CascadeCancel.CycleIsAtTarget | src/by_framework/client/client.py:502-521 | with distinct message ids such a cycle lies below the target exactly when the target itself is on it |
| CascadeCancel.ListedOnceIff | src/by_framework/client/client.py:502-521 | every node is listed once exactly when no two descendants of the target have a child in common, so two records of one message id get their sub-tasks listed, marked and commanded twice |
| CascadeCancel.DistinctIsOnce | src/by_framework/client/client.py:502-521 | with distinct message ids every descendant is listed exactly once |
| CascadeCancel.GatewayClient.BuildChildrenMap | src/by_framework/client/client.py:489-499 | the map holds exactly the children of each non-empty parent id, in listing order |
| CascadeCancel.GatewayClient.CollectTree | src/by_framework/client/client.py:502-521 | the visits correspond one to one with the paths from the target, and the two lists are the visits split by terminal status: together exactly the descendants of the target, with distinct message ids each once |
| CascadeCancel.GatewayClient.MarkAll | src/by_framework/client/client.py:523-548 | marking changes exactly the listed records, once or more often listed, keeps status where terminal, and keeps the worker counters true |
| CascadeCancel.GatewayClient.SendCommands | src/by_framework/client/client.py:541-574 | one command to the worker of each node that has one, in order |
| CascadeCancel.GatewayClient.CancelTask | src/by_framework/client/client.py:447-584 | every live descendant becomes CANCELLING, every finished one is only flagged, no other record changes, a command goes out for each visit to a live one that has a worker, and the answer counts the visits |
| CascadeCancel.GatewayClient.CancelSession | src/by_framework/client/client.py:586-677 | the same for every execution of a session |
| CascadeCancel.EachOnce | src/by_framework/client/client.py:507-521 | splitting a listing without repeats by status repeats nothing |
| CascadeCancel.ListedIsCancelled | src/by_framework/client/client.py:523-548 | every listed record is flagged with the reason, live ones are CANCELLING, finished ones keep their status, and worker, ids and times stay |
| CascadeCancel.CommandForEachVisit | src/by_framework/client/client.py:541-574 | a record with a worker gets one command for each time it is listed, to that worker, and no other command goes out |
| CheckpointedConsumer.DataConsumer.Begin | src/by_framework/client/client.py:276-279 | a run starts at the stored checkpoint |
| CheckpointedConsumer.DataConsumer.ReadDataMessages | src/by_framework/client/client.py:161-185 | a read returns up to count entries behind a position, and raises if any of them does not decode |
| CheckpointedConsumer.DataConsumer.ReadOn | src/by_framework/client/client.py:280-286 | the loop reads on behind the last entry; a raise ends the run |
| CheckpointedConsumer.DataConsumer.HandOverNext | src/by_framework/client/client.py:287-288 | entries are handed over in the order read, uncommitted |
| CheckpointedConsumer.DataConsumer.CommitDataMessage | src/by_framework/client/client.py:289-294 | the commit follows the body and moves the checkpoint to that entry |
| CheckpointedConsumer.Step | src/by_framework/client/client.py:261-294 | each command, crash and restart keeps the consumer in order |
| CheckpointedConsumer.AtLeastOnce | src/by_framework/client/client.py:261-294 | over every run with crashes and restarts, everything up to the checkpoint was handed over and its body completed, and each run hands over in stream order without gaps |
| CheckpointedConsumer.RepeatsBounded | src/by_framework/client/client.py:261-294 | total hand-overs are at most the distinct entries plus the restarts |
| CheckpointedConsumer.PoisonBlocks | src/by_framework/client/client.py:161-185 | an undecodable entry within one read of the checkpoint stops every later run before it hands over anything |
| CheckpointedConsumer.PoisonIsReachedIff | src/by_framework/client/client.py:161-185 | with a fixed read count the entries before the first undecodable one can all be handed over and committed, and any can be handed over at all, exactly if a read from the checkpoint stops short of it |
| CheckpointedConsumer.WithoutCrash | src/by_framework/client/client.py:261-294 | without a crash and with a fixed read count no run hands over or commits anything behind the last whole slice before the first undecodable entry, some run commits everything up to it, and from then on nothing is handed over in any run, crashes and restarts included |
| CheckpointedConsumer.NeverPastPoison | src/by_framework/client/client.py:261-294 | whatever counts it reads with, no run commits an undecodable entry or one behind it |
| WorkerLeases.LeaseRegistry.ClaimWorkerId | src/by_framework/core/registry.py:515-544 | a claim succeeds only over nothing and is not yet seen |
| WorkerLeases.LeaseRegistry.HeartbeatCas | src/by_framework/core/registry.py:31-66 | the heartbeat script writes exactly over nothing or over the same owner, and tells an unparseable key apart |
| WorkerLeases.LeaseRegistry.HeartbeatWorker | src/by_framework/core/registry.py:339-372 | a heartbeat succeeds and renews exactly when the script wrote |
| WorkerLeases.LeaseRegistry.RefreshWorkerIdLock | src/by_framework/core/registry.py:546-570 | a refresh needs the instance's own token on the key and keeps the payload |
| WorkerLeases.LeaseRegistry.ReleaseScript | src/by_framework/core/registry.py:98-127 | the release script deletes on a matching token, and unconditionally on an empty one |
| WorkerLeases.LeaseRegistry.ReleaseWorkerId | src/by_framework/core/registry.py:572-597 | a release without any token is refused; a successful one forgets the token |
| WorkerLeases.LeaseRegistry.MarkWorkerInactive | src/by_framework/core/registry.py:400-411 | falls back to the empty token |
| WorkerLeases.LeaseRegistry.CheckWorkerOnline | src/by_framework/core/registry.py:219-239 | online means any legacy presence, or a payload seen since |
| WorkerLeases.HolderStep | src/by_framework/core/registry.py:31-127 | a holder keeps its lease in every step but its own release, an empty-token release and expiry, and then nobody holds it |
| WorkerLeases.ExclusiveUntilEnded | src/by_framework/core/registry.py:31-127 | after one token's successful claim, heartbeat or refresh no other token gets one through until that lease ended |
| WorkerLeases.ClaimTakesFreeKey | src/by_framework/core/registry.py:515-544 | exactly a free key can be claimed, and the claimant holds it without being online yet |
| WorkerLeases.RenewsIff | src/by_framework/core/registry.py:31-66 | over a held key a heartbeat or refresh with a token gets through exactly for its holder, one without a token only over a key nobody's token holds |
| WorkerLeases.HeldByBeats | src/by_framework/core/registry.py:31-127 | a holder that heartbeats or refreshes in time keeps its lease over every run, whatever other tokens do, unless its own or the empty token releases it |
| WorkerLeases.ReleaseForgets | src/by_framework/core/registry.py:572-597 | after a release the key is free and the instance can neither refresh nor release |
| WorkerLeases.LegacyPresence | src/by_framework/core/registry.py:35-66 | what older versions wrote counts as online; a plain text is renewed only by the token it spells, a one only without a token, and what does not parse by nobody |
| WorkerLeases.MarkInactiveTakesIff | src/by_framework/core/registry.py:400-411 | marking inactive takes the lease from its holder exactly when the token used is the holder's or empty |
| WorkerLeases.OnlineIffHeard | src/by_framework/core/registry.py:219-239 | over every run a lease held with a token is reported online exactly when that token had a successful heartbeat |
| WorkerMembership.WorkerManager.RegisterWorkerMembership | src/by_framework/core/registry.py:311-337 | stale types are undeclared and left, new ones declared and, unless denied, joined |
| WorkerMembership.WorkerManager.UnregisterWorkerMembership | src/by_framework/core/registry.py:385-398 | everything declared is left and undeclared |
| WorkerMembership.WorkerManager.RemoveWorkerFromTypeMembers | src/by_framework/core/registry.py:1386-1397 | every declared type is left, the declaration stays |
| WorkerMembership.WorkerManager.RestoreWorkerToTypeMembers | src/by_framework/core/registry.py:1399-1415 | every declared type not denied is joined |
| WorkerMembership.WorkerManager.Suspend | src/by_framework/admin/worker_manager.py:53-66 | lifecycle, member sets and command of a suspension |
| WorkerMembership.WorkerManager.Resume | src/by_framework/admin/worker_manager.py:68-81 | lifecycle, member sets and command of a resumption |
| WorkerMembership.WorkerManager.Evict | src/by_framework/admin/worker_manager.py:83-107 | lifecycle, member sets and command of an eviction |
| WorkerMembership.WorkerManager.DenyWorkerForType | src/by_framework/core/registry.py:1419-1428 | the type is denied and left at once |
| WorkerMembership.WorkerManager.AllowWorkerForType | src/by_framework/core/registry.py:1430-1432 | the denial ends; membership returns only with the next registration or resumption |
| WorkerMembership.WorkerManager.RefreshMembership | src/by_framework/worker/heartbeat.py:209-228 | a heartbeat cycle registers only while the lifecycle is active |
| WorkerMembership.AdmittedOverRun | src/by_framework/core/registry.py:311-337 | over every run of operations a member has declared the type and is not denied it |
| WorkerMembership.MembershipAfter | src/by_framework/admin/worker_manager.py:53-123 | exactly the declared types not denied after a registration or resumption, none after a suspension, eviction or unregistration, others' sets unchanged |
| WorkerMembership.DeclaredAfter | src/by_framework/core/registry.py:311-398 | exactly what a worker declares, whether it is known, and what it is denied after each operation |
| WorkerMembership.ToldInOrder | src/by_framework/admin/worker_manager.py:53-107 | over every run a worker is told of its suspensions, resumptions and evictions, once each and in order |
| WorkerMembership.OnlyActiveStepIff | src/by_framework/worker/heartbeat.py:209-228 | an operation keeps suspended workers out of sight exactly if it is not a registration, by a heartbeat cycle on a stale lifecycle or by the deprecated register_worker, of types the suspended worker is not denied |
| WorkerMembership.OnlyActiveOverRun | src/by_framework/worker/heartbeat.py:209-228 | with each heartbeat cycle one step, a suspended or evicted worker is in no member set until resumed or cleared |
| Availability.AvailabilityRouter.CheckControlPlanePolicy | src/by_framework/core/availability.py:243-269 | an open circuit or a spent quota rejects before anything else |
| Availability.AvailabilityRouter.WaitForWakeupDecision | src/by_framework/core/availability.py:405-447 | the first decision for this execution that is not a progress report |
| Availability.AvailabilityRouter.QueuePendingDelivery | src/by_framework/core/availability.py:320-342 | one delivery on the pending stream, naming the target's control stream |
| Availability.AvailabilityRouter.WakeAndWaitForWorker | src/by_framework/core/availability.py:344-403 | ready counts only if a worker is online after the wait |
| Availability.AvailabilityRouter.PrepareDelivery | src/by_framework/core/availability.py:196-241 | routing answers by the table, writes the pending stream exactly when it says queued, and asks for a wake-up exactly when a waking policy is not settled at once |
| Availability.SendMessage | src/by_framework/client/client.py:812-1003 | an accepted send puts its command on exactly one control stream or the pending stream, a rejected one nowhere |
| Availability.PlacedWithAReaderIff | src/by_framework/core/availability.py:344-403 | an accepted send goes to the target's or a named replacement's stream or is queued, except when a fallback names no agent type: then it goes to a stream with an empty name |
| Availability.FailFastNeverQueues | src/by_framework/core/availability.py:196-241 | the policy of a fan-out never leaves a delivery pending |
| Availability.AcceptedIff | src/by_framework/core/availability.py:196-241 | exactly when a send is accepted and when it is left pending, in terms of circuits, quotas, online types, fallbacks, policy and the decision |
| Availability.RefusalSaysWhy | src/by_framework/core/availability.py:243-269 | a rejection carries the code of its reason, open circuit before spent quota before unavailable, and no stream; nothing accepted carries one |
| Availability.FirstDecisionSpeaks | src/by_framework/core/availability.py:405-447 | the decision taken is the first for this execution, or for any, that is ready, rejected or a fallback |
| Availability.DirectSendPlaced | src/by_framework/client/client.py:399-415 | a send at a worker goes to that worker exactly if it is online or nobody asks |
| DeliveryGate.DispatchReady | src/by_framework/core/delivery_gate.py:19-49 | a release places exactly the matching deliveries of the slice it read, in sorted order, and counts them |
| DeliveryGate.MatchingInOrder | src/by_framework/core/delivery_gate.py:33-38 | what matches of a slice is what matches of its parts, in the order of arrival |
| DeliveryGate.SortIsStable | src/by_framework/core/delivery_gate.py:39-42 | descending priority, nothing lost or added, arrival order within each priority |
| DeliveryGate.EachStreamGetsItsOwn | src/by_framework/core/delivery_gate.py:39-49 | every stream receives its own released commands in the released order |
| DeliveryGate.SecondReleaseRepeats | src/by_framework/core/delivery_gate.py:19-49 | reading removes nothing, so a second release from the same position places every command again |
| DeliveryGate.ReleasedIffRead | src/by_framework/core/delivery_gate.py:19-49 | of any kind of queued delivery a call releases exactly as many as it asks for by execution and its slice reaches, equal ones included; behind count older entries none |
| DeliveryGate.PlacedAsOftenAsCovered | src/by_framework/core/delivery_gate.py:19-49 | over any sequence of calls a command is put on a stream as often as calls cover queued deliveries of that command to that stream, summed over the deliveries |
| DeliveryGate.PlacedOnceIff | src/by_framework/core/delivery_gate.py:19-49 | a delivery without an equal one is put on its stream exactly as often as calls cover it, so once exactly when one does |

## Left out

- Redis errors and the branches that soften them: a gate that cannot reach Redis allows the reply, a failed registration is logged, a failed flush is left to the sweeper, an entry that raises is counted as an error. Steps here succeed.
- Expiry of keys other than the lease: renewal origins, markers, task groups, session registries and statistics live for ever here, so "the session of a pruned entry is gone" is not claimed, only the age of its last write.
- JSON, SHA-1 and UUIDs: payloads are values, marker and origin keys are the member itself, fresh ids are parameters assumed distinct where a property needs it.
- Execution records are keyed by session and message id in the liveness part and by execution id in the registry part; the message map between the two is a parameter of the cancel operation.
- Record fields that no modelled decision reads, timelines, snapshots, history indexes and the lastStarted and lastFinished marks of the statistics.
- WaitSweeper.WaitIndexSweeper.CancelTimedOutChild: records the request; the cascade it delegates to is modelled in CascadeCancel on the registry's own records, not on the store the sweeper reads.
- The sweep lock beyond whether it was free: the source calls it advisory, and the run properties allow any interleaving of examinations.
- Python's own str.replace and sorted are recursive functions; how evenly the hash spreads sessions over shards is not claimed.
- Characters are Dafny's; lower-casing a status and trimming it are modelled for ASCII.
- The asynchronous generator of the consumer is a state machine with one method per stretch of code between two suspension points; trimming of the data stream and consumption with auto_commit are not modelled.
- Two consumers of one name at the same time are not modelled, as the source assumes them away.
- CascadeCancel.GatewayClient.CancelTask: requires that no descendant of the target descends from itself, because the loop does not end otherwise; WalkEndsIff shows the condition is exact. Session mismatch and records changed by others during the walk are not modelled.
- ExecutionCounters.WorkerRegistry.UpdateExecutionStatus: read and write are one step, while the source reads and writes in separate commands, so lost updates between concurrent writers are not modelled; the same holds of its sister methods.
- ExecutionCounters.CountersAgreeIff: assumes that an initialized record names no worker, which holds of all three places that initialize one (client.py:965, context.py:861, registry.py:1116); the id may be new or stored.
- GroupAccounting.GroupCountedOnce: assumes that members leave the index only through the gate, because a reply that finds neither entry nor marker is allowed and counted again.
- WaitTrees.TreeUnwindsFromBelow: assumes that a caller, until woken, registers only waits of the calls it made, that a reply comes from a callee not recorded suspended, or woken or cancelled, and that the groups of unwoken callers are left to gate and join; that is what the worker does and no store command enforces it. Records may change in any way.
- SweepRuns.PassRescues: assumes that each member stands in one shard only, its session's, where every registration puts it.
- RenewalBudget.RenewalBound: assumes the callee's recorded creation time does not change and the origin is not zero.
- AgentContexts.AgentContext.DispatchSingleTask: states the store and the pending stream it leaves; that the wait is registered before the command goes out is asserted in its body for direct sends; it is false of queued deliveries, whose pending record is written first.
- Availability.AvailabilityRouter.PrepareDelivery: what the control plane answers during one send is a parameter, and wake-up requests are counted by execution id only.
- CommandInterleaving.RaceWakesOnceIff: only copies of the one reply run in the race; a registration or renewal that interferes is covered by CommandLedger and LateRenewalRevives.
- DeliveryGate.DispatchReady: pending records that do not decode, and blocking on an empty stream, are not modelled.
- WorkerLeases.HolderStep: a lease with a zero time to live counts as expired at once; Redis would refuse it on SET.
- Legacy registration helpers, worker discovery, service-discovery caches, retry back-off, metrics, trace spans, plugins, sandboxes, configuration, command line, adapters and HTTP clients: plumbing or easy members.
