/**
 The sweeper: triages wait-index entries that came due against the execution
 records and worker leases, and prunes entries too old to be asked about.
 */
module WaitSweeper {
  import opened Wrappers
  import opened WaitIndex
  import opened WaitStore
  import opened WaitGate
  import opened WaitReply

  const CHILD_WORKER_LOST := "CHILD_WORKER_LOST"
  const CHILD_TIMEOUT := "CHILD_TIMEOUT"
  const CHILD_NEVER_STARTED := "CHILD_NEVER_STARTED"
  const REPLY_LOST_RECOVERED := "REPLY_LOST_RECOVERED"

  datatype Outcome =
    | Malformed | CallerMissing | CallerTerminal | CallerLost | CallerNotSuspended | AskUserSkipped
    | GroupGone | GroupAborted | GroupAlreadyJoined | ChildWaiting | ChildAlive | Recovered
    | WorkerLost | NeverStarted | TimedOut | Unroutable

  datatype Action = DropEntry | LeaveEntry | RenewEntry | Emit(reply: Reply)

  /** What triage decides about one entry; cancelChild asks, after the reply, for the callee to be stopped. */
  datatype Verdict = Verdict(outcome: Outcome, action: Action, cancelChild: bool)

  datatype Settings = Settings(renewMaxMultiple: int, cancelOnTimeout: bool)

  datatype DueEntry = DueEntry(slot: Slot, deadlineMs: int, entry: Member)

  // ---------------------------------------------------------------- the triage table

  function Drop(outcome: Outcome): Verdict { Verdict(outcome, DropEntry, false) }
  function Renew(outcome: Outcome): Verdict { Verdict(outcome, RenewEntry, false) }

  function CallerAgentType(caller: Execution, child: Option<Execution>): string {
    if child.Some? && child.value.sourceAgentType != "" then child.value.sourceAgentType else caller.targetAgentType
  }

  /** A stand-in when the caller can be addressed; a plain renewal otherwise. */
  function Compensate(due: DueEntry, caller: Execution, child: Option<Execution>, outcome: Outcome,
                      status: string, errorCode: string, payload: Payload, cancelChild: bool): Verdict {
    var target := CallerAgentType(caller, child);
    if target == "" then Verdict(if payload.ResultPayload? then outcome else Unroutable, RenewEntry, cancelChild)
    else
      Verdict(outcome,
              Emit(StandInReply(due.entry, target, if child.Some? then child.value.targetAgentType else "",
                                status, errorCode, payload, SYNTHESIZED_BY_SWEEPER)),
              cancelChild)
  }

  function Fail(due: DueEntry, caller: Execution, child: Option<Execution>, outcome: Outcome,
                status: string, errorCode: string, cancelChild: bool): Verdict {
    Compensate(due, caller, child, outcome, status, errorCode,
               FailurePayload(errorCode, due.entry.childMessageId), cancelChild)
  }

  /** The deadline the renewal budget is measured from; a stored zero reads as nothing stored. */
  function Origin(db: Db, due: DueEntry): int {
    if due.slot.member in db.origins && db.origins[due.slot.member] != 0 then db.origins[due.slot.member]
    else due.deadlineMs
  }

  function Max(a: int, b: int): int { if a >= b then a else b }

  function Ceiling(originMs: int, createdAt: int, multiple: int): int {
    var elapsed := originMs - createdAt;
    var timeout := if createdAt <= 0 || elapsed <= 0 then DEFAULT_REPLY_TIMEOUT_MS else elapsed;
    originMs + Max(timeout * (multiple - 1), WAIT_RENEW_INCREMENT_MS)
  }

  function SingleCallGroup(childMessageId: string): string { "tg-single-" + childMessageId }

  function Recover(db: Db, due: DueEntry, caller: Execution, child: Execution): Verdict {
    var key := (SingleCallGroup(due.entry.childMessageId), due.entry.childMessageId);
    var childStatus := BaseStatus(child.status);
    if key !in db.results then
      Fail(due, caller, Some(child), Recovered,
           if childStatus == "FAILED" || childStatus == "CANCELLED" then childStatus else "FAILED",
           REPLY_LOST_RECOVERED, false)
    else
      var stored := db.results[key];
      Compensate(due, caller, Some(child), Recovered, if stored.status != "" then stored.status else childStatus,
                 REPLY_LOST_RECOVERED, ResultPayload(stored.content), false)
  }

  function TriageChild(db: Db, settings: Settings, due: DueEntry, caller: Execution): Verdict {
    match FindExecution(db, due.entry.sessionId, due.entry.childMessageId)
    case None => Fail(due, caller, None, NeverStarted, "FAILED", CHILD_NEVER_STARTED, false)
    case Some(child) =>
      var status := BaseStatus(child.status);
      if IsTerminal(status) then Recover(db, due, caller, child)
      else if IsSuspended(status) then Renew(ChildWaiting)
      else if child.workerId == "" then
        Fail(due, caller, Some(child), NeverStarted, "FAILED", CHILD_NEVER_STARTED, false)
      else if child.workerId !in db.online then
        Fail(due, caller, Some(child), WorkerLost, "FAILED", CHILD_WORKER_LOST, false)
      else if db.now < Ceiling(Origin(db, due), child.createdAt, settings.renewMaxMultiple) then Renew(ChildAlive)
      else
        Fail(due, caller, Some(child), TimedOut, "FAILED", CHILD_TIMEOUT,
             settings.cancelOnTimeout && !child.cancelRequested)
  }

  function GroupBlocks(db: Db, entry: Member): Option<Outcome> {
    if entry.taskGroupId !in db.groups then Some(GroupGone)
    else if db.groups[entry.taskGroupId].aborted then Some(GroupAborted)
    else if (entry.taskGroupId, entry.childMessageId) in db.results then Some(GroupAlreadyJoined)
    else None
  }

  /** The documented table, first matching row. */
  function Triage(db: Db, settings: Settings, slot: Slot, deadlineMs: int): Verdict {
    match DecodeMember(slot.member)
    case None => Drop(Malformed)
    case Some(entry) =>
      match FindExecution(db, entry.sessionId, entry.parentMessageId)
      case None => Drop(CallerMissing)
      case Some(caller) =>
        var status := BaseStatus(caller.status);
        if IsTerminal(status) then Drop(CallerTerminal)
        else if !IsSuspended(status) then
          if caller.workerId != "" && caller.workerId !in db.online then Drop(CallerLost) else Renew(CallerNotSuspended)
        else if entry.childMessageId == "" then Verdict(AskUserSkipped, LeaveEntry, false)
        else if entry.taskGroupId != "" && GroupBlocks(db, entry).Some? then Drop(GroupBlocks(db, entry).value)
        else TriageChild(db, settings, DueEntry(slot, deadlineMs, entry), caller)
  }

  function Renewed(db: Db, slot: Slot, deadlineMs: int): Db {
    db.(origins := if slot.member in db.origins then db.origins else db.origins[slot.member := deadlineMs],
        index := db.index[slot := db.now + WAIT_RENEW_INCREMENT_MS])
  }

  function Applied(db: Db, slot: Slot, deadlineMs: int, action: Action): Db {
    match action
    case DropEntry => db.(index := db.index - {slot})
    case LeaveEntry => db
    case RenewEntry => Renewed(db, slot, deadlineMs)
    case Emit(reply) => Renewed(db.(ctrl := Appended(db.ctrl, reply)), slot, deadlineMs)
  }

  function Examined(db: Db, settings: Settings, slot: Slot, deadlineMs: int): Db {
    Applied(db, slot, deadlineMs, Triage(db, settings, slot, deadlineMs).action)
  }

  /** A batch, with the scores it was read with, examined in order. */
  function SweptBatch(db: Db, settings: Settings, batch: seq<(Slot, int)>): Db {
    if batch == [] then db
    else
      var last := batch[|batch| - 1];
      Examined(SweptBatch(db, settings, batch[..|batch| - 1]), settings, last.0, last.1)
  }

  function BatchOutcomes(db: Db, settings: Settings, batch: seq<(Slot, int)>): multiset<Outcome> {
    if batch == [] then multiset{}
    else
      var last, before := batch[|batch| - 1], batch[..|batch| - 1];
      BatchOutcomes(db, settings, before)
      + multiset{Triage(SweptBatch(db, settings, before), settings, last.0, last.1).outcome}
  }

  /** The callee an examination asks to stop, if it does. */
  function CancelOf(verdict: Verdict, slot: Slot): seq<(string, string)> {
    match DecodeMember(slot.member)
    case None => []
    case Some(entry) => if verdict.cancelChild then [(entry.sessionId, entry.childMessageId)] else []
  }

  function BatchCancels(db: Db, settings: Settings, batch: seq<(Slot, int)>): seq<(string, string)> {
    if batch == [] then []
    else
      var last, before := batch[|batch| - 1], batch[..|batch| - 1];
      BatchCancels(db, settings, before)
      + CancelOf(Triage(SweptBatch(db, settings, before), settings, last.0, last.1), last.0)
  }

  lemma EmptyBatch(db: Db, settings: Settings, due: seq<(Slot, int)>)
    ensures SweptBatch(db, settings, due[..0]) == db && BatchOutcomes(db, settings, due[..0]) == multiset{}
    ensures BatchCancels(db, settings, due[..0]) == []
  {
  }

  /** What the next entry of a batch adds. */
  lemma BatchStep(db: Db, settings: Settings, due: seq<(Slot, int)>, i: nat)
    requires i < |due|
    ensures var before := SweptBatch(db, settings, due[..i]);
      var verdict := Triage(before, settings, due[i].0, due[i].1);
      && SweptBatch(db, settings, due[..i + 1]) == Examined(before, settings, due[i].0, due[i].1)
      && BatchOutcomes(db, settings, due[..i + 1]) == BatchOutcomes(db, settings, due[..i]) + multiset{verdict.outcome}
      && BatchCancels(db, settings, due[..i + 1]) == BatchCancels(db, settings, due[..i]) + CancelOf(verdict, due[i].0)
  {
    hide Triage, Examined, CancelOf;
    assert due[..i + 1][..i] == due[..i];
  }

  function WithScores(index: map<Slot, int>, slots: seq<Slot>): seq<(Slot, int)>
    requires forall slot :: slot in slots ==> slot in index
  {
    seq(|slots|, i requires 0 <= i < |slots| => (slots[i], index[slots[i]]))
  }

  // ---------------------------------------------------------------- the sweeper object

  class WaitIndexSweeper {
    const redis: Redis
    const settings: Settings
    const enabled: bool
    const pruneEnabled: bool
    const pruneIntervalSeconds: int
    var shardCursor: nat
    var lastPrune: Option<int>
    var cancelRequests: seq<(string, string)>

    constructor (redis: Redis, startShard: nat, renewMaxMultiple: int, cancelOnTimeout: bool,
                 enabled: bool, pruneEnabled: bool, pruneIntervalSeconds: int)
      requires startShard < WAIT_INDEX_SHARDS
      ensures this.redis == redis && shardCursor == startShard && lastPrune == None && cancelRequests == []
      ensures settings.renewMaxMultiple >= 1
      ensures (renewMaxMultiple >= 1 ==> settings.renewMaxMultiple == renewMaxMultiple)
      ensures this.enabled == enabled && this.pruneEnabled == pruneEnabled
      ensures this.pruneIntervalSeconds >= 1
      ensures (pruneIntervalSeconds >= 1 ==> this.pruneIntervalSeconds == pruneIntervalSeconds)
      ensures settings.cancelOnTimeout == cancelOnTimeout
    {
      this.redis := redis;
      this.settings := Settings(Max(1, renewMaxMultiple), cancelOnTimeout);
      this.enabled := enabled;
      this.pruneEnabled := pruneEnabled;
      this.pruneIntervalSeconds := Max(1, pruneIntervalSeconds);
      shardCursor, lastPrune, cancelRequests := startShard, None, [];
    }

    ghost predicate Did(before: Db, due: DueEntry, verdict: Verdict, outcome: Outcome)
      reads redis
    {
      outcome == verdict.outcome && redis.State() == Applied(before, due.slot, due.deadlineMs, verdict.action)
    }

    method ExtendDeadline(due: DueEntry)
      modifies redis`index, redis`origins
      ensures redis.State() == Renewed(old(redis.State()), due.slot, due.deadlineMs)
    {
      redis.SetOriginIfAbsent(due.slot.member, due.deadlineMs);
      redis.ZAdd(due.slot, redis.now + WAIT_RENEW_INCREMENT_MS);
    }

    method RenewalOrigin(due: DueEntry) returns (originMs: int)
      ensures originMs == Origin(redis.State(), due)
    {
      var stored := if due.slot.member in redis.origins then redis.origins[due.slot.member] else 0;
      originMs := if stored != 0 then stored else due.deadlineMs;
    }

    method RenewalCeiling(due: DueEntry, child: Execution) returns (limitMs: int)
      ensures limitMs == Ceiling(Origin(redis.State(), due), child.createdAt, settings.renewMaxMultiple)
    {
      var originMs := RenewalOrigin(due);
      var timeoutMs := originMs - child.createdAt;
      if child.createdAt <= 0 || timeoutMs <= 0 {
        timeoutMs := DEFAULT_REPLY_TIMEOUT_MS;
      }
      limitMs := originMs + Max(timeoutMs * (settings.renewMaxMultiple - 1), WAIT_RENEW_INCREMENT_MS);
    }

    method EmitReply(due: DueEntry, caller: Execution, child: Option<Execution>, status: string,
                     errorCode: string, payload: Payload) returns (emitted: bool)
      modifies redis`index, redis`origins, redis`ctrl
      ensures emitted == (CallerAgentType(caller, child) != "")
      ensures forall outcome, cancel :: Applied(old(redis.State()), due.slot, due.deadlineMs,
                Compensate(due, caller, child, outcome, status, errorCode, payload, cancel).action) == redis.State()
    {
      var target := if child.Some? then child.value.sourceAgentType else "";
      if target == "" {
        target := caller.targetAgentType;
      }
      if target == "" {
        ExtendDeadline(due);
        return false;
      }
      redis.XAdd(StandInReply(due.entry, target, if child.Some? then child.value.targetAgentType else "",
                              status, errorCode, payload, SYNTHESIZED_BY_SWEEPER));
      ExtendDeadline(due);
      return true;
    }

    method SynthesizeFailure(due: DueEntry, caller: Execution, child: Option<Execution>, errorCode: string,
                             outcome: Outcome, status: string) returns (result: Outcome)
      modifies redis`index, redis`origins, redis`ctrl
      ensures forall cancel :: Did(old(redis.State()), due,
                                   Fail(due, caller, child, outcome, status, errorCode, cancel), result)
    {
      var emitted := EmitReply(due, caller, child, status,
                               errorCode, FailurePayload(errorCode, due.entry.childMessageId));
      result := if emitted then outcome else Unroutable;
    }

    method RecoverFinishedChild(due: DueEntry, caller: Execution, child: Execution) returns (outcome: Outcome)
      modifies redis`index, redis`origins, redis`ctrl
      ensures Did(old(redis.State()), due, Recover(old(redis.State()), due, caller, child), outcome)
    {
      var key := (SingleCallGroup(due.entry.childMessageId), due.entry.childMessageId);
      var childStatus := BaseStatus(child.status);
      if key !in redis.results {
        var status := if childStatus == "FAILED" || childStatus == "CANCELLED" then childStatus else "FAILED";
        outcome := SynthesizeFailure(due, caller, Some(child), REPLY_LOST_RECOVERED, Recovered, status);
        assert Did(old(redis.State()), due,
                   Fail(due, caller, Some(child), Recovered, status, REPLY_LOST_RECOVERED, false), outcome);
        return;
      }
      var stored := redis.results[key];
      var status := if stored.status != "" then stored.status else childStatus;
      var emitted := EmitReply(due, caller, Some(child), status, REPLY_LOST_RECOVERED, ResultPayload(stored.content));
      return Recovered;
    }

    method CancelTimedOutChild(due: DueEntry, child: Execution)
      modifies this`cancelRequests
      ensures cancelRequests == old(cancelRequests)
        + if settings.cancelOnTimeout && !child.cancelRequested
          then [(due.entry.sessionId, due.entry.childMessageId)]
          else []
    {
      if settings.cancelOnTimeout && !child.cancelRequested {
        cancelRequests := cancelRequests + [(due.entry.sessionId, due.entry.childMessageId)];
      }
    }

    method ResolveUnsuspendedCaller(due: DueEntry, caller: Execution) returns (outcome: Outcome)
      modifies redis`index, redis`origins
      ensures Did(old(redis.State()), due,
                  if caller.workerId != "" && caller.workerId !in old(redis.online) then Drop(CallerLost)
                  else Renew(CallerNotSuspended), outcome)
    {
      if caller.workerId != "" && caller.workerId !in redis.online {
        var _ := redis.ZRem(due.slot);
        return CallerLost;
      }
      ExtendDeadline(due);
      return CallerNotSuspended;
    }

    method GroupBlocksCompensation(due: DueEntry) returns (blocked: Option<Outcome>)
      modifies redis`index
      ensures blocked == GroupBlocks(old(redis.State()), due.entry)
      ensures redis.State() == if blocked.Some? then Applied(old(redis.State()), due.slot, due.deadlineMs, DropEntry)
                               else old(redis.State())
    {
      if due.entry.taskGroupId !in redis.groups {
        var _ := redis.ZRem(due.slot);
        return Some(GroupGone);
      }
      if redis.groups[due.entry.taskGroupId].aborted {
        var _ := redis.ZRem(due.slot);
        return Some(GroupAborted);
      }
      if (due.entry.taskGroupId, due.entry.childMessageId) in redis.results {
        var _ := redis.ZRem(due.slot);
        return Some(GroupAlreadyJoined);
      }
      return None;
    }

    method ResolveChild(due: DueEntry, caller: Execution) returns (outcome: Outcome)
      modifies redis`index, redis`origins, redis`ctrl, this`cancelRequests
      ensures Did(old(redis.State()), due, TriageChild(old(redis.State()), settings, due, caller), outcome)
      ensures cancelRequests == old(cancelRequests)
        + if TriageChild(old(redis.State()), settings, due, caller).cancelChild
          then [(due.entry.sessionId, due.entry.childMessageId)] else []
    {
      ghost var before := redis.State();
      var child? := if due.entry.sessionId == "" || (due.entry.sessionId, due.entry.childMessageId) !in redis.executions
        then None else Some(redis.executions[(due.entry.sessionId, due.entry.childMessageId)]);
      if child?.None? {
        outcome := SynthesizeFailure(due, caller, None, CHILD_NEVER_STARTED, NeverStarted, "FAILED");
        assert Did(before, due, Fail(due, caller, None, NeverStarted, "FAILED", CHILD_NEVER_STARTED, false), outcome);
        return;
      }
      var child := child?.value;
      var status := BaseStatus(child.status);
      if IsTerminal(status) {
        outcome := RecoverFinishedChild(due, caller, child);
      } else if IsSuspended(status) {
        ExtendDeadline(due);
        outcome := ChildWaiting;
      } else if child.workerId == "" {
        outcome := SynthesizeFailure(due, caller, Some(child), CHILD_NEVER_STARTED, NeverStarted, "FAILED");
        assert Did(before, due,
                   Fail(due, caller, Some(child), NeverStarted, "FAILED", CHILD_NEVER_STARTED, false), outcome);
      } else if child.workerId in redis.online {
        var limitMs := RenewalCeiling(due, child);
        if redis.now < limitMs {
          ExtendDeadline(due);
          outcome := ChildAlive;
        } else {
          outcome := SynthesizeFailure(due, caller, Some(child), CHILD_TIMEOUT, TimedOut, "FAILED");
          var cancel := settings.cancelOnTimeout && !child.cancelRequested;
          assert Did(before, due, Fail(due, caller, Some(child), TimedOut, "FAILED", CHILD_TIMEOUT, cancel), outcome);
          CancelTimedOutChild(due, child);
        }
      } else {
        outcome := SynthesizeFailure(due, caller, Some(child), CHILD_WORKER_LOST, WorkerLost, "FAILED");
        assert Did(before, due,
                   Fail(due, caller, Some(child), WorkerLost, "FAILED", CHILD_WORKER_LOST, false), outcome);
      }
    }

    method ResolveEntry(slot: Slot, deadlineMs: int) returns (outcome: Outcome)
      modifies redis`index, redis`origins, redis`ctrl, this`cancelRequests
      ensures outcome == Triage(old(redis.State()), settings, slot, deadlineMs).outcome
      ensures redis.State() == Examined(old(redis.State()), settings, slot, deadlineMs)
      ensures cancelRequests
           == old(cancelRequests) + CancelOf(Triage(old(redis.State()), settings, slot, deadlineMs), slot)
    {
      var decoded := DecodeMember(slot.member);
      if decoded.None? {
        var _ := redis.ZRem(slot);
        return Malformed;
      }
      var entry := decoded.value;
      var due := DueEntry(slot, deadlineMs, entry);
      if entry.sessionId == "" || (entry.sessionId, entry.parentMessageId) !in redis.executions {
        var _ := redis.ZRem(slot);
        return CallerMissing;
      }
      var caller := redis.executions[(entry.sessionId, entry.parentMessageId)];
      var status := BaseStatus(caller.status);
      if IsTerminal(status) {
        var _ := redis.ZRem(slot);
        return CallerTerminal;
      }
      if !IsSuspended(status) {
        outcome := ResolveUnsuspendedCaller(due, caller);
        return;
      }
      if entry.childMessageId == "" {
        return AskUserSkipped;
      }
      if entry.taskGroupId != "" {
        var blocked := GroupBlocksCompensation(due);
        if blocked.Some? {
          return blocked.value;
        }
      }
      outcome := ResolveChild(due, caller);
    }

    method PruneShard(shard: nat) returns (removed: nat)
      modifies redis`index
      ensures redis.State() == Pruned(old(redis.State()), shard)
      ensures removed == |InScoreRange(old(redis.index), shard, redis.now - WAIT_PRUNE_AFTER_MS)|
    {
      removed := redis.ZRemRangeByScore(shard, redis.now - WAIT_PRUNE_AFTER_MS);
    }

    method ResolveDueEntries(shard: nat) returns (outcomes: multiset<Outcome>, ghost batch: seq<Slot>)
      modifies redis`index, redis`origins, redis`ctrl, this`cancelRequests
      ensures SweptOnce(old(redis.State()), settings, shard, batch, redis.State())
      ensures forall slot :: slot in batch ==> slot in old(redis.index)
      ensures outcomes == OutcomesOf(old(redis.State()), settings, batch)
      ensures cancelRequests == old(cancelRequests) + CancelsOf(old(redis.State()), settings, batch)
    {
      hide Triage, Examined, SweptBatch, BatchOutcomes, BatchCancels, CancelOf;
      var slots := redis.ZRangeByScore(shard, redis.now, WAIT_SWEEP_BATCH_LIMIT);
      batch := slots;
      var due := WithScores(redis.index, slots);
      outcomes := multiset{};
      EmptyBatch(redis.State(), settings, due);
      for i := 0 to |due|
        invariant redis.State() == SweptBatch(old(redis.State()), settings, due[..i])
        invariant outcomes == BatchOutcomes(old(redis.State()), settings, due[..i])
        invariant cancelRequests == old(cancelRequests) + BatchCancels(old(redis.State()), settings, due[..i])
      {
        BatchStep(old(redis.State()), settings, due, i);
        var outcome := ResolveEntry(due[i].0, due[i].1);
        outcomes := outcomes + multiset{outcome};
      }
      assert due[..|due|] == due;
    }

    method PruneIsDue(monotonicSeconds: int) returns (due: bool)
      modifies this`lastPrune
      ensures due <==>
                pruneEnabled
                && (old(lastPrune).Some? ==> monotonicSeconds >= old(lastPrune).value + pruneIntervalSeconds)
      ensures lastPrune == if due then Some(monotonicSeconds) else old(lastPrune)
    {
      if !pruneEnabled {
        return false;
      }
      if lastPrune.Some? && monotonicSeconds - lastPrune.value < pruneIntervalSeconds {
        return false;
      }
      lastPrune := Some(monotonicSeconds);
      return true;
    }

    /** claimed is what the shard's lock answers; outcomes and pruned are the counts the pass reports. */
    method SweepShard(shard: nat, pruning: bool, claimed: bool)
      returns (outcomes: multiset<Outcome>, pruned: nat, ghost cancels: seq<(string, string)>)
      modifies redis`index, redis`origins, redis`ctrl, this`cancelRequests
      ensures ShardPassed(old(redis.State()), settings, enabled, pruning, claimed, shard, redis.State(),
                          Report(outcomes, pruned, cancels))
      ensures cancelRequests == old(cancelRequests) + cancels
    {
      hide SweptOnce, OutcomesOf, CancelsOf, Pruned;
      outcomes, pruned, cancels := multiset{}, 0, [];
      if !pruning && !enabled {
        return;
      }
      if !claimed {
        return;
      }
      ghost var before := redis.State();
      if pruning {
        pruned := PruneShard(shard);
      }
      ghost var start := StartingState(before, pruning, shard);
      assert redis.State() == start;
      if enabled {
        ghost var batch;
        outcomes, batch := ResolveDueEntries(shard);
        cancels := CancelsOf(start, settings, batch);
        assert SweptOnce(start, settings, shard, batch, redis.State());
      }
    }

    /** One pass over every shard whose lock is free; claims answers for the shards in the order they are visited. */
    method SweepOnce(monotonicSeconds: int, claims: seq<bool>)
      returns (outcomes: multiset<Outcome>, pruned: nat,
               ghost states: seq<Db>, ghost reports: seq<Report>, ghost pruning: bool)
      requires |claims| == WAIT_INDEX_SHARDS
      modifies redis`index, redis`origins, redis`ctrl, this`cancelRequests, this`lastPrune, this`shardCursor
      ensures pruning <==>
                pruneEnabled
                && (old(lastPrune).Some? ==> monotonicSeconds >= old(lastPrune).value + pruneIntervalSeconds)
      ensures lastPrune == if pruning then Some(monotonicSeconds) else old(lastPrune)
      ensures shardCursor == (old(shardCursor) + 1) % WAIT_INDEX_SHARDS
      ensures Pass(states, reports, settings, enabled, pruning, claims, old(shardCursor))
      ensures states[0] == old(redis.State()) && states[WAIT_INDEX_SHARDS] == redis.State()
      ensures Report(outcomes, pruned, cancelRequests) == AddedUp(Report(multiset{}, 0, old(cancelRequests)), reports)
    {
      hide ShardPassed, AddedUp;
      outcomes, pruned := multiset{}, 0;
      var pruneNow := PruneIsDue(monotonicSeconds);
      pruning := pruneNow;
      var start := shardCursor;
      states, reports := [redis.State()], [];
      ghost var none := Report(multiset{}, 0, old(cancelRequests));
      NothingAdded(none);
      for offset := 0 to WAIT_INDEX_SHARDS
        invariant |states| == offset + 1 && states[0] == old(redis.State()) && states[offset] == redis.State()
        invariant |reports| == offset && Report(outcomes, pruned, cancelRequests) == AddedUp(none, reports)
        invariant forall k :: 0 <= k < offset ==>
          ShardPassed(states[k], settings, enabled, pruning,
                      claims[k], (start + k) % WAIT_INDEX_SHARDS, states[k + 1], reports[k])
        invariant shardCursor == start && lastPrune == if pruning then Some(monotonicSeconds) else old(lastPrune)
      {
        var shard := (start + offset) % WAIT_INDEX_SHARDS;
        ghost var cancels;
        var found, removed;
        found, removed, cancels := SweepShard(shard, pruneNow, claims[offset]);
        outcomes, pruned := outcomes + found, pruned + removed;
        AddedOne(none, reports, Report(found, removed, cancels));
        states, reports := states + [redis.State()], reports + [Report(found, removed, cancels)];
      }
      shardCursor := (start + 1) % WAIT_INDEX_SHARDS;
    }
  }

  /** What one shard's pass reports: its outcomes by kind, the entries pruned and the callees asked to stop. */
  datatype Report = Report(outcomes: multiset<Outcome>, pruned: nat, cancels: seq<(string, string)>)

  function AddedUp(start: Report, reports: seq<Report>): Report {
    if reports == [] then start
    else
      var before, last := AddedUp(start, reports[..|reports| - 1]), reports[|reports| - 1];
      Report(before.outcomes + last.outcomes, before.pruned + last.pruned, before.cancels + last.cancels)
  }

  lemma NothingAdded(start: Report)
    ensures AddedUp(start, []) == start
  {
  }

  lemma AddedOne(start: Report, reports: seq<Report>, last: Report)
    ensures var before := AddedUp(start, reports);
      AddedUp(start, reports + [last])
      == Report(before.outcomes + last.outcomes, before.pruned + last.pruned, before.cancels + last.cancels)
  {
    assert (reports + [last])[..|reports|] == reports;
  }

  /** One batch of a shard, at one instant. */
  ghost predicate SweptOnce(db: Db, settings: Settings, shard: nat, batch: seq<Slot>, after: Db) {
    && IsRange(db.index, shard, db.now, WAIT_SWEEP_BATCH_LIMIT, batch)
    && after == SweptBatch(db, settings, WithScores(db.index, batch))
  }

  function OutcomesOf(db: Db, settings: Settings, batch: seq<Slot>): multiset<Outcome>
    requires forall slot :: slot in batch ==> slot in db.index
  {
    BatchOutcomes(db, settings, WithScores(db.index, batch))
  }

  function CancelsOf(db: Db, settings: Settings, batch: seq<Slot>): seq<(string, string)>
    requires forall slot :: slot in batch ==> slot in db.index
  {
    BatchCancels(db, settings, WithScores(db.index, batch))
  }

  /** What the batch is read from: the shard as the prune, if any, left it. */
  function StartingState(db: Db, pruning: bool, shard: nat): Db {
    if pruning then Pruned(db, shard) else db
  }

  ghost predicate ShardPassed(before: Db, settings: Settings, enabled: bool, pruning: bool, claimed: bool, shard: nat,
                              after: Db, report: Report) {
    if !claimed then after == before && report == Report(multiset{}, 0, [])
    else
      var start := StartingState(before, pruning, shard);
      && report.pruned == (if pruning then |InScoreRange(before.index, shard, before.now - WAIT_PRUNE_AFTER_MS)| else 0)
      && if enabled then
           exists batch :: SweptOnce(start, settings, shard, batch, after)
             && report.outcomes == OutcomesOf(start, settings, batch)
             && report.cancels == CancelsOf(start, settings, batch)
         else after == start && report.outcomes == multiset{} && report.cancels == []
  }

  /** The stores a pass goes through and what it reports, one for each shard visited. */
  ghost predicate Pass(states: seq<Db>, reports: seq<Report>, settings: Settings, enabled: bool, pruning: bool,
                       claims: seq<bool>, start: nat) {
    && |claims| == |reports| == WAIT_INDEX_SHARDS && |states| == WAIT_INDEX_SHARDS + 1
    && forall k :: 0 <= k < WAIT_INDEX_SHARDS ==>
         ShardPassed(states[k], settings, enabled, pruning,
                     claims[k], (start + k) % WAIT_INDEX_SHARDS, states[k + 1], reports[k])
  }

  /** One range deletion, its upper bound the age beyond which no triage could learn anything. */
  function Pruned(db: Db, shard: nat): Db {
    db.(index := db.index - InScoreRange(db.index, shard, db.now - WAIT_PRUNE_AFTER_MS))
  }
}
