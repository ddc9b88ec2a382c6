/**
 What triage decides, read off the execution records, leases and groups: when
 an entry goes, when it stays, and what a stand-in says and where it goes.
 */
module SweepVerdicts {
  import opened Wrappers
  import opened WaitIndex
  import opened WaitStore
  import opened WaitReply
  import opened WaitSweeper
  import opened SweepSafety

  function WorkerOf(db: Db, sessionId: string, messageId: string): string
    requires Known(db, sessionId, messageId)
  {
    db.executions[(sessionId, messageId)].workerId
  }

  predicate Finished(db: Db, sessionId: string, messageId: string) {
    Known(db, sessionId, messageId) && IsTerminal(StatusOf(db, sessionId, messageId))
  }

  /** Neither finished nor suspended. */
  predicate Active(db: Db, sessionId: string, messageId: string) {
    Known(db, sessionId, messageId) && !Finished(db, sessionId, messageId) && !Suspended(db, sessionId, messageId)
  }

  predicate OnLostWorker(db: Db, sessionId: string, messageId: string)
    requires Known(db, sessionId, messageId)
  {
    WorkerOf(db, sessionId, messageId) != "" && WorkerOf(db, sessionId, messageId) !in db.online
  }

  /** A wait of a suspended caller for a named callee that no group has settled: the callee decides. */
  ghost predicate CalleeDecides(db: Db, e: Member) {
    CallerSuspended(db, e) && e.childMessageId != "" && GroupAwaits(db, e)
  }

  ghost predicate PastCeiling(db: Db, settings: Settings, due: DueEntry)
    requires Known(db, due.entry.sessionId, due.entry.childMessageId)
  {
    db.now >= Ceiling(Origin(db, due), db.executions[(due.entry.sessionId, due.entry.childMessageId)].createdAt,
                      settings.renewMaxMultiple)
  }

  /** The callee runs on a live worker. */
  predicate AtWork(db: Db, sessionId: string, messageId: string) {
    Active(db, sessionId, messageId)
    && WorkerOf(db, sessionId, messageId) != "" && WorkerOf(db, sessionId, messageId) in db.online
  }

  // ---------------------------------------------------------------- what becomes of the entry

  /**
   An entry is dropped exactly when nobody is left to wake by it: it does not
   decode, its caller is unknown, finished or running on a lost worker, or its
   group is gone, aborted or has its result. A callee never gets it dropped.
   */
  lemma DroppedIff(db: Db, settings: Settings, slot: Slot, deadlineMs: int)
    ensures Triage(db, settings, slot, deadlineMs).action.DropEntry? <==>
            match DecodeMember(slot.member)
            case None => true
            case Some(e) =>
              || !Known(db, e.sessionId, e.parentMessageId) || Finished(db, e.sessionId, e.parentMessageId)
              || (Active(db, e.sessionId, e.parentMessageId) && OnLostWorker(db, e.sessionId, e.parentMessageId))
              || (CallerSuspended(db, e) && e.childMessageId != "" && !GroupAwaits(db, e))
  {
    hide DecodeMember, BaseStatus, Ceiling, Origin;
    SuspendedIsUnfinished(db);
  }

  /**
   It is renewed exactly when its caller runs, or may run, and when its callee
   is suspended, at work below its ceiling, or abandoned with nowhere to say so.
   */
  lemma RenewedIff(db: Db, settings: Settings, slot: Slot, deadlineMs: int)
    ensures Triage(db, settings, slot, deadlineMs).action.RenewEntry? <==>
            match DecodeMember(slot.member)
            case None => false
            case Some(e) =>
              || (Active(db, e.sessionId, e.parentMessageId) && !OnLostWorker(db, e.sessionId, e.parentMessageId))
              || (CalleeDecides(db, e)
                  && (|| Suspended(db, e.sessionId, e.childMessageId)
                      || (AtWork(db, e.sessionId, e.childMessageId)
                          && !PastCeiling(db, settings, DueEntry(slot, deadlineMs, e)))
                      || CallersStream(db, e) == ""))
  {
    hide DecodeMember, BaseStatus, Ceiling, Origin;
    SuspendedIsUnfinished(db);
  }

  lemma SuspendedIsUnfinished(db: Db)
    ensures forall sessionId, messageId :: Suspended(db, sessionId, messageId) ==> !Finished(db, sessionId, messageId)
  {
    hide BaseStatus;
    forall sessionId, messageId | Suspended(db, sessionId, messageId)
      ensures !Finished(db, sessionId, messageId)
    {
      SuspendedIsNotTerminal(StatusOf(db, sessionId, messageId));
    }
  }

  /** A callee is asked to stop exactly when configured, past its ceiling on a live worker, and not asked before. */
  lemma CancelIff(db: Db, settings: Settings, slot: Slot, deadlineMs: int)
    ensures Triage(db, settings, slot, deadlineMs).cancelChild <==>
            match DecodeMember(slot.member)
            case None => false
            case Some(e) =>
              && settings.cancelOnTimeout && CalleeDecides(db, e) && AtWork(db, e.sessionId, e.childMessageId)
              && PastCeiling(db, settings, DueEntry(slot, deadlineMs, e))
              && !db.executions[(e.sessionId, e.childMessageId)].cancelRequested
  {
    hide DecodeMember, BaseStatus, Ceiling, Origin;
    SuspendedIsUnfinished(db);
  }

  // ---------------------------------------------------------------- what a stand-in says

  /** The result a finished callee left behind for a reply nobody delivered. */
  predicate LeftResult(db: Db, childMessageId: string) {
    ("tg-single-" + childMessageId, childMessageId) in db.results
  }

  /** Status, error code and payload of a stand-in, by what became of the callee. */
  ghost predicate SaysWhatBecameOf(db: Db, e: Member, reply: Reply) {
    if !Known(db, e.sessionId, e.childMessageId) then
      Fails(reply, "FAILED", CHILD_NEVER_STARTED, e.childMessageId)
    else if Finished(db, e.sessionId, e.childMessageId) then
      var status := StatusOf(db, e.sessionId, e.childMessageId);
      if LeftResult(db, e.childMessageId) then
        var stored := db.results[("tg-single-" + e.childMessageId, e.childMessageId)];
        && reply.status == (if stored.status != "" then stored.status else status)
        && reply.errorCode == REPLY_LOST_RECOVERED && reply.payload == ResultPayload(stored.content)
      else
        Fails(reply, if status == "COMPLETED" then "FAILED" else status, REPLY_LOST_RECOVERED, e.childMessageId)
    else if WorkerOf(db, e.sessionId, e.childMessageId) == "" then
      Fails(reply, "FAILED", CHILD_NEVER_STARTED, e.childMessageId)
    else if OnLostWorker(db, e.sessionId, e.childMessageId) then
      Fails(reply, "FAILED", CHILD_WORKER_LOST, e.childMessageId)
    else Fails(reply, "FAILED", CHILD_TIMEOUT, e.childMessageId)
  }

  predicate Fails(reply: Reply, status: string, errorCode: string, childMessageId: string) {
    reply.status == status && reply.errorCode == errorCode && reply.payload == FailurePayload(errorCode, childMessageId)
  }

  /**
   A stand-in is addressed to the stream its caller reads and speaks as the
   callee; its status, error code and payload say what became of the callee.
   */
  lemma StandInSays(db: Db, settings: Settings, slot: Slot, deadlineMs: int)
    requires Triage(db, settings, slot, deadlineMs).action.Emit?
    ensures DecodeMember(slot.member).Some?
    ensures var e, reply := DecodeMember(slot.member).value, Triage(db, settings, slot, deadlineMs).action.reply;
      && reply.targetAgentType == CallersStream(db, e)
      && reply.sourceAgentType == (if Known(db, e.sessionId, e.childMessageId)
                                   then db.executions[(e.sessionId, e.childMessageId)].targetAgentType else "")
      && reply.synthesizedBy == SYNTHESIZED_BY_SWEEPER
      && SaysWhatBecameOf(db, e, reply)
  {
    hide DecodeMember, BaseStatus, Ceiling, Origin;
    var e := DecodeMember(slot.member).value;
    var child := FindExecution(db, e.sessionId, e.childMessageId);
    if child.Some? && IsTerminal(BaseStatus(child.value.status)) {
      FinishedStatuses(BaseStatus(child.value.status));
    }
  }

  lemma FinishedStatuses(status: string)
    requires IsTerminal(status)
    ensures status == "COMPLETED" || ((status == "FAILED" || status == "CANCELLED") && status != "COMPLETED")
  {
    assert status == "FAILED" ==> status[0] == 'F';
    assert status == "CANCELLED" ==> status[1] == 'A';
  }

  // ---------------------------------------------------------------- what the counts mean

  /** Each outcome is reported for its own evidence. */
  ghost predicate ReportedFor(db: Db, settings: Settings, due: DueEntry, outcome: Outcome) {
    var e := due.entry;
    match outcome
    case Malformed => false
    case CallerMissing => !Known(db, e.sessionId, e.parentMessageId)
    case CallerTerminal => Finished(db, e.sessionId, e.parentMessageId)
    case CallerLost => Active(db, e.sessionId, e.parentMessageId) && OnLostWorker(db, e.sessionId, e.parentMessageId)
    case CallerNotSuspended =>
      Active(db, e.sessionId, e.parentMessageId) && !OnLostWorker(db, e.sessionId, e.parentMessageId)
    case AskUserSkipped => CallerSuspended(db, e) && e.childMessageId == ""
    case GroupGone => e.taskGroupId != "" && e.taskGroupId !in db.groups
    case GroupAborted => e.taskGroupId in db.groups && db.groups[e.taskGroupId].aborted
    case GroupAlreadyJoined => (e.taskGroupId, e.childMessageId) in db.results
    case ChildWaiting => CalleeDecides(db, e) && Suspended(db, e.sessionId, e.childMessageId)
    case ChildAlive =>
      CalleeDecides(db, e) && AtWork(db, e.sessionId, e.childMessageId) && !PastCeiling(db, settings, due)
    case Recovered => CalleeDecides(db, e) && Finished(db, e.sessionId, e.childMessageId)
    case WorkerLost =>
      CalleeDecides(db, e) && Active(db, e.sessionId, e.childMessageId)
      && OnLostWorker(db, e.sessionId, e.childMessageId)
    case NeverStarted =>
      CalleeDecides(db, e)
      && (!Known(db, e.sessionId, e.childMessageId)
          || (Active(db, e.sessionId, e.childMessageId) && WorkerOf(db, e.sessionId, e.childMessageId) == ""))
    case TimedOut =>
      CalleeDecides(db, e) && AtWork(db, e.sessionId, e.childMessageId) && PastCeiling(db, settings, due)
    case Unroutable => CalleeDecides(db, e) && CallersStream(db, e) == ""
  }

  lemma OutcomeTellsEvidence(db: Db, settings: Settings, slot: Slot, deadlineMs: int)
    ensures var outcome := Triage(db, settings, slot, deadlineMs).outcome;
      match DecodeMember(slot.member)
      case None => outcome == Malformed
      case Some(e) => ReportedFor(db, settings, DueEntry(slot, deadlineMs, e), outcome)
  {
    hide DecodeMember, BaseStatus, Ceiling, Origin, TriageChild;
    SuspendedIsUnfinished(db);
    if DecodeMember(slot.member).Some? {
      var due := DueEntry(slot, deadlineMs, DecodeMember(slot.member).value);
      if CalleeDecides(db, due.entry) {
        CalleeOutcome(db, settings, due);
      }
    }
  }

  lemma CalleeOutcome(db: Db, settings: Settings, due: DueEntry)
    requires CalleeDecides(db, due.entry)
    ensures var caller := db.executions[(due.entry.sessionId, due.entry.parentMessageId)];
      ReportedFor(db, settings, due, TriageChild(db, settings, due, caller).outcome)
  {
    hide BaseStatus, Ceiling, Origin, GroupAwaits;
    SuspendedIsUnfinished(db);
  }
}
