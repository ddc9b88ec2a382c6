/** What one examination of a due entry can and cannot do, and when repeating batches drains a shard. */
module SweepSafety {
  import opened Wrappers
  import opened WaitIndex
  import opened WaitStore
  import opened WaitGate
  import opened WaitReply
  import opened WaitSweeper

  // ---------------------------------------------------------------- who gets a stand-in

  predicate Known(db: Db, sessionId: string, messageId: string) {
    sessionId != "" && (sessionId, messageId) in db.executions
  }

  function StatusOf(db: Db, sessionId: string, messageId: string): string
    requires Known(db, sessionId, messageId)
  {
    BaseStatus(db.executions[(sessionId, messageId)].status)
  }

  predicate Suspended(db: Db, sessionId: string, messageId: string) {
    Known(db, sessionId, messageId) && IsSuspended(StatusOf(db, sessionId, messageId))
  }

  predicate CallerSuspended(db: Db, e: Member) { Suspended(db, e.sessionId, e.parentMessageId) }

  ghost predicate GroupAwaits(db: Db, e: Member) {
    e.taskGroupId != "" ==>
      && e.taskGroupId in db.groups && !db.groups[e.taskGroupId].aborted
      && (e.taskGroupId, e.childMessageId) !in db.results
  }

  /** The callee will never answer on its own: never started, finished unheard, dead, or past its ceiling. */
  ghost predicate Abandoned(db: Db, settings: Settings, due: DueEntry) {
    match FindExecution(db, due.entry.sessionId, due.entry.childMessageId)
    case None => true
    case Some(child) =>
      || IsTerminal(BaseStatus(child.status))
      || (&& !IsSuspended(BaseStatus(child.status))
          && (|| child.workerId == ""
              || child.workerId !in db.online
              || Ceiling(Origin(db, due), child.createdAt, settings.renewMaxMultiple) <= db.now))
  }

  /** Where the caller of a wait reads: the source its callee was dispatched from, else what the caller itself is. */
  function CallersStream(db: Db, e: Member): string {
    if Known(db, e.sessionId, e.childMessageId)
      && db.executions[(e.sessionId, e.childMessageId)].sourceAgentType != ""
    then db.executions[(e.sessionId, e.childMessageId)].sourceAgentType
    else if Known(db, e.sessionId, e.parentMessageId) then
      db.executions[(e.sessionId, e.parentMessageId)].targetAgentType
    else ""
  }

  ghost predicate Routable(db: Db, e: Member) {
    Known(db, e.sessionId, e.parentMessageId) && CallersStream(db, e) != ""
  }

  ghost predicate Owed(db: Db, settings: Settings, slot: Slot, deadlineMs: int) {
    match DecodeMember(slot.member)
    case None => false
    case Some(e) =>
      && CallerSuspended(db, e) && e.childMessageId != "" && GroupAwaits(db, e)
      && Abandoned(db, settings, DueEntry(slot, deadlineMs, e)) && Routable(db, e)
  }

  /**
   A stand-in goes out exactly to a suspended caller with an abandoned callee,
   a live unjoined group and an address.
   */
  lemma StandInIffOwed(db: Db, settings: Settings, slot: Slot, deadlineMs: int)
    ensures Triage(db, settings, slot, deadlineMs).action.Emit? <==> Owed(db, settings, slot, deadlineMs)
  {
    var decoded := DecodeMember(slot.member);
    if decoded.Some? {
      var caller := FindExecution(db, decoded.value.sessionId, decoded.value.parentMessageId);
      if caller.Some? && IsSuspended(BaseStatus(caller.value.status)) {
        SuspendedIsNotTerminal(BaseStatus(caller.value.status));
      }
    }
  }

  /**
   At most one reply, never together with a removal, and nothing but this
   entry, its origin and that reply changes.
   */
  lemma ExaminationSafety(db: Db, settings: Settings, slot: Slot, deadlineMs: int)
    requires slot in db.index
    ensures var verdict, after := Triage(db, settings, slot, deadlineMs), Examined(db, settings, slot, deadlineMs);
      && (verdict.action.Emit? ==>
            && after.ctrl == Appended(db.ctrl, verdict.action.reply)
            && DecodeMember(slot.member).Some?
            && (var e := DecodeMember(slot.member).value;
                && verdict.action.reply.header
                  == Header(e.sessionId, e.parentMessageId, e.childMessageId, e.taskGroupId)
                && verdict.action.reply.targetAgentType != ""))
      && (!verdict.action.Emit? ==> after.ctrl == db.ctrl)
      && (slot in after.index <==> !verdict.action.DropEntry?)
      && (verdict.action.Emit? || verdict.action.RenewEntry? ==>
            slot in after.index && after.index[slot] == db.now + WAIT_RENEW_INCREMENT_MS)
      && after.index - {slot} == db.index - {slot}
      && after == db.(index := after.index, origins := after.origins, ctrl := after.ctrl)
  {
    hide Triage, DecodeMember, Appended;
    if Triage(db, settings, slot, deadlineMs).action.Emit? {
      EmissionAddressed(db, settings, slot, deadlineMs);
    }
  }

  /** What goes out names the decoded wait, its caller first, and has an address. */
  lemma EmissionAddressed(db: Db, settings: Settings, slot: Slot, deadlineMs: int)
    requires Triage(db, settings, slot, deadlineMs).action.Emit?
    ensures DecodeMember(slot.member).Some?
    ensures var e, reply := DecodeMember(slot.member).value, Triage(db, settings, slot, deadlineMs).action.reply;
      reply.header == Header(e.sessionId, e.parentMessageId, e.childMessageId, e.taskGroupId)
        && reply.targetAgentType != ""
  {
    hide DecodeMember, BaseStatus, Ceiling, Origin;
  }

  /** A registered entry that gets a stand-in is the one the gate will claim for it. */
  lemma EmittedReplyClaimsItsEntry(db: Db, settings: Settings, wait: Member, deadlineMs: int)
    requires SlotOf(wait.sessionId, EncodeMember(wait)) in db.index
    requires Triage(db, settings, SlotOf(wait.sessionId, EncodeMember(wait)), deadlineMs).action.Emit?
    ensures var slot := SlotOf(wait.sessionId, EncodeMember(wait));
      var after := Examined(db, settings, slot, deadlineMs);
      Decide(after, Triage(db, settings, slot, deadlineMs).action.reply.header) == Claimed(EncodeMember(wait))
  {
    var slot := SlotOf(wait.sessionId, EncodeMember(wait));
    RoundTrip(wait);
    ExaminationSafety(db, settings, slot, deadlineMs);
    StandInClaimsItsEntry(Examined(db, settings, slot, deadlineMs),
                          wait, Triage(db, settings, slot, deadlineMs).action.reply);
  }

  /** A finished callee whose answer is stored while nothing names where its caller lives. */
  ghost predicate StoredButUnroutable(db: Db, e: Member) {
    (SingleCallGroup(e.childMessageId), e.childMessageId) in db.results && !Routable(db, e)
  }

  predicate ReportsReply(outcome: Outcome) {
    outcome.NeverStarted? || outcome.TimedOut? || outcome.WorkerLost? || outcome.Recovered?
  }

  /**
   The outcome tells whether a reply went out, with one exception: a finished
   callee whose stored result cannot be routed is still counted as recovered.
   */
  lemma OutcomeTellsEmission(db: Db, settings: Settings, slot: Slot, deadlineMs: int)
    ensures var verdict := Triage(db, settings, slot, deadlineMs);
      && (verdict.action.Emit? ==> ReportsReply(verdict.outcome))
      && (ReportsReply(verdict.outcome) ==>
            && DecodeMember(slot.member).Some?
            && (!verdict.action.Emit? <==>
                  verdict.outcome.Recovered? && StoredButUnroutable(db, DecodeMember(slot.member).value)))
  {
    var decoded := DecodeMember(slot.member);
    if decoded.Some? {
      var e := decoded.value;
      var caller := FindExecution(db, e.sessionId, e.parentMessageId);
      if caller.Some? {
        ChildOutcomeTellsEmission(db, settings, DueEntry(slot, deadlineMs, e), caller.value);
      }
    }
  }

  lemma ChildOutcomeTellsEmission(db: Db, settings: Settings, due: DueEntry, caller: Execution)
    requires FindExecution(db, due.entry.sessionId, due.entry.parentMessageId) == Some(caller)
    ensures var verdict := TriageChild(db, settings, due, caller);
      && (verdict.action.Emit? ==> ReportsReply(verdict.outcome))
      && (ReportsReply(verdict.outcome) ==>
            (!verdict.action.Emit? <==> verdict.outcome.Recovered? && StoredButUnroutable(db, due.entry)))
  {
  }

  // ---------------------------------------------------------------- the ceiling

  /**
   The ceiling is the documented instant, registration plus N timeouts, exactly
   when N - 1 timeouts reach one increment, and else one increment past the
   origin; a timeout that cannot be derived counts as one hour.
   */
  lemma CeilingIsNTimeouts(originMs: int, createdAt: int, multiple: int)
    ensures createdAt > 0 && originMs > createdAt ==>
              (Ceiling(originMs, createdAt, multiple) == createdAt + multiple * (originMs - createdAt)
              <==> (multiple - 1) * (originMs - createdAt) >= WAIT_RENEW_INCREMENT_MS)
    ensures createdAt > 0 && originMs > createdAt
            && (multiple - 1) * (originMs - createdAt) < WAIT_RENEW_INCREMENT_MS ==>
              Ceiling(originMs, createdAt, multiple) == originMs + WAIT_RENEW_INCREMENT_MS
    ensures createdAt <= 0 || originMs <= createdAt ==>
              Ceiling(originMs, createdAt, multiple)
              == originMs + if multiple >= 2 then (multiple - 1) * 3_600_000 else WAIT_RENEW_INCREMENT_MS
    ensures Ceiling(originMs, createdAt, 1) == originMs + WAIT_RENEW_INCREMENT_MS
  {
    var timeout := originMs - createdAt;
    assert multiple * timeout == (multiple - 1) * timeout + timeout;
  }

  // ---------------------------------------------------------------- draining a shard

  function Due(db: Db, shard: nat): set<Slot> { InScoreRange(db.index, shard, db.now) }

  /** An ask_user wait of a suspended caller: the one kind of due entry no examination moves. */
  predicate Parked(db: Db, member: string) {
    DecodeMember(member).Some? &&
    var e := DecodeMember(member).value;
    e.childMessageId == "" && CallerSuspended(db, e)
  }

  function ParkedDue(db: Db, shard: nat): set<Slot> { set slot | slot in Due(db, shard) && Parked(db, slot.member) }
  function MovableDue(db: Db, shard: nat): set<Slot> { Due(db, shard) - ParkedDue(db, shard) }

  lemma ParkedIffLeft(db: Db, settings: Settings, slot: Slot, deadlineMs: int)
    ensures Parked(db, slot.member) <==> Triage(db, settings, slot, deadlineMs).action.LeaveEntry?
  {
    if Parked(db, slot.member) {
      var e := DecodeMember(slot.member).value;
      SuspendedIsNotTerminal(BaseStatus(FindExecution(db, e.sessionId, e.parentMessageId).value.status));
    }
  }

  predicate SameEvidence(a: Db, b: Db) {
    a.executions == b.executions && a.online == b.online
      && a.groups == b.groups && a.results == b.results && a.now == b.now
  }

  lemma ParkedByEvidence(a: Db, b: Db)
    requires SameEvidence(a, b)
    ensures forall member: string :: Parked(a, member) == Parked(b, member)
  {
  }

  function Slots(batch: seq<(Slot, int)>): set<Slot> {
    set i | 0 <= i < |batch| :: batch[i].0
  }

  ghost predicate Untouched(before: Db, after: Db, slot: Slot) {
    (slot in after.index <==> slot in before.index)
      && (slot in before.index ==> after.index[slot] == before.index[slot])
  }

  lemma ExamineEffect(db: Db, settings: Settings, slot: Slot, deadlineMs: int)
    ensures var after := Examined(db, settings, slot, deadlineMs);
      && SameEvidence(db, after) && after.consumed == db.consumed
      && (forall other :: other != slot ==> Untouched(db, after, other))
      && (if Parked(db, slot.member) then Untouched(db, after, slot)
          else slot in after.index ==> after.index[slot] > db.now)
  {
    hide Triage, Parked;
    ParkedIffLeft(db, settings, slot, deadlineMs);
    AppliedEffect(db, slot, deadlineMs, Triage(db, settings, slot, deadlineMs).action);
  }

  lemma AppliedEffect(db: Db, slot: Slot, deadlineMs: int, action: Action)
    ensures var after := Applied(db, slot, deadlineMs, action);
      && SameEvidence(db, after) && after.consumed == db.consumed
      && (forall other :: other != slot ==> Untouched(db, after, other))
      && (if action.LeaveEntry? then after == db else slot in after.index ==> after.index[slot] > db.now)
  {
  }

  /** A batch leaves the parked entries alone and takes every other entry it examines out of the due range. */
  lemma {:induction false} BatchEffect(db: Db, settings: Settings, batch: seq<(Slot, int)>)
    ensures var after := SweptBatch(db, settings, batch);
      && SameEvidence(db, after)
      && (forall slot :: slot !in Slots(batch) || Parked(db, slot.member) ==> Untouched(db, after, slot))
      && (forall slot :: slot in Slots(batch) && !Parked(db, slot.member) && slot in after.index ==>
            after.index[slot] > db.now)
  {
    hide Examined, Parked;
    if batch != [] {
      var before, last := batch[..|batch| - 1], batch[|batch| - 1];
      BatchEffect(db, settings, before);
      var mid := SweptBatch(db, settings, before);
      ExamineEffect(mid, settings, last.0, last.1);
      ParkedByEvidence(db, mid);
      assert Slots(batch) == Slots(before) + {last.0} by {
        assert forall i :: 0 <= i < |before| ==> before[i] == batch[i];
      }
      var after := SweptBatch(db, settings, batch);
      assert after == Examined(mid, settings, last.0, last.1);
      forall slot | slot !in Slots(batch) || Parked(db, slot.member)
        ensures Untouched(db, after, slot)
      {
        assert Parked(mid, slot.member) == Parked(db, slot.member);
        assert Untouched(db, mid, slot) && Untouched(mid, after, slot);
      }
      forall slot | slot in Slots(batch) && !Parked(db, slot.member) && slot in after.index
        ensures after.index[slot] > db.now
      {
        assert Parked(mid, slot.member) == Parked(db, slot.member);
        assert slot == last.0 || (slot in Slots(before) && Untouched(mid, after, slot));
      }
    }
  }

  lemma {:induction false} DistinctFits(slots: seq<Slot>, bound: set<Slot>)
    requires forall i, j :: 0 <= i < j < |slots| ==> slots[i] != slots[j]
    requires forall i :: 0 <= i < |slots| ==> slots[i] in bound
    ensures |slots| <= |bound|
  {
    if slots != [] {
      var last := slots[|slots| - 1];
      DistinctFits(slots[..|slots| - 1], bound - {last});
      assert |bound - {last}| == |bound| - 1;
    }
  }

  lemma SweepTakesBatch(db: Db, settings: Settings, shard: nat, batch: seq<Slot>, after: Db)
    requires SweptOnce(db, settings, shard, batch, after)
    ensures SameEvidence(db, after)
    ensures ParkedDue(after, shard) == ParkedDue(db, shard)
    ensures MovableDue(after, shard) == MovableDue(db, shard) - set slot | slot in batch
    ensures forall slot :: slot in ParkedDue(db, shard) ==> after.index[slot] == db.index[slot]
  {
    hide SweptBatch, Parked;
    var items := WithScores(db.index, batch);
    BatchEffect(db, settings, items);
    assert Slots(items) == set slot | slot in batch by {
      forall i | 0 <= i < |batch| ensures batch[i] in Slots(items) { assert items[i].0 == batch[i]; }
    }
    ParkedByEvidence(db, after);
    assert forall slot :: slot in batch ==> slot in Due(db, shard);
  }

  /** The parked entries a batch would read before the given one. */
  function ParkedAhead(db: Db, shard: nat, slot: Slot): set<Slot>
    requires slot in db.index
  {
    set parked | parked in ParkedDue(db, shard) && Precedes(db.index, parked, slot)
  }

  /** The first entry of the due range that an examination can move. */
  ghost predicate FirstMovable(db: Db, shard: nat, slot: Slot) {
    && slot in MovableDue(db, shard)
    && forall other :: other in MovableDue(db, shard) && other != slot ==> Precedes(db.index, slot, other)
  }

  /** A batch that reads the first movable entry has read every parked entry ahead of it. */
  lemma ReadsFirst(db: Db, shard: nat, batch: seq<Slot>, first: Slot)
    requires IsRange(db.index, shard, db.now, WAIT_SWEEP_BATCH_LIMIT, batch)
    requires FirstMovable(db, shard, first) && first in batch
    ensures |ParkedAhead(db, shard, first)| < WAIT_SWEEP_BATCH_LIMIT
  {
    hide Parked;
    var ahead := ParkedAhead(db, shard, first);
    var k :| 0 <= k < |batch| && batch[k] == first;
    forall parked | parked in ahead
      ensures parked in batch[..k]
    {
      LexOrder(first.member, parked.member, first.member);
      assert !Precedes(db.index, batch[k], parked);
      var j :| 0 <= j < |batch| && batch[j] == parked;
      assert j <= k;
    }
    PrefixSize(batch[..k], ahead);
  }

  /** A batch that misses it is full, and of parked entries ahead of it only. */
  lemma MissesFirst(db: Db, shard: nat, batch: seq<Slot>, first: Slot)
    requires IsRange(db.index, shard, db.now, WAIT_SWEEP_BATCH_LIMIT, batch)
    requires FirstMovable(db, shard, first) && first !in batch
    ensures |ParkedAhead(db, shard, first)| >= WAIT_SWEEP_BATCH_LIMIT
    ensures forall slot :: slot in batch ==> slot !in MovableDue(db, shard)
  {
    hide Parked;
    var ahead := ParkedAhead(db, shard, first);
    forall i | 0 <= i < |batch|
      ensures batch[i] in ahead
    {
      assert Precedes(db.index, batch[i], first);
      if batch[i] in MovableDue(db, shard) {
        LexOrder(first.member, batch[i].member, first.member);
      }
    }
    DistinctFits(batch, ahead);
  }

  /**
   A sweep makes progress exactly when fewer than 200 parked ask_user entries
   come before the first movable one; otherwise it changes nothing at all.
   */
  lemma SweepProgressIff(db: Db, settings: Settings, shard: nat, batch: seq<Slot>, after: Db, first: Slot)
    requires SweptOnce(db, settings, shard, batch, after) && FirstMovable(db, shard, first)
    ensures MovableDue(after, shard) < MovableDue(db, shard)
       <==> |ParkedAhead(db, shard, first)| < WAIT_SWEEP_BATCH_LIMIT
    ensures |ParkedAhead(db, shard, first)| >= WAIT_SWEEP_BATCH_LIMIT ==>
              MovableDue(after, shard) == MovableDue(db, shard)
  {
    hide ParkedAhead, MovableDue, SweptBatch, IsRange;
    SweepTakesBatch(db, settings, shard, batch, after);
    if first in batch {
      ReadsFirst(db, shard, batch, first);
    } else {
      MissesFirst(db, shard, batch, first);
      assert MovableDue(db, shard) - (set slot | slot in batch) == MovableDue(db, shard);
    }
  }

  lemma {:induction false} PrefixSize(slots: seq<Slot>, part: set<Slot>)
    requires forall slot :: slot in part ==> slot in slots
    ensures |part| <= |slots|
  {
    if slots == [] {
      assert part == {};
    } else {
      var last := slots[|slots| - 1];
      forall slot | slot in part - {last} ensures slot in slots[..|slots| - 1] {}
      PrefixSize(slots[..|slots| - 1], part - {last});
      assert |part| <= |part - {last}| + 1 by {
        if last in part { assert part == (part - {last}) + {last}; } else { assert part - {last} == part; }
      }
    }
  }

  /** Sweeps repeated at one instant: the states they go through. */
  ghost predicate RepeatedSweeps(states: seq<Db>, settings: Settings, shard: nat) {
    && |states| > 0
    && (|states| > 1 ==>
          && (exists batch :: SweptOnce(states[0], settings, shard, batch, states[1]))
          && RepeatedSweeps(states[1..], settings, shard))
  }

  lemma SweepShrinks(db: Db, settings: Settings, shard: nat, batch: seq<Slot>, after: Db)
    requires SweptOnce(db, settings, shard, batch, after)
    requires |ParkedDue(db, shard)| < WAIT_SWEEP_BATCH_LIMIT
    ensures ParkedDue(after, shard) == ParkedDue(db, shard)
    ensures |MovableDue(after, shard)| <= Max(0, |MovableDue(db, shard)| - 1)
  {
    SweepTakesBatch(db, settings, shard, batch, after);
    var movable := MovableDue(db, shard);
    if movable != {} {
      FirstSlot(db.index, movable);
      var lead :| lead in movable && forall slot :: slot in movable && slot != lead ==> Precedes(db.index, lead, slot);
      assert FirstMovable(db, shard, lead);
      SubsetSize(ParkedAhead(db, shard, lead), ParkedDue(db, shard));
      SweepProgressIff(db, settings, shard, batch, after, lead);
      SubsetSize(MovableDue(after, shard), movable);
    }
  }

  /**
   With fewer than 200 parked entries due, as many sweeps as there are movable
   entries leave only the parked ones due.
   */
  lemma {:induction false} ShardDrains(states: seq<Db>, settings: Settings, shard: nat)
    requires RepeatedSweeps(states, settings, shard)
    requires |ParkedDue(states[0], shard)| < WAIT_SWEEP_BATCH_LIMIT
    ensures |MovableDue(states[|states| - 1], shard)| <= Max(0, |MovableDue(states[0], shard)| - (|states| - 1))
    ensures |states| > |MovableDue(states[0], shard)| ==>
              Due(states[|states| - 1], shard) == ParkedDue(states[0], shard)
  {
    hide SweptOnce, MovableDue, ParkedDue, Due;
    var last := states[|states| - 1];
    if |states| > 1 {
      var batch :| SweptOnce(states[0], settings, shard, batch, states[1]);
      SweepShrinks(states[0], settings, shard, batch, states[1]);
      ShardDrains(states[1..], settings, shard);
      assert states[1..][|states| - 2] == last;
    }
    if |states| > |MovableDue(states[0], shard)| {
      assert |MovableDue(last, shard)| == 0;
      ParkedStays(states, settings, shard);
      DueSplits(last, shard);
    }
  }

  lemma DueSplits(db: Db, shard: nat)
    ensures Due(db, shard) == ParkedDue(db, shard) + MovableDue(db, shard)
  {
    hide Parked;
  }

  lemma {:induction false} ParkedStays(states: seq<Db>, settings: Settings, shard: nat)
    requires RepeatedSweeps(states, settings, shard)
    ensures ParkedDue(states[|states| - 1], shard) == ParkedDue(states[0], shard)
  {
    if |states| > 1 {
      var batch :| SweptOnce(states[0], settings, shard, batch, states[1]);
      SweepTakesBatch(states[0], settings, shard, batch, states[1]);
      ParkedStays(states[1..], settings, shard);
    }
  }

  lemma SubsetSize(a: set<Slot>, b: set<Slot>)
    requires a <= b
    ensures |a| <= |b| && (a != b ==> |a| < |b|)
  {
    assert b == a + (b - a);
    if a != b { assert b - a != {}; }
  }

  // ---------------------------------------------------------------- a whole pass

  /** What is due in a shard, and parked there, when its turn comes: the prune has been. */
  function DueAtTurn(db: Db, pruning: bool, shard: nat): set<Slot> { Due(StartingState(db, pruning, shard), shard) }
  function ParkedAtTurn(db: Db, pruning: bool,
                        shard: nat): set<Slot> { ParkedDue(StartingState(db, pruning, shard), shard) }

  lemma PruneTouches(db: Db, pruning: bool, shard: nat)
    ensures SameEvidence(db, StartingState(db, pruning, shard))
    ensures forall slot: Slot :: slot.shard != shard ==> Untouched(db, StartingState(db, pruning, shard), slot)
  {
  }

  /**
   A claimed shard with no more than one batch due is left with its parked
   entries only, and no other shard is touched.
   */
  lemma ShardSettles(before: Db, settings: Settings, pruning: bool, shard: nat, after: Db, report: Report)
    requires ShardPassed(before, settings, true, pruning, true, shard, after, report)
    ensures SameEvidence(before, after)
    ensures forall slot: Slot :: slot.shard != shard ==> Untouched(before, after, slot)
    ensures |DueAtTurn(before, pruning, shard)| <= WAIT_SWEEP_BATCH_LIMIT ==>
              Due(after, shard) == ParkedAtTurn(before, pruning, shard)
  {
    hide SweptBatch, Parked, Precedes, OutcomesOf, CancelsOf, StartingState;
    var start := StartingState(before, pruning, shard);
    var batch :| SweptOnce(start, settings, shard, batch, after);
    PruneTouches(before, pruning, shard);
    BatchSettles(start, settings, shard, batch, after);
  }

  lemma BatchSettles(start: Db, settings: Settings, shard: nat, batch: seq<Slot>, after: Db)
    requires SweptOnce(start, settings, shard, batch, after)
    ensures SameEvidence(start, after)
    ensures forall slot: Slot :: slot.shard != shard ==> Untouched(start, after, slot)
    ensures |Due(start, shard)| <= WAIT_SWEEP_BATCH_LIMIT ==> Due(after, shard) == ParkedDue(start, shard)
  {
    hide SweptBatch, Parked, Precedes;
    SweepTakesBatch(start, settings, shard, batch, after);
    BatchEffect(start, settings, WithScores(start.index, batch));
    if |Due(start, shard)| <= WAIT_SWEEP_BATCH_LIMIT {
      FullBatch(batch, Due(start, shard));
      assert MovableDue(start, shard) - (set slot | slot in batch) == {};
      DueSplits(after, shard);
    }
  }

  /** Distinct picks from a set no larger than the limit, stopped only by the limit, are the whole set. */
  lemma FullBatch(batch: seq<Slot>, due: set<Slot>)
    requires forall i :: 0 <= i < |batch| ==> batch[i] in due
    requires forall i, j :: 0 <= i < j < |batch| ==> batch[i] != batch[j]
    requires |due| <= WAIT_SWEEP_BATCH_LIMIT
    requires |batch| < WAIT_SWEEP_BATCH_LIMIT ==> forall slot :: slot in due ==> slot in batch
    ensures forall slot :: slot in due ==> slot in batch
  {
    if slot :| slot in due && slot !in batch {
      assert |due - {slot}| == |due| - 1;
      DistinctFits(batch, due - {slot});
    }
  }

  /** What is due at a shard's turn depends on that shard's own entries only. */
  lemma SameAtTurn(before: Db, after: Db, pruning: bool, shard: nat)
    requires SameEvidence(before, after) && forall slot: Slot :: slot.shard == shard ==> Untouched(before, after, slot)
    ensures Due(after, shard) == Due(before, shard)
    ensures DueAtTurn(after, pruning, shard) == DueAtTurn(before, pruning, shard)
    ensures ParkedAtTurn(after, pruning, shard) == ParkedAtTurn(before, pruning, shard)
  {
    hide Parked;
    ParkedByEvidence(StartingState(before, pruning, shard), StartingState(after, pruning, shard));
  }

  /** The turn at which a pass that starts at the cursor reaches a shard. */
  lemma VisitOrder(start: nat, k: nat, shard: nat)
    requires start < WAIT_INDEX_SHARDS && k < WAIT_INDEX_SHARDS && shard < WAIT_INDEX_SHARDS
    ensures (start + k) % WAIT_INDEX_SHARDS == shard <==> (shard - start) % WAIT_INDEX_SHARDS == k
  {
    if start + k < WAIT_INDEX_SHARDS {
      assert (start + k) % WAIT_INDEX_SHARDS == start + k;
    } else {
      assert (start + k) % WAIT_INDEX_SHARDS == start + k - WAIT_INDEX_SHARDS;
    }
    if shard >= start {
      assert (shard - start) % WAIT_INDEX_SHARDS == shard - start;
    } else {
      assert (shard - start) % WAIT_INDEX_SHARDS == shard - start + WAIT_INDEX_SHARDS;
    }
  }

  /** Up to the k-th shard of a pass: the shards visited hold parked entries only, the others are as they were. */
  lemma {:induction false} PassSoFar(states: seq<Db>, reports: seq<Report>, settings: Settings, pruning: bool,
                                     start: nat,
                                     k: nat, shard: nat)
    requires start < WAIT_INDEX_SHARDS && shard < WAIT_INDEX_SHARDS && k <= WAIT_INDEX_SHARDS
    requires |states| == |reports| + 1 == WAIT_INDEX_SHARDS + 1
    requires forall j :: 0 <= j < WAIT_INDEX_SHARDS ==>
               ShardPassed(states[j], settings, true, pruning,
                           true, (start + j) % WAIT_INDEX_SHARDS, states[j + 1], reports[j])
    requires |DueAtTurn(states[0], pruning, shard)| <= WAIT_SWEEP_BATCH_LIMIT
    ensures SameEvidence(states[0], states[k])
    ensures if (shard - start) % WAIT_INDEX_SHARDS < k
            then Due(states[k], shard) == ParkedAtTurn(states[0], pruning, shard)
            else forall slot: Slot :: slot.shard == shard ==> Untouched(states[0], states[k], slot)
  {
    hide ShardPassed, Due, DueAtTurn, ParkedAtTurn;
    if k > 0 {
      PassSoFar(states, reports, settings, pruning, start, k - 1, shard);
      var visited := (start + k - 1) % WAIT_INDEX_SHARDS;
      assert (start + (k - 1)) % WAIT_INDEX_SHARDS == visited;
      ShardSettles(states[k - 1], settings, pruning, visited, states[k], reports[k - 1]);
      VisitOrder(start, k - 1, shard);
      if visited == shard {
        SameAtTurn(states[0], states[k - 1], pruning, shard);
      } else if (shard - start) % WAIT_INDEX_SHARDS < k {
        SameAtTurn(states[k - 1], states[k], pruning, shard);
      }
    }
  }

  /**
   One pass in which every lock is free, at one instant, wherever the cursor
   stands and whether or not it prunes: every shard in which the prune leaves
   at most 200 due entries ends with exactly its parked ask_user entries due.
   */
  lemma PassSettlesShards(states: seq<Db>, reports: seq<Report>, settings: Settings, pruning: bool, claims: seq<bool>,
                          start: nat, shard: nat)
    requires start < WAIT_INDEX_SHARDS && shard < WAIT_INDEX_SHARDS
    requires Pass(states, reports, settings, true, pruning, claims, start)
    requires forall k :: 0 <= k < |claims| ==> claims[k]
    requires |DueAtTurn(states[0], pruning, shard)| <= WAIT_SWEEP_BATCH_LIMIT
    ensures Due(states[WAIT_INDEX_SHARDS], shard) == ParkedAtTurn(states[0], pruning, shard)
  {
    hide ShardPassed;
    PassSoFar(states, reports, settings, pruning, start, WAIT_INDEX_SHARDS, shard);
  }
}
