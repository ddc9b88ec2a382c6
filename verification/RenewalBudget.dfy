/** How long a wait is renewed: the ceiling over whole runs, and how far apart stand-ins are. */
module RenewalBudget {
  import opened Wrappers
  import opened WaitIndex
  import opened WaitStore
  import opened WaitGate
  import opened WaitSweeper
  import opened SweepSafety
  import opened SweepVerdicts
  import opened LivenessRuns

  // ---------------------------------------------------------------- stand-ins for one entry

  lemma {:induction false} ScoreFloor(db: Db, settings: Settings, events: seq<Event>, slot: Slot, floor: int)
    requires slot in db.index ==> db.index[slot] >= floor
    requires floor <= db.now + WAIT_RENEW_INCREMENT_MS
    requires forall e :: e in events ==> !Registers(e, slot)
    ensures var end := Run(db, settings, events); slot in end.index ==> end.index[slot] >= floor
    decreases |events|
  {
    hide Next, Renews, Claims, Drops, Prunes;
    if events != [] {
      SlotStep(db, settings, events[0], slot);
      ScoreFloor(Next(db, settings, events[0]), settings, events[1..], slot, floor);
    }
  }

  /** Two stand-ins for one entry are at least one increment apart unless it was registered again in between. */
  lemma StandInsApart(db: Db, settings: Settings, events: seq<Event>, slot: Slot)
    requires IsDue(db, slot) && ActionOn(db, settings, slot).Emit?
    requires forall e :: e in events ==> !Registers(e, slot)
    ensures var later := Run(Next(db, settings, Examine(slot)), settings, events);
      IsDue(later, slot) ==> later.now - db.now >= WAIT_RENEW_INCREMENT_MS
  {
    hide Triage;
    SlotStep(db, settings, Examine(slot), slot);
    ScoreFloor(Next(db, settings, Examine(slot)), settings, events, slot, db.now + WAIT_RENEW_INCREMENT_MS);
  }

  // ---------------------------------------------------------------- the ceiling over runs

  function DueAt(db: Db, wait: Member): DueEntry
    requires SlotFor(wait) in db.index
  {
    DueEntry(SlotFor(wait), db.index[SlotFor(wait)], wait)
  }

  /** No slot of another shard carries the member; every registration keeps this. */
  ghost predicate OneShard(db: Db, wait: Member) {
    forall slot :: slot in db.index && slot.member == EncodeMember(wait) ==> slot == SlotFor(wait)
  }

  lemma OneShardStep(db: Db, settings: Settings, e: Event, wait: Member)
    requires OneShard(db, wait)
    ensures OneShard(Next(db, settings, e), wait)
  {
    hide Next, Claims, Drops, Prunes, Renews;
    forall slot | slot in Next(db, settings, e).index && slot.member == EncodeMember(wait)
      ensures slot == SlotFor(wait)
    {
      SlotStep(db, settings, e, slot);
      if Registers(e, slot) {
        EncodeInjective(e.wait, wait);
      }
    }
  }

  /** The stored origin changes only when a renewal of this very entry records the deadline it found. */
  lemma OriginStep(db: Db, settings: Settings, e: Event, wait: Member)
    requires OneShard(db, wait)
    ensures var member, after := EncodeMember(wait), Next(db, settings, e);
      if Renews(db, settings, e, SlotFor(wait)) && member !in db.origins
      then member in after.origins && after.origins[member] == db.index[SlotFor(wait)]
      else (member in after.origins <==> member in db.origins)
           && (member in db.origins ==> after.origins[member] == db.origins[member])
  {
    hide EncodeMember, Triage, Next, OneShard;
    StepOrigins(db, settings, e);
    if e.Examine? && IsDue(db, e.slot) && e.slot.member == EncodeMember(wait) {
      assert e.slot == SlotFor(wait) by { SlotOfMember(db, wait, e.slot); }
    }
  }

  lemma SlotOfMember(db: Db, wait: Member, slot: Slot)
    requires OneShard(db, wait) && slot in db.index && slot.member == EncodeMember(wait)
    ensures slot == SlotFor(wait)
  {
  }

  lemma StepOrigins(db: Db, settings: Settings, e: Event)
    ensures Next(db, settings, e).origins
         == if e.Examine? && Renews(db, settings, e, e.slot) && e.slot.member !in db.origins
            then db.origins[e.slot.member := db.index[e.slot]] else db.origins
  {
    hide Examined, Decide, Triage;
    if e.Examine? && IsDue(db, e.slot) {
      ExaminedOrigins(db, settings, e.slot);
    }
  }

  lemma ExaminedOrigins(db: Db, settings: Settings, slot: Slot)
    requires slot in db.index
    ensures Examined(db, settings, slot, db.index[slot]).origins
         == if (ActionOn(db, settings, slot).RenewEntry? || ActionOn(db, settings, slot).Emit?)
           && slot.member !in db.origins
            then db.origins[slot.member := db.index[slot]] else db.origins
  {
    hide Triage, Applied;
    AppliedOrigins(db, slot, db.index[slot], ActionOn(db, settings, slot));
  }

  lemma AppliedOrigins(db: Db, slot: Slot, deadlineMs: int, action: Action)
    ensures Applied(db, slot, deadlineMs, action).origins
         == if (action.RenewEntry? || action.Emit?) && slot.member !in db.origins
            then db.origins[slot.member := deadlineMs] else db.origins
  {
    hide Appended;
  }

  /** The entry stays on one budget: its origin is fixed and each live renewal moved the score one increment further. */
  ghost predicate OnBudget(db: Db, wait: Member, originMs: int, renewals: nat) {
    && OneShard(db, wait) && originMs != 0
    && (SlotFor(wait) in db.index ==>
          && db.index[SlotFor(wait)] >= originMs + renewals * WAIT_RENEW_INCREMENT_MS
          && Origin(db, DueAt(db, wait)) == originMs
          && (EncodeMember(wait) in db.origins ==> db.origins[EncodeMember(wait)] == originMs))
  }

  ghost predicate CreatedAt(executions: map<(string, string), Execution>, wait: Member, created: int) {
    (wait.sessionId, wait.childMessageId) in executions ==>
      executions[(wait.sessionId, wait.childMessageId)].createdAt == created
  }

  ghost predicate KeepsCreation(db: Db, events: seq<Event>, wait: Member, created: int) {
    && CreatedAt(db.executions, wait, created)
    && forall e :: e in events && e.Evidence? ==> CreatedAt(e.executions, wait, created)
  }

  ghost predicate RenewsAlive(db: Db, settings: Settings, e: Event, slot: Slot) {
    Acts(db, e, slot) && Triage(db, settings, slot, db.index[slot]).outcome.ChildAlive?
  }

  ghost function AliveRenewals(db: Db, settings: Settings, events: seq<Event>, slot: Slot): nat
    decreases |events|
  {
    if events == [] then 0
    else One(RenewsAlive(db, settings, events[0], slot))
         + AliveRenewals(Next(db, settings, events[0]), settings, events[1..], slot)
  }

  lemma AliveIsBelowCeiling(db: Db, settings: Settings, wait: Member, originMs: int, created: int)
    requires IsDue(db, SlotFor(wait)) && Origin(db, DueAt(db, wait)) == originMs
    requires CreatedAt(db.executions, wait, created)
    requires RenewsAlive(db, settings, Examine(SlotFor(wait)), SlotFor(wait))
    ensures db.now < Ceiling(originMs, created, settings.renewMaxMultiple)
    ensures ActionOn(db, settings, SlotFor(wait)).RenewEntry?
  {
    hide EncodeMember, DecodeMember, Ceiling;
    RoundTrip(wait);
  }

  lemma BudgetStep(db: Db, settings: Settings, e: Event, wait: Member, originMs: int, created: int, renewals: nat)
    requires OnBudget(db, wait, originMs, renewals) && CreatedAt(db.executions, wait, created)
    requires !Registers(e, SlotFor(wait))
    ensures var alive := RenewsAlive(db, settings, e, SlotFor(wait));
      && OnBudget(Next(db, settings, e), wait, originMs, renewals + One(alive))
      && (alive ==>
            renewals * WAIT_RENEW_INCREMENT_MS < Ceiling(originMs, created, settings.renewMaxMultiple) - originMs)
  {
    hide Next, Claims, Drops, Prunes, Triage, EncodeMember, Ceiling;
    var slot := SlotFor(wait);
    SlotStep(db, settings, e, slot);
    OneShardStep(db, settings, e, wait);
    OriginStep(db, settings, e, wait);
    if RenewsAlive(db, settings, e, slot) {
      AliveIsBelowCeiling(db, settings, wait, originMs, created);
    }
  }

  lemma {:induction false} BudgetRun(db: Db, settings: Settings, events: seq<Event>, wait: Member,
                                     originMs: int, created: int, renewals: nat)
    requires OnBudget(db, wait, originMs, renewals) && KeepsCreation(db, events, wait, created)
    requires forall e :: e in events ==> !Registers(e, SlotFor(wait))
    requires (renewals - 1) * WAIT_RENEW_INCREMENT_MS < Ceiling(originMs, created, settings.renewMaxMultiple) - originMs
    ensures var total := renewals + AliveRenewals(db, settings, events, SlotFor(wait));
      && OnBudget(Run(db, settings, events), wait, originMs, total)
      && (total - 1) * WAIT_RENEW_INCREMENT_MS < Ceiling(originMs, created, settings.renewMaxMultiple) - originMs
      && CreatedAt(Run(db, settings, events).executions, wait, created)
    decreases |events|
  {
    hide Next, RenewsAlive, EncodeMember, Ceiling, OnBudget;
    if events != [] {
      BudgetStep(db, settings, events[0], wait, originMs, created, renewals);
      EvidenceStep(db, settings, events[0]);
      BudgetRun(Next(db, settings, events[0]), settings, events[1..], wait, originMs, created,
                renewals + One(RenewsAlive(db, settings, events[0], SlotFor(wait))));
    }
  }

  lemma EvidenceStep(db: Db, settings: Settings, e: Event)
    ensures Next(db, settings, e).executions == if e.Evidence? then e.executions else db.executions
  {
    hide Examined, Decide, SlotFor, Appended, InScoreRange;
    if e.Examine? && IsDue(db, e.slot) {
      ExamineEffect(db, settings, e.slot, db.index[e.slot]);
    }
  }

  function CeilDiv(a: int, b: int): int
    requires b > 0
  {
    (a + b - 1) / b
  }

  /**
   Over any run that does not register the wait again, its ceiling stands still
   through renewals of every kind, and it is renewed for a live callee at most
   ceil(grace / increment) times.
   */
  lemma RenewalBound(db: Db, settings: Settings, events: seq<Event>, wait: Member, created: int)
    requires SlotFor(wait) in db.index && OneShard(db, wait) && KeepsCreation(db, events, wait, created)
    requires EncodeMember(wait) in db.origins ==> db.origins[EncodeMember(wait)] != 0
    requires Origin(db, DueAt(db, wait)) != 0 && db.index[SlotFor(wait)] >= Origin(db, DueAt(db, wait))
    requires forall e :: e in events ==> !Registers(e, SlotFor(wait))
    ensures var origin, end := Origin(db, DueAt(db, wait)), Run(db, settings, events);
      && (SlotFor(wait) in end.index ==> Origin(end, DueAt(end, wait)) == origin)
      && AliveRenewals(db, settings, events, SlotFor(wait))
           <= CeilDiv(Ceiling(origin, created, settings.renewMaxMultiple) - origin, WAIT_RENEW_INCREMENT_MS)
  {
    var origin := Origin(db, DueAt(db, wait));
    hide Run, AliveRenewals, EncodeMember, CeilDiv, Ceiling;
    BudgetRun(db, settings, events, wait, origin, created, 0);
    var total := AliveRenewals(db, settings, events, SlotFor(wait));
    FitsInGrace(total, Ceiling(origin, created, settings.renewMaxMultiple) - origin);
  }

  lemma FitsInGrace(renewals: nat, grace: int)
    requires (renewals - 1) * WAIT_RENEW_INCREMENT_MS < grace
    ensures renewals <= CeilDiv(grace, WAIT_RENEW_INCREMENT_MS)
  {
  }

  /**
   After any such run, the callee's live worker buys another renewal before the
   ceiling and a timeout stand-in from it on.
   */
  lemma CeilingDecides(db: Db, settings: Settings, events: seq<Event>, wait: Member, created: int)
    requires SlotFor(wait) in db.index && OneShard(db, wait) && KeepsCreation(db, events, wait, created)
    requires EncodeMember(wait) in db.origins ==> db.origins[EncodeMember(wait)] != 0
    requires Origin(db, DueAt(db, wait)) != 0 && db.index[SlotFor(wait)] >= Origin(db, DueAt(db, wait))
    requires forall e :: e in events ==> !Registers(e, SlotFor(wait))
    requires var end := Run(db, settings, events);
      && IsDue(end, SlotFor(wait)) && CallerSuspended(end, wait) && wait.childMessageId != ""
      && GroupAwaits(end, wait) && AtWork(end, wait.sessionId, wait.childMessageId) && Routable(end, wait)
    ensures var end := Run(db, settings, events);
      var verdict := Triage(end, settings, SlotFor(wait), end.index[SlotFor(wait)]);
      if end.now < Ceiling(Origin(db, DueAt(db, wait)), created, settings.renewMaxMultiple)
      then verdict == Renew(ChildAlive)
      else verdict.outcome.TimedOut? && verdict.action.Emit? && verdict.action.reply.errorCode == CHILD_TIMEOUT
  {
    RenewalBound(db, settings, events, wait, created);
    BudgetRun(db, settings, events, wait, Origin(db, DueAt(db, wait)), created, 0);
    LiveCalleeVerdict(Run(db, settings, events), settings, wait);
  }

  lemma LiveCalleeVerdict(db: Db, settings: Settings, wait: Member)
    requires IsDue(db, SlotFor(wait)) && CallerSuspended(db, wait) && wait.childMessageId != ""
    requires GroupAwaits(db, wait) && AtWork(db, wait.sessionId, wait.childMessageId) && Routable(db, wait)
    ensures var verdict := Triage(db, settings, SlotFor(wait), db.index[SlotFor(wait)]);
      var child := FindExecution(db, wait.sessionId, wait.childMessageId).value;
      if db.now < Ceiling(Origin(db, DueAt(db, wait)), child.createdAt, settings.renewMaxMultiple)
      then verdict == Renew(ChildAlive)
      else verdict.outcome.TimedOut? && verdict.action.Emit? && verdict.action.reply.errorCode == CHILD_TIMEOUT
  {
    hide EncodeMember, DecodeMember, Ceiling;
    RoundTrip(wait);
    SuspendedIsNotTerminal(BaseStatus(FindExecution(db, wait.sessionId, wait.parentMessageId).value.status));
  }

  /**
   Registering a wait again restarts its budget from the new deadline exactly
   when no other origin is stored for it.
   */
  lemma ReRegistrationBudget(db: Db, wait: Member, timeoutMs: int)
    ensures var after := Registered(db, wait, timeoutMs);
      Origin(after, DueAt(after, wait)) == after.index[SlotFor(wait)]
      <==> EncodeMember(wait) !in db.origins || db.origins[EncodeMember(wait)] == 0
           || db.origins[EncodeMember(wait)] == db.now + Max(0, timeoutMs)
  {
  }
}
