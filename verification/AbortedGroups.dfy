/** A task group whose fan-out failed: nothing sent, stored or registered for it ever wakes its caller. */
module AbortedGroups {
  import opened Wrappers
  import opened WaitIndex
  import opened WaitStore
  import opened WaitGate
  import opened WaitSweeper
  import opened SweepSafety
  import opened SweepVerdicts
  import opened TaskGroupJoin
  import opened LivenessRuns

  predicate Dead(db: Db, g: string) { g != "" && g in db.groups && db.groups[g].aborted }

  /** A late reply of the group joins nothing and resumes nobody, whatever the gate says of it. */
  lemma LateReplyIsDiscarded(db: Db, settings: Settings, reply: Reply)
    requires Dead(db, reply.header.taskGroupId)
    ensures !Resumes(db, Deliver(reply))
    ensures var after := Next(db, settings, Deliver(reply)); after.results == db.results && after.groups == db.groups
  {
    hide Decide;
  }

  /**
   A due entry of the group gets no stand-in, and is dropped unless its caller
   may still run or it names no sub-task.
   */
  lemma EntryOfDeadGroup(db: Db, settings: Settings, slot: Slot, deadlineMs: int)
    requires DecodeMember(slot.member).Some? && Dead(db, DecodeMember(slot.member).value.taskGroupId)
    ensures var e, action := DecodeMember(slot.member).value, Triage(db, settings, slot, deadlineMs).action;
      && !action.Emit?
      && (action.DropEntry? <==>
            && !(Active(db, e.sessionId, e.parentMessageId) && !OnLostWorker(db, e.sessionId, e.parentMessageId))
            && !(CallerSuspended(db, e) && e.childMessageId == ""))
  {
    hide DecodeMember, Triage, StatusOf;
    StandInIffOwed(db, settings, slot, deadlineMs);
    DroppedIff(db, settings, slot, deadlineMs);
    SuspendedIsUnfinished(db);
  }

  /** A step that wakes a caller by a reply of the group, or puts a stand-in of the group on a stream. */
  predicate Stirs(db: Db, settings: Settings, e: Event, g: string) {
    || (Resumes(db, e) && e.reply.header.taskGroupId == g)
    || (e.Examine? && IsDue(db, e.slot) && ActionOn(db, settings, e.slot).Emit?
        && ActionOn(db, settings, e.slot).reply.header.taskGroupId == g)
  }

  function Stirrings(db: Db, settings: Settings, events: seq<Event>, g: string): nat
    decreases |events|
  {
    if events == [] then 0
    else One(Stirs(db, settings, events[0], g)) + Stirrings(Next(db, settings, events[0]), settings, events[1..], g)
  }

  /** What is stored of a group and its results. */
  ghost predicate SameGroup(a: Db, b: Db, g: string) {
    && (g in a.groups <==> g in b.groups) && (g in a.groups ==> a.groups[g] == b.groups[g])
    && forall child :: ((g, child) in a.results <==> (g, child) in b.results)
         && ((g, child) in a.results ==> a.results[(g, child)] == b.results[(g, child)])
  }

  lemma DeadStep(db: Db, settings: Settings, e: Event, g: string)
    requires Dead(db, g) && (e.Evidence? ==> g in e.groups && e.groups[g].aborted)
    ensures Dead(Next(db, settings, e), g) && !Stirs(db, settings, e, g)
    ensures !e.Evidence? ==> SameGroup(db, Next(db, settings, e), g)
  {
    hide Examined, Decide, SlotFor, Appended, InScoreRange, Triage, EncodeMember, DecodeMember;
    if e.Examine? && IsDue(db, e.slot) {
      ExamineEffect(db, settings, e.slot, db.index[e.slot]);
      if ActionOn(db, settings, e.slot).Emit? {
        EmissionAddressed(db, settings, e.slot, db.index[e.slot]);
        if DecodeMember(e.slot.member).value.taskGroupId == g {
          EntryOfDeadGroup(db, settings, e.slot, db.index[e.slot]);
        }
      }
    } else if e.Deliver? && e.reply.header.taskGroupId == g {
      LateReplyIsDiscarded(db, settings, e.reply);
    }
  }

  /**
   As long as the group stays aborted, whatever is registered, delivered, swept
   or changed: no reply of it resumes its caller and no stand-in of it goes out;
   and unless the records are rewritten, its counter and results stand still.
   */
  lemma {:induction false} DeadForGood(db: Db, settings: Settings, events: seq<Event>, g: string)
    requires Dead(db, g)
    requires forall e :: e in events && e.Evidence? ==> g in e.groups && e.groups[g].aborted
    ensures var end := Run(db, settings, events);
      && Dead(end, g) && Stirrings(db, settings, events, g) == 0
      && ((forall e :: e in events ==> !e.Evidence?) ==> SameGroup(db, end, g))
    decreases |events|
  {
    hide Next, Stirs;
    if events != [] {
      DeadStep(db, settings, events[0], g);
      DeadForGood(Next(db, settings, events[0]), settings, events[1..], g);
      assert events[0] in events;
    }
  }
}
