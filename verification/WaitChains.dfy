/** Callers waiting on callers at one instant: the deepest wait is the one that fails. */
module WaitChains {
  import opened WaitIndex
  import opened WaitStore
  import opened WaitSweeper
  import opened SweepSafety
  import opened LivenessRuns
  import opened RenewalBudget

  // ---------------------------------------------------------------- one instant

  /** A registered, routable, unjoined wait of a suspended caller whose ceiling has passed. */
  ghost predicate Overdue(db: Db, settings: Settings, wait: Member) {
    && SlotFor(wait) in db.index && wait.childMessageId != "" && CallerSuspended(db, wait)
    && GroupAwaits(db, wait) && Routable(db, wait)
    && (FindExecution(db, wait.sessionId, wait.childMessageId).Some? ==>
          Ceiling(Origin(db, DueAt(db, wait)), FindExecution(db, wait.sessionId, wait.childMessageId).value.createdAt,
                  settings.renewMaxMultiple) <= db.now)
  }

  ghost predicate GetsStandIn(db: Db, settings: Settings, wait: Member) {
    SlotFor(wait) in db.index && ActionOn(db, settings, SlotFor(wait)).Emit?
  }

  /** Of an overdue wait, only a suspended callee keeps the stand-in back. */
  lemma OverdueFailsIff(db: Db, settings: Settings, wait: Member)
    requires Overdue(db, settings, wait)
    ensures GetsStandIn(db, settings, wait) <==> !Suspended(db, wait.sessionId, wait.childMessageId)
  {
    hide Triage, EncodeMember, DecodeMember, Ceiling;
    RoundTrip(wait);
    StandInIffOwed(db, settings, SlotFor(wait), db.index[SlotFor(wait)]);
    if Suspended(db, wait.sessionId, wait.childMessageId) {
      SuspendedIsNotTerminal(BaseStatus(FindExecution(db, wait.sessionId, wait.childMessageId).value.status));
    }
  }

  ghost predicate WaitsOn(outer: Member, inner: Member) {
    inner.sessionId == outer.sessionId && inner.parentMessageId == outer.childMessageId
  }

  lemma {:induction false} LowestRank(waits: set<Member>, rank: Member -> int) returns (low: Member)
    requires waits != {}
    ensures low in waits && forall w :: w in waits ==> rank(low) <= rank(w)
    decreases waits
  {
    var any :| any in waits;
    var others := waits - {any};
    low := any;
    if others != {} {
      var lowest := LowestRank(others, rank);
      low := if rank(any) <= rank(lowest) then any else lowest;
    }
    forall w | w in waits
      ensures rank(low) <= rank(w)
    {
      assert w == any || w in others;
    }
  }

  /** The waits-on relation descends, that is, it has no cycle. */
  ghost predicate Descends(waits: set<Member>, rank: Member -> int) {
    forall a, b :: a in waits && b in waits && WaitsOn(a, b) ==> rank(b) < rank(a)
  }

  /** Every suspended callee is itself one of the waiting callers. */
  ghost predicate Closed(db: Db, waits: set<Member>) {
    forall w :: w in waits && Suspended(db, w.sessionId, w.childMessageId) ==>
      exists inner :: inner in waits && WaitsOn(w, inner)
  }

  /**
   At one instant some stand-in is due exactly when not every callee is
   suspended: round a cycle of suspended callers none is.
   */
  lemma StandInDueIff(db: Db, settings: Settings, waits: set<Member>)
    requires forall w :: w in waits ==> Overdue(db, settings, w)
    ensures (exists w :: w in waits && GetsStandIn(db, settings, w))
       <==> (exists w :: w in waits && !Suspended(db, w.sessionId, w.childMessageId))
  {
    hide Overdue, GetsStandIn, Suspended;
    forall w | w in waits
      ensures GetsStandIn(db, settings, w) <==> !Suspended(db, w.sessionId, w.childMessageId)
    {
      OverdueFailsIff(db, settings, w);
    }
  }

  /** An acyclic chain of overdue waits always has a deepest one, and a stand-in is due for it. */
  lemma DeepestWaitFails(db: Db, settings: Settings, waits: set<Member>, rank: Member -> int)
    requires waits != {} && Descends(waits, rank) && Closed(db, waits)
    requires forall w :: w in waits ==> Overdue(db, settings, w)
    ensures exists w :: w in waits && GetsStandIn(db, settings, w)
              && !exists inner :: inner in waits && WaitsOn(w, inner)
  {
    hide Overdue, GetsStandIn, Suspended;
    var low := LowestRank(waits, rank);
    OverdueFailsIff(db, settings, low);
    assert !exists inner :: inner in waits && WaitsOn(low, inner);
  }
}
