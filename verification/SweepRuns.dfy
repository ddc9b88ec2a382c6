/**
 What a batch and a whole pass of the sweeper amount to: every verdict is the
 one the store called for when the batch began, the stand-ins go out in batch
 order and nothing else does, and the pass is a run of examinations and prunes.
 */
module SweepRuns {
  import opened Wrappers
  import opened WaitIndex
  import opened WaitStore
  import opened WaitReply
  import opened WaitSweeper
  import opened SweepSafety
  import opened SweepVerdicts
  import opened LivenessRuns

  type Items = seq<(Slot, int)>

  /** No member twice: a batch of one shard, and any part of an index that keeps each member in one shard. */
  predicate DistinctMembers(items: Items) {
    forall i, j :: 0 <= i < j < |items| ==> items[i].0.member != items[j].0.member
  }

  function VerdictAt(db: Db, settings: Settings, item: (Slot, int)): Verdict { Triage(db, settings, item.0, item.1) }

  predicate SameOrigin(a: Db, b: Db, member: string) {
    (member in a.origins <==> member in b.origins) && (member in a.origins ==> a.origins[member] == b.origins[member])
  }

  /** Triage reads the evidence and the origin of the very member, nothing else of the store. */
  lemma TriageReads(a: Db, b: Db, settings: Settings, item: (Slot, int))
    requires SameEvidence(a, b) && SameOrigin(a, b, item.0.member)
    ensures VerdictAt(a, settings, item) == VerdictAt(b, settings, item)
  {
    hide DecodeMember, BaseStatus, Ceiling, Compensate, Fail;
  }

  lemma OriginElsewhere(db: Db, settings: Settings, item: (Slot, int), member: string)
    requires member != item.0.member
    ensures SameOrigin(db, Examined(db, settings, item.0, item.1), member)
  {
    hide Triage, Appended;
  }

  lemma {:induction false} BatchOrigins(db: Db, settings: Settings, items: Items, member: string)
    requires forall i :: 0 <= i < |items| ==> items[i].0.member != member
    ensures SameOrigin(db, SweptBatch(db, settings, items), member)
  {
    hide Examined;
    if items != [] {
      var n := |items| - 1;
      BatchOrigins(db, settings, items[..n], member);
      OriginElsewhere(SweptBatch(db, settings, items[..n]), settings, items[n], member);
    }
  }

  /** When an entry's turn comes its verdict is still the one the batch began with. */
  lemma VerdictStands(db: Db, settings: Settings, items: Items, i: nat)
    requires DistinctMembers(items) && i < |items|
    ensures VerdictAt(SweptBatch(db, settings, items[..i]), settings, items[i]) == VerdictAt(db, settings, items[i])
  {
    hide SweptBatch, VerdictAt;
    BatchEffect(db, settings, items[..i]);
    BatchOrigins(db, settings, items[..i], items[i].0.member);
    TriageReads(db, SweptBatch(db, settings, items[..i]), settings, items[i]);
  }

  /** The stand-ins the entries call for, in their order. */
  function StandInsDue(db: Db, settings: Settings, items: Items): seq<Reply> {
    if items == [] then []
    else
      var n := |items| - 1;
      var action := VerdictAt(db, settings, items[n]).action;
      StandInsDue(db, settings, items[..n]) + if action.Emit? then [action.reply] else []
  }

  /** What a verdict leaves of its entry. */
  ghost predicate Settled(db: Db, after: Db, item: (Slot, int), action: Action) {
    match action
    case DropEntry => item.0 !in after.index
    case LeaveEntry => Untouched(db, after, item.0)
    case _ => item.0 in after.index && after.index[item.0] == db.now + WAIT_RENEW_INCREMENT_MS
  }

  lemma OneExamined(db: Db, settings: Settings, item: (Slot, int))
    ensures var action, after := VerdictAt(db, settings, item).action, Examined(db, settings, item.0, item.1);
      && after.ctrl == (if action.Emit? then Appended(db.ctrl, action.reply) else db.ctrl)
      && Settled(db, after, item, action)
  {
    hide Triage, Appended;
  }

  lemma SettledStays(db: Db, mid: Db, after: Db, item: (Slot, int), action: Action)
    requires Settled(db, mid, item, action) && Untouched(mid, after, item.0)
    ensures Settled(db, after, item, action)
  {
  }

  /**
   A batch does what the store called for when it began, entry by entry: drops
   exactly the entries triage drops, renews exactly those it renews or answers,
   and appends to the callers' streams exactly the stand-ins that were due, in
   batch order.
   */
  lemma {:induction false} BatchDoesWhatIsDue(db: Db, settings: Settings, items: Items)
    requires DistinctMembers(items)
    ensures var after := SweptBatch(db, settings, items);
      && after.ctrl == AllAppended(db.ctrl, StandInsDue(db, settings, items))
      && forall i :: 0 <= i < |items| ==> Settled(db, after, items[i], VerdictAt(db, settings, items[i]).action)
  {
    hide Examined, VerdictAt, Settled, Appended;
    if items != [] {
      var n := |items| - 1;
      var before, last := items[..n], items[n];
      BatchDoesWhatIsDue(db, settings, before);
      var mid, after := SweptBatch(db, settings, before), SweptBatch(db, settings, items);
      BatchEffect(db, settings, before);
      VerdictStands(db, settings, items, n);
      OneExamined(mid, settings, last);
      ExamineEffect(mid, settings, last.0, last.1);
      LastSettled(db, settings, before, last);
      forall i | 0 <= i < n
        ensures Settled(db, after, items[i], VerdictAt(db, settings, items[i]).action)
      {
        assert before[i] == items[i] && items[i].0 != last.0;
        SettledStays(db, mid, after, items[i], VerdictAt(db, settings, items[i]).action);
      }
      OneMoreStandIn(db, settings, items);
    }
  }

  lemma LastSettled(db: Db, settings: Settings, before: Items, last: (Slot, int))
    requires DistinctMembers(before + [last])
    ensures var mid := SweptBatch(db, settings, before);
      Settled(db, Examined(mid, settings, last.0, last.1), last, VerdictAt(db, settings, last).action)
  {
    hide Examined, VerdictAt;
    var items, mid := before + [last], SweptBatch(db, settings, before);
    assert items[..|before|] == before && items[|before|] == last;
    VerdictStands(db, settings, items, |before|);
    OneExamined(mid, settings, last);
    BatchEffect(db, settings, before);
    forall i | 0 <= i < |before| ensures before[i].0 != last.0 { assert items[i] == before[i]; }
  }

  lemma OneMoreStandIn(db: Db, settings: Settings, items: Items)
    requires items != []
    ensures var n := |items| - 1;
      var action := VerdictAt(db, settings, items[n]).action;
      AllAppended(db.ctrl, StandInsDue(db, settings, items))
      == var earlier := AllAppended(db.ctrl, StandInsDue(db, settings, items[..n]));
         if action.Emit? then Appended(earlier, action.reply) else earlier
  {
    hide VerdictAt, Appended;
    var n := |items| - 1;
    var action, earlier := VerdictAt(db, settings, items[n]).action, StandInsDue(db, settings, items[..n]);
    if action.Emit? {
      assert (earlier + [action.reply])[..|earlier|] == earlier;
    } else {
      assert earlier + [] == earlier;
    }
  }

  function OutcomesDue(db: Db, settings: Settings, items: Items): multiset<Outcome> {
    multiset(seq(|items|, i requires 0 <= i < |items| => VerdictAt(db, settings, items[i]).outcome))
  }

  /** The callees the entries call to be stopped, in their order. */
  function CancelsDue(db: Db, settings: Settings, items: Items): seq<(string, string)> {
    if items == [] then []
    else
      var n := |items| - 1;
      CancelsDue(db, settings, items[..n])
      + match DecodeMember(items[n].0.member)
        case Some(e) =>
          if VerdictAt(db, settings, items[n]).cancelChild then [(e.sessionId, e.childMessageId)] else []
        case None => []
  }

  /** A batch counts one outcome for each entry and asks to stop exactly the callees the store called for. */
  lemma {:induction false} BatchReportsWhatIsDue(db: Db, settings: Settings, items: Items)
    requires DistinctMembers(items)
    ensures BatchOutcomes(db, settings, items) == OutcomesDue(db, settings, items)
    ensures BatchCancels(db, settings, items) == CancelsDue(db, settings, items)
  {
    hide Triage, SweptBatch, DecodeMember;
    if items != [] {
      var n := |items| - 1;
      BatchReportsWhatIsDue(db, settings, items[..n]);
      VerdictStands(db, settings, items, n);
      var outcomes := seq(|items|, i requires 0 <= i < |items| => VerdictAt(db, settings, items[i]).outcome);
      var before := items[..n];
      assert outcomes[..n] == seq(n, i requires 0 <= i < n => VerdictAt(db, settings, before[i]).outcome);
      assert outcomes == outcomes[..n] + [VerdictAt(db, settings, items[n]).outcome];
    }
  }

  // ---------------------------------------------------------------- a batch is a run

  function Examinations(items: Items): seq<Event> {
    if items == [] then [] else Examinations(items[..|items| - 1]) + [Examine(items[|items| - 1].0)]
  }

  lemma {:induction false} RunAppend(db: Db, settings: Settings, first: seq<Event>, more: seq<Event>)
    ensures Run(db, settings, first + more) == Run(Run(db, settings, first), settings, more)
    decreases |first|
  {
    hide Next;
    if first == [] {
      assert first + more == more;
    } else {
      assert (first + more)[0] == first[0] && (first + more)[1..] == first[1..] + more;
      RunAppend(Next(db, settings, first[0]), settings, first[1..], more);
    }
  }

  lemma RunOne(db: Db, settings: Settings, e: Event)
    ensures Run(db, settings, [e]) == Next(db, settings, e)
  {
    hide Next;
    assert [e][1..] == [];
  }

  /** Items as a batch reads them: due, each with the score it has. */
  predicate ReadFrom(db: Db, items: Items) {
    forall i :: 0 <= i < |items| ==>
      items[i].0 in db.index && db.index[items[i].0] == items[i].1 && items[i].1 <= db.now
  }

  /** Sweeping a batch is the run of the examinations of its entries. */
  lemma {:induction false} BatchIsRun(db: Db, settings: Settings, items: Items)
    requires DistinctMembers(items) && ReadFrom(db, items)
    ensures Run(db, settings, Examinations(items)) == SweptBatch(db, settings, items)
  {
    hide Examined;
    if items != [] {
      var n := |items| - 1;
      var before, last := items[..n], items[n];
      BatchIsRun(db, settings, before);
      BatchEffect(db, settings, before);
      var mid := SweptBatch(db, settings, before);
      assert last.0 !in Slots(before);
      assert Untouched(db, mid, last.0);
      RunAppend(db, settings, Examinations(before), [Examine(last.0)]);
      RunOne(mid, settings, Examine(last.0));
    }
  }

  lemma BatchItems(db: Db, shard: nat, batch: seq<Slot>)
    requires IsRange(db.index, shard, db.now, WAIT_SWEEP_BATCH_LIMIT, batch)
    ensures forall slot :: slot in batch ==> slot in db.index
    ensures DistinctMembers(WithScores(db.index, batch)) && ReadFrom(db, WithScores(db.index, batch))
  {
    hide Precedes;
    forall i, j | 0 <= i < j < |batch|
      ensures batch[i].member != batch[j].member
    {
      assert batch[i] == Slot(batch[i].shard, batch[i].member) && batch[j] == Slot(batch[j].shard, batch[j].member);
    }
  }

  /** What one shard's turn in a pass is, as a run of the protocol. */
  lemma ShardPassIsRun(before: Db, settings: Settings, enabled: bool, pruning: bool, claimed: bool, shard: nat,
                       after: Db, report: Report) returns (events: seq<Event>)
    requires ShardPassed(before, settings, enabled, pruning, claimed, shard, after, report)
    ensures Run(before, settings, events) == after
    ensures forall e :: e in events ==> e.Examine? || e == Prune(shard)
  {
    hide IsRange, SweptBatch, OutcomesOf, CancelsOf, Next, Pruned;
    events := [];
    if claimed {
      var start := StartingState(before, pruning, shard);
      if pruning {
        events := [Prune(shard)];
        RunOne(before, settings, Prune(shard));
        assert Next(before, settings, Prune(shard)) == start by { PruneIsEvent(before, settings, shard); }
      }
      if enabled {
        var batch :| SweptOnce(start, settings, shard, batch, after);
        BatchItems(start, shard, batch);
        var items := WithScores(start.index, batch);
        BatchIsRun(start, settings, items);
        RunAppend(before, settings, events, Examinations(items));
        OnlyExaminations(items);
        events := events + Examinations(items);
      }
    }
  }

  lemma PruneIsEvent(db: Db, settings: Settings, shard: nat)
    ensures Next(db, settings, Prune(shard)) == Pruned(db, shard)
  {
  }

  lemma {:induction false} OnlyExaminations(items: Items)
    ensures forall e :: e in Examinations(items) ==> e.Examine?
  {
    if items != [] {
      OnlyExaminations(items[..|items| - 1]);
    }
  }

  /** A whole pass is a run of prunes and examinations: whatever holds of every run of the protocol holds of it. */
  lemma {:induction false} PassIsRun(states: seq<Db>, reports: seq<Report>, settings: Settings, enabled: bool,
                                     pruning: bool, claims: seq<bool>, start: nat, k: nat) returns (events: seq<Event>)
    requires Pass(states, reports, settings, enabled, pruning, claims, start) && k <= WAIT_INDEX_SHARDS
    ensures Run(states[0], settings, events) == states[k]
    ensures forall e :: e in events ==> e.Examine? || e.Prune?
  {
    hide ShardPassed, Next;
    if k == 0 {
      events := [];
    } else {
      var earlier := PassIsRun(states, reports, settings, enabled, pruning, claims, start, k - 1);
      var shard := (start + (k - 1)) % WAIT_INDEX_SHARDS;
      assert ShardPassed(states[k - 1], settings, enabled, pruning, claims[k - 1], shard, states[k], reports[k - 1]);
      var more :=
        ShardPassIsRun(states[k - 1], settings, enabled, pruning, claims[k - 1], shard, states[k], reports[k - 1]);
      RunAppend(states[0], settings, earlier, more);
      events := earlier + more;
    }
  }

  // ---------------------------------------------------------------- a pass answers every caller that is owed one

  lemma {:induction false} AppendedKeeps(ctrl: map<string, seq<Reply>>, replies: seq<Reply>, reply: Reply,
                                         agentType: string)
    requires reply in Stream(ctrl, agentType) || (reply in replies && reply.targetAgentType == agentType)
    ensures reply in Stream(AllAppended(ctrl, replies), agentType)
  {
    if replies != [] {
      var n := |replies| - 1;
      if reply in Stream(ctrl, agentType) || reply in replies[..n] {
        AppendedKeeps(ctrl, replies[..n], reply, agentType);
      }
    }
  }

  lemma {:induction false} DueIsQueued(db: Db, settings: Settings, items: Items, i: nat)
    requires i < |items| && VerdictAt(db, settings, items[i]).action.Emit?
    ensures VerdictAt(db, settings, items[i]).action.reply in StandInsDue(db, settings, items)
  {
    hide VerdictAt;
    if i < |items| - 1 {
      DueIsQueued(db, settings, items[..|items| - 1], i);
    }
  }

  /** One turn leaves what the streams held, and no new entry or foreign origin. */
  lemma TurnKeeps(before: Db, settings: Settings, pruning: bool, shard: nat, after: Db, report: Report, reply: Reply,
                  agentType: string, member: string)
    requires ShardPassed(before, settings, true, pruning, true, shard, after, report)
    ensures reply in Stream(before.ctrl, agentType) ==> reply in Stream(after.ctrl, agentType)
    ensures after.index.Keys <= before.index.Keys
    ensures (forall slot :: slot in before.index && slot.shard == shard ==> slot.member != member) ==>
              SameOrigin(before, after, member)
  {
    hide SweptBatch, OutcomesOf, CancelsOf, Precedes;
    var start := StartingState(before, pruning, shard);
    var batch :| SweptOnce(start, settings, shard, batch, after);
    BatchItems(start, shard, batch);
    var items := WithScores(start.index, batch);
    BatchDoesWhatIsDue(start, settings, items);
    if reply in Stream(before.ctrl, agentType) {
      AppendedKeeps(start.ctrl, StandInsDue(start, settings, items), reply, agentType);
    }
    BatchKeys(start, settings, items);
    if forall slot :: slot in before.index && slot.shard == shard ==> slot.member != member {
      forall i | 0 <= i < |items| ensures items[i].0.member != member { assert items[i].0 == batch[i]; }
      BatchOrigins(start, settings, items, member);
    }
  }

  lemma BatchKeys(db: Db, settings: Settings, items: Items)
    requires ReadFrom(db, items)
    ensures SweptBatch(db, settings, items).index.Keys <= db.index.Keys
  {
    hide SweptBatch, Parked;
    BatchEffect(db, settings, items);
    var after := SweptBatch(db, settings, items);
    forall slot | slot in after.index
      ensures slot in db.index
    {
      if slot in Slots(items) {
        var i :| 0 <= i < |items| && items[i].0 == slot;
      } else {
        assert Untouched(db, after, slot);
      }
    }
  }

  /** The turn of a shard with no more than one batch due answers every caller that is owed a stand-in there. */
  lemma TurnRescues(before: Db, settings: Settings, pruning: bool, shard: nat, after: Db, report: Report, slot: Slot)
    requires ShardPassed(before, settings, true, pruning, true, shard, after, report)
    requires |DueAtTurn(before, pruning, shard)| <= WAIT_SWEEP_BATCH_LIMIT && slot in DueAtTurn(before, pruning, shard)
    requires slot in before.index && VerdictAt(before, settings, (slot, before.index[slot])).action.Emit?
    ensures var reply := VerdictAt(before, settings, (slot, before.index[slot])).action.reply;
      reply in Stream(after.ctrl, reply.targetAgentType)
  {
    hide SweptBatch, OutcomesOf, CancelsOf, Precedes, VerdictAt, Settled;
    var start := StartingState(before, pruning, shard);
    var batch :| SweptOnce(start, settings, shard, batch, after);
    BatchItems(start, shard, batch);
    FullBatch(batch, Due(start, shard));
    var items := WithScores(start.index, batch);
    var i :| 0 <= i < |batch| && batch[i] == slot;
    assert items[i] == (slot, before.index[slot]);
    PruneTouches(before, pruning, shard);
    TriageReads(before, start, settings, items[i]);
    BatchDoesWhatIsDue(start, settings, items);
    DueIsQueued(start, settings, items, i);
    var reply := VerdictAt(before, settings, items[i]).action.reply;
    AppendedKeeps(start.ctrl, StandInsDue(start, settings, items), reply, reply.targetAgentType);
  }

  /** Each member stands in one shard, its session's, as every registration keeps it. */
  predicate OneShardEach(db: Db) {
    forall a, b :: a in db.index && b in db.index && a.member == b.member ==> a == b
  }

  /** Until a shard's turn its entries, the evidence and their origins are what they were when the pass began. */
  lemma {:induction false} AsItWas(states: seq<Db>, reports: seq<Report>, settings: Settings, pruning: bool,
                                   claims: seq<bool>, start: nat, k: nat, slot: Slot)
    requires start < WAIT_INDEX_SHARDS && slot.shard < WAIT_INDEX_SHARDS
    requires Pass(states, reports, settings, true, pruning, claims, start)
    requires forall j :: 0 <= j < |claims| ==> claims[j]
    requires OneShardEach(states[0]) && slot in states[0].index
    requires k <= (slot.shard - start) % WAIT_INDEX_SHARDS
    ensures SameEvidence(states[0], states[k]) && SameOrigin(states[0], states[k], slot.member)
    ensures states[k].index.Keys <= states[0].index.Keys
    ensures forall other: Slot :: other.shard == slot.shard ==> Untouched(states[0], states[k], other)
  {
    hide ShardPassed;
    if k > 0 {
      AsItWas(states, reports, settings, pruning, claims, start, k - 1, slot);
      var visited := (start + (k - 1)) % WAIT_INDEX_SHARDS;
      VisitOrder(start, k - 1, slot.shard);
      assert ShardPassed(states[k - 1], settings, true, pruning, claims[k - 1], visited, states[k], reports[k - 1]);
      var any: Reply := StandInReply(Member("", "", "", ""), "", "", "", "", ResultPayload(""), "");
      TurnKeeps(states[k - 1], settings, pruning, visited, states[k], reports[k - 1], any, "", slot.member);
      ShardSettles(states[k - 1], settings, pruning, visited, states[k], reports[k - 1]);
    }
  }

  lemma {:induction false} StaysSent(states: seq<Db>, reports: seq<Report>, settings: Settings, pruning: bool,
                                     claims: seq<bool>, start: nat, from: nat, k: nat, reply: Reply, agentType: string)
    requires Pass(states, reports, settings, true, pruning, claims, start)
    requires forall j :: 0 <= j < |claims| ==> claims[j]
    requires from <= k <= WAIT_INDEX_SHARDS && reply in Stream(states[from].ctrl, agentType)
    ensures reply in Stream(states[k].ctrl, agentType)
  {
    hide ShardPassed;
    if from < k {
      StaysSent(states, reports, settings, pruning, claims, start, from, k - 1, reply, agentType);
      var visited := (start + (k - 1)) % WAIT_INDEX_SHARDS;
      assert ShardPassed(states[k - 1], settings, true, pruning, claims[k - 1], visited, states[k], reports[k - 1]);
      TurnKeeps(states[k - 1], settings, pruning, visited, states[k], reports[k - 1], reply, agentType, "");
    }
  }

  /**
   One pass in which every lock is free answers every caller owed a stand-in
   when it began, in every shard in which the prune leaves at most 200 entries
   due: its stand-in is on the stream the caller reads when the pass ends.
   */
  lemma PassRescues(states: seq<Db>, reports: seq<Report>, settings: Settings, pruning: bool, claims: seq<bool>,
                    start: nat, slot: Slot)
    requires start < WAIT_INDEX_SHARDS && slot.shard < WAIT_INDEX_SHARDS
    requires Pass(states, reports, settings, true, pruning, claims, start)
    requires forall j :: 0 <= j < |claims| ==> claims[j]
    requires OneShardEach(states[0]) && slot in states[0].index
    requires |DueAtTurn(states[0], pruning, slot.shard)| <= WAIT_SWEEP_BATCH_LIMIT
    requires slot in DueAtTurn(states[0], pruning, slot.shard)
    requires Owed(states[0], settings, slot, states[0].index[slot])
    ensures var verdict := Triage(states[0], settings, slot, states[0].index[slot]);
      && verdict.action.Emit? && DecodeMember(slot.member).Some?
      && var wait := DecodeMember(slot.member).value;
         && SaysWhatBecameOf(states[0], wait, verdict.action.reply)
         && verdict.action.reply in Stream(states[WAIT_INDEX_SHARDS].ctrl, CallersStream(states[0], wait))
  {
    hide ShardPassed, Triage, Owed, DueAtTurn, DecodeMember, SaysWhatBecameOf, CallersStream;
    StandInIffOwed(states[0], settings, slot, states[0].index[slot]);
    StandInSays(states[0], settings, slot, states[0].index[slot]);
    var j, item := (slot.shard - start) % WAIT_INDEX_SHARDS, (slot, states[0].index[slot]);
    AsItWas(states, reports, settings, pruning, claims, start, j, slot);
    SameAtTurn(states[0], states[j], pruning, slot.shard);
    assert Untouched(states[0], states[j], slot);
    TriageReads(states[0], states[j], settings, item);
    VisitOrder(start, j, slot.shard);
    assert ShardPassed(states[j], settings, true, pruning, claims[j], slot.shard, states[j + 1], reports[j]);
    TurnRescues(states[j], settings, pruning, slot.shard, states[j + 1], reports[j], slot);
    var reply := VerdictAt(states[0], settings, item).action.reply;
    StaysSent(states, reports, settings, pruning, claims, start, j + 1, WAIT_INDEX_SHARDS, reply,
              reply.targetAgentType);
  }
}
