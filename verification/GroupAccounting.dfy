/** Task-group accounting over whole runs: every member is counted once and the aggregate fires once, at the last. */
module GroupAccounting {
  import opened Wrappers
  import opened WaitIndex
  import opened WaitStore
  import opened WaitGate
  import opened WaitSweeper
  import opened SweepSafety
  import opened TaskGroupJoin
  import opened LivenessRuns

  /** A fan-out: the caller, its group id and the ids of the sub-tasks. */
  datatype FanOut = FanOut(sessionId: string, callerId: string, groupId: string, children: set<string>)

  function WaitOf(f: FanOut, child: string): Member { Member(f.sessionId, f.callerId, child, f.groupId) }

  function JoinedChildren(db: Db, f: FanOut): set<string> {
    set child | child in f.children && (f.groupId, child) in db.results
  }

  /** Where one sub-task stands: not registered, waiting, or claimed and joined. */
  ghost predicate InPhase(db: Db, f: FanOut, child: string) {
    var waiting, marked := SlotFor(WaitOf(f, child)) in db.index, EncodeMember(WaitOf(f, child)) in db.consumed;
    !(waiting && marked) && ((f.groupId, child) in db.results <==> marked)
  }

  ghost predicate Accounts(db: Db, f: FanOut) {
    && f.groupId != "" && f.groupId in db.groups && !db.groups[f.groupId].aborted
    && db.groups[f.groupId].total == |f.children| > 0
    && db.groups[f.groupId].completed == |JoinedChildren(db, f)|
    && forall child :: child in f.children ==> InPhase(db, f, child)
  }

  /** Members leave the index only through the gate, and only the join touches the group's keys. */
  ghost predicate LeavesGroupAlone(db: Db, settings: Settings, e: Event, f: FanOut) {
    && (forall child :: child in f.children ==>
          !Drops(db, settings, e, SlotFor(WaitOf(f, child))) && !Prunes(db, e, SlotFor(WaitOf(f, child))))
    && (e.Evidence? ==>
          && f.groupId in db.groups && f.groupId in e.groups && e.groups[f.groupId] == db.groups[f.groupId]
          && forall child :: (f.groupId, child) in e.results <==> (f.groupId, child) in db.results)
  }

  /**
   Sub-task ids are fresh, each is registered once, and a reply carrying the
   group id answers a registered sub-task.
   */
  ghost predicate AnswersGroup(db: Db, e: Event, f: FanOut) {
    && (e.Register? && e.wait.taskGroupId == f.groupId ==>
          && e.wait.childMessageId in f.children && e.wait == WaitOf(f, e.wait.childMessageId)
          && !Settles(db, f.sessionId, EncodeMember(e.wait)))
    && (e.Deliver? && e.reply.header.taskGroupId == f.groupId ==>
          && e.reply.header.parentMessageId in f.children
          && e.reply.header == Header(f.sessionId, f.callerId, e.reply.header.parentMessageId, f.groupId)
          && Settles(db, f.sessionId, MemberFromResume(e.reply.header)))
  }

  ghost predicate GroupRun(db: Db, settings: Settings, events: seq<Event>, f: FanOut)
    decreases |events|
  {
    events != [] ==>
      && AnswersGroup(db, events[0], f) && LeavesGroupAlone(db, settings, events[0], f)
      && GroupRun(Next(db, settings, events[0]), settings, events[1..], f)
  }

  predicate Aggregates(db: Db, e: Event, f: FanOut) {
    e.Deliver? && e.reply.header.taskGroupId == f.groupId && Decide(db, e.reply.header).Allowed()
    && Join(AfterGate(db, e.reply.header), e.reply).Aggregated?
  }

  function Aggregations(db: Db, settings: Settings, events: seq<Event>, f: FanOut): nat
    decreases |events|
  {
    if events == [] then 0
    else One(Aggregates(db, events[0], f)) + Aggregations(Next(db, settings, events[0]), settings, events[1..], f)
  }

  /** A reply of the group joins exactly when its member is still waiting. */
  lemma GroupReply(db: Db, settings: Settings, reply: Reply, f: FanOut)
    requires Accounts(db, f) && AnswersGroup(db, Deliver(reply), f) && reply.header.taskGroupId == f.groupId
    ensures var child := reply.header.parentMessageId;
      var after := Next(db, settings, Deliver(reply));
      if SlotFor(WaitOf(f, child)) in db.index then
        && Decide(db, reply.header) == Claimed(EncodeMember(WaitOf(f, child)))
        && JoinedChildren(after, f) == JoinedChildren(db, f) + {child}
        && child !in JoinedChildren(db, f)
        && after.groups
          == db.groups[f.groupId := db.groups[f.groupId].(completed := db.groups[f.groupId].completed + 1)]
        && (Aggregates(db, Deliver(reply), f) <==> db.groups[f.groupId].completed + 1 >= |f.children|)
        && (forall key :: key in after.results <==> key in db.results || key == (f.groupId, child))
      else after == db && !Aggregates(db, Deliver(reply), f)
  {
    hide EncodeMember, SlotFor;
    var child := reply.header.parentMessageId;
    MemberDecision(db, reply, f);
    assert InPhase(db, f, child);
  }

  /** The gate claims the member's entry while it is live, and turns the reply away once it is marked. */
  lemma MemberDecision(db: Db, reply: Reply, f: FanOut)
    requires Accounts(db, f) && AnswersGroup(db, Deliver(reply), f) && reply.header.taskGroupId == f.groupId
    ensures var member := EncodeMember(WaitOf(f, reply.header.parentMessageId));
      Decide(db, reply.header)
      == if SlotFor(WaitOf(f, reply.header.parentMessageId)) in db.index then Claimed(member)
         else AlreadyConsumed(member)
  {
    hide EncodeMember, Accounts;
    GroupOpen(db, f);
    assert CandidateMembers(reply.header) == [EncodeMember(WaitOf(f, reply.header.parentMessageId))];
  }

  /** Sets of children no larger than the whole. */
  lemma Fits(part: set<string>, whole: set<string>)
    requires part <= whole
    ensures |part| <= |whole| && (|part| == |whole| ==> part == whole)
  {
    assert whole == part + (whole - part);
  }

  /** Every other event leaves the group's counter and results as they are. */
  lemma ElsewhereStep(db: Db, settings: Settings, e: Event, f: FanOut)
    requires Accounts(db, f) && LeavesGroupAlone(db, settings, e, f)
    requires !(e.Deliver? && e.reply.header.taskGroupId == f.groupId)
    ensures var after := Next(db, settings, e);
      && f.groupId in after.groups && after.groups[f.groupId] == db.groups[f.groupId]
      && (forall child :: (f.groupId, child) in after.results <==> (f.groupId, child) in db.results)
  {
    hide Examined, Decide, EncodeMember, Accounts, Appended, InScoreRange, SlotFor;
    assert f.groupId in db.groups by { GroupExists(db, f); }
    if e.Examine? && IsDue(db, e.slot) {
      ExamineEffect(db, settings, e.slot, db.index[e.slot]);
    }
  }

  lemma GroupExists(db: Db, f: FanOut)
    requires Accounts(db, f)
    ensures f.groupId in db.groups && f.groupId != ""
  {
  }

  lemma PhaseStep(db: Db, settings: Settings, e: Event, f: FanOut, child: string)
    requires Accounts(db, f) && child in f.children
    requires AnswersGroup(db, e, f) && LeavesGroupAlone(db, settings, e, f)
    ensures InPhase(Next(db, settings, e), f, child)
  {
    hide Next, Claims, Drops, Prunes, Renews, EncodeMember, Decide, JoinedChildren;
    var wait := WaitOf(f, child);
    assert InPhase(db, f, child);
    SlotStep(db, settings, e, SlotFor(wait));
    MarkerStep(db, settings, e, f.sessionId, EncodeMember(wait));
    ClaimNamesMember(db, e, wait);
    if e.Register? && EncodeMember(e.wait) == EncodeMember(wait) {
      EncodeInjective(e.wait, wait);
    }
    if e.Deliver? && e.reply.header.taskGroupId == f.groupId {
      GroupReply(db, settings, e.reply, f);
      if e.reply.header.parentMessageId != child
        && EncodeMember(WaitOf(f, e.reply.header.parentMessageId)) == EncodeMember(wait) {
        EncodeInjective(WaitOf(f, e.reply.header.parentMessageId), wait);
      }
    } else {
      ElsewhereStep(db, settings, e, f);
      ForeignClaim(db, e, f, child);
    }
  }

  /** A reply of another group, or of none, claims no member of this one. */
  lemma ForeignClaim(db: Db, e: Event, f: FanOut, child: string)
    requires f.groupId != ""
    requires e.Deliver? ==> e.reply.header.taskGroupId != f.groupId
    ensures !(e.Deliver? && Decide(db, e.reply.header) == Claimed(EncodeMember(WaitOf(f, child))))
  {
    if e.Deliver? && Decide(db, e.reply.header) == Claimed(EncodeMember(WaitOf(f, child))) {
      var h := e.reply.header;
      DecideAmongIsCandidate(db, h.sessionId, CandidateMembers(h));
      RoundTrip(WaitOf(f, child));
      RoundTrip(Member(h.sessionId, h.messageId, h.parentMessageId, h.taskGroupId));
      RoundTrip(Member(h.sessionId, h.messageId, "", ""));
      assert false;
    }
  }

  lemma AccountsStep(db: Db, settings: Settings, e: Event, f: FanOut)
    requires Accounts(db, f) && AnswersGroup(db, e, f) && LeavesGroupAlone(db, settings, e, f)
    ensures var after := Next(db, settings, e);
      && Accounts(after, f)
      && One(Aggregates(db, e, f)) + One(JoinedChildren(db, f) == f.children)
        == One(JoinedChildren(after, f) == f.children)
  {
    hide Next, Aggregates, EncodeMember, AnswersGroup, LeavesGroupAlone;
    var after := Next(db, settings, e);
    forall child | child in f.children
      ensures InPhase(after, f, child)
    {
      PhaseStep(db, settings, e, f, child);
    }
    Fits(JoinedChildren(db, f), f.children);
    Fits(JoinedChildren(after, f), f.children);
    if e.Deliver? && e.reply.header.taskGroupId == f.groupId {
      GroupReply(db, settings, e.reply, f);
      ChildOfReply(db, e.reply, f);
    } else {
      ElsewhereStep(db, settings, e, f);
      assert JoinedChildren(after, f) == JoinedChildren(db, f);
      assert !Aggregates(db, e, f) by { NotAggregating(db, e, f); }
    }
  }

  /** The aggregate the caller is resumed with holds a result of every sub-task, the last reply's included. */
  lemma AggregateIsComplete(db: Db, settings: Settings, e: Event, f: FanOut)
    requires Accounts(db, f) && AnswersGroup(db, e, f) && LeavesGroupAlone(db, settings, e, f) && Aggregates(db, e, f)
    ensures var aggregate := GroupResults(Next(db, settings, e).results, f.groupId);
      && f.children <= aggregate.Keys
      && e.reply.header.parentMessageId in aggregate
      && Records(aggregate[e.reply.header.parentMessageId], e.reply)
  {
    hide AnswersGroup, LeavesGroupAlone, EncodeMember, Decide;
    var after := Next(db, settings, e);
    AccountsStep(db, settings, e, f);
    assert after.results[(f.groupId, e.reply.header.parentMessageId)] == ResultOf(e.reply);
    forall child | child in f.children
      ensures child in JoinedIds(after.results, f.groupId)
    {
      assert child in JoinedChildren(after, f);
      assert (f.groupId, child) in after.results;
    }
    ChildOfReply(db, e.reply, f);
  }

  /** What is stored of a reply: its status, and its content or, of a failure, the error code. */
  predicate Records(stored: StoredResult, reply: Reply) {
    && stored.status == reply.status
    && match reply.payload
       case ResultPayload(content) => stored.content == content
       case FailurePayload(code, _) => stored.content == code
  }

  predicate JoinsFor(db: Db, e: Event, f: FanOut, child: string) {
    e.Deliver? && e.reply.header.taskGroupId == f.groupId && e.reply.header.parentMessageId == child
    && Decide(db, e.reply.header).Allowed()
  }

  /** The reply the gate let through for the sub-task in a run. */
  function JoinedReply(db: Db, settings: Settings, events: seq<Event>, f: FanOut, child: string): Option<Reply>
    decreases |events|
  {
    if events == [] then None
    else if JoinsFor(db, events[0], f, child) then Some(events[0].reply)
    else JoinedReply(Next(db, settings, events[0]), settings, events[1..], f, child)
  }

  /** A change of evidence leaves what is stored for the sub-task as it was. */
  ghost predicate KeepsResult(db: Db, settings: Settings, events: seq<Event>, key: (string, string))
    decreases |events|
  {
    events != [] ==>
      && (events[0].Evidence? && key in db.results && key in events[0].results ==>
            events[0].results[key] == db.results[key])
      && KeepsResult(Next(db, settings, events[0]), settings, events[1..], key)
  }

  /** What one step does to the result of one sub-task. */
  lemma ResultStep(db: Db, settings: Settings, e: Event, f: FanOut, child: string)
    requires Accounts(db, f) && AnswersGroup(db, e, f) && LeavesGroupAlone(db, settings, e, f) && child in f.children
    requires e.Evidence? && (f.groupId, child) in db.results && (f.groupId, child) in e.results ==>
               e.results[(f.groupId, child)] == db.results[(f.groupId, child)]
    ensures var key, after := (f.groupId, child), Next(db, settings, e);
      && (key in after.results <==> key in db.results || JoinsFor(db, e, f, child))
      && (JoinsFor(db, e, f, child) ==> key !in db.results && Records(after.results[key], e.reply))
      && (!JoinsFor(db, e, f, child) && key in db.results ==> after.results[key] == db.results[key])
  {
    hide AnswersGroup, LeavesGroupAlone, EncodeMember, Decide, Accounts, JoinedChildren, SlotFor;
    ResultsElsewhere(db, settings, e);
    if e.Deliver? && e.reply.header.taskGroupId == f.groupId {
      GroupReply(db, settings, e.reply, f);
      GroupOpen(db, f);
      ChildOfReply(db, e.reply, f);
      NotLive(db, e.reply, f);
    } else {
      ElsewhereStep(db, settings, e, f);
    }
  }

  lemma GroupOpen(db: Db, f: FanOut)
    requires Accounts(db, f)
    ensures f.groupId != "" && f.groupId in db.groups && !db.groups[f.groupId].aborted
  {
  }

  /** A reply of the group is let through only for a member that still waits. */
  lemma NotLive(db: Db, reply: Reply, f: FanOut)
    requires Accounts(db, f) && AnswersGroup(db, Deliver(reply), f) && reply.header.taskGroupId == f.groupId
    ensures Decide(db, reply.header).Allowed() <==> SlotFor(WaitOf(f, reply.header.parentMessageId)) in db.index
    ensures SlotFor(WaitOf(f, reply.header.parentMessageId)) in db.index ==>
              (f.groupId, reply.header.parentMessageId) !in db.results
  {
    hide EncodeMember, SlotFor, Decide;
    MemberDecision(db, reply, f);
    assert InPhase(db, f, reply.header.parentMessageId);
  }

  lemma ResultsElsewhere(db: Db, settings: Settings, e: Event)
    ensures !e.Deliver? && !e.Evidence? ==> Next(db, settings, e).results == db.results
  {
    hide Examined, Decide, SlotFor, Appended, InScoreRange;
    if e.Examine? && IsDue(db, e.slot) {
      ExamineEffect(db, settings, e.slot, db.index[e.slot]);
    }
  }

  /**
   Over every run a sub-task has a result exactly once a copy of its reply was
   let through, and what is stored, and so what the caller is resumed with, is
   that copy's status and content.
   */
  lemma {:induction false} ResultIsJoinedReply(db: Db, settings: Settings, events: seq<Event>, f: FanOut, child: string)
    requires Accounts(db, f) && GroupRun(db, settings, events, f) && child in f.children
    requires KeepsResult(db, settings, events, (f.groupId, child))
    ensures var key, end, reply :=
        (f.groupId, child), Run(db, settings, events), JoinedReply(db, settings, events, f, child);
      && (key in end.results <==> key in db.results || reply.Some?)
      && (reply.Some? ==> key !in db.results && Records(end.results[key], reply.value))
      && (key in db.results ==> end.results[key] == db.results[key])
    decreases |events|
  {
    hide Next, AnswersGroup, LeavesGroupAlone, Accounts, JoinsFor, Records;
    if events != [] {
      AccountsStep(db, settings, events[0], f);
      ResultStep(db, settings, events[0], f, child);
      ResultIsJoinedReply(Next(db, settings, events[0]), settings, events[1..], f, child);
    }
  }

  lemma ChildOfReply(db: Db, reply: Reply, f: FanOut)
    requires AnswersGroup(db, Deliver(reply), f) && reply.header.taskGroupId == f.groupId
    ensures reply.header.parentMessageId in f.children
  {
  }

  lemma NotAggregating(db: Db, e: Event, f: FanOut)
    requires !(e.Deliver? && e.reply.header.taskGroupId == f.groupId)
    ensures !Aggregates(db, e, f)
  {
  }

  /**
   In every such run completed is the number of sub-tasks with a result, never
   more than the group's size, and the aggregate has fired once if all have
   joined and not at all otherwise.
   */
  lemma {:induction false} GroupCountedOnce(db: Db, settings: Settings, events: seq<Event>, f: FanOut)
    requires Accounts(db, f) && GroupRun(db, settings, events, f)
    ensures var end := Run(db, settings, events);
      && Accounts(end, f)
      && end.groups[f.groupId].completed == |JoinedChildren(end, f)| <= |f.children|
      && Aggregations(db, settings, events, f) + One(JoinedChildren(db, f) == f.children)
           == One(end.groups[f.groupId].completed == |f.children|)
    decreases |events|
  {
    hide Next, Aggregates, AnswersGroup, LeavesGroupAlone;
    if events != [] {
      AccountsStep(db, settings, events[0], f);
      GroupCountedOnce(Next(db, settings, events[0]), settings, events[1..], f);
    } else {
      Fits(JoinedChildren(db, f), f.children);
    }
  }
}
