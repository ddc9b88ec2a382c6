/**
 Callers waiting on callers over whole runs: single calls, task groups and
 several of either at once. A caller is woken by a reply that resumes it; it is
 awake once woken or taken out of suspension otherwise, as a cancel does.
 */
module WaitTrees {
  import opened Wrappers
  import opened WaitIndex
  import opened WaitStore
  import opened WaitGate
  import opened WaitSweeper
  import opened SweepSafety
  import opened TaskGroupJoin
  import opened LivenessRuns
  import opened RenewalBudget
  import opened GroupAccounting
  import opened WaitChains

  /** One way a suspended caller can be woken: the reply of a single callee, or the replies of a whole group. */
  datatype Call = Call(groupId: string, callees: set<string>)

  /** What each suspended caller waits for; any one of its calls wakes it. */
  type Plan = map<string, set<Call>>

  ghost predicate ValidPlan(plan: Plan) {
    forall c, call :: c in plan && call in plan[c] ==>
      if call.groupId == "" then exists x :: call.callees == {x} else call.callees != {}
  }

  ghost predicate Mentions(plan: Plan, id: string) {
    id in plan || exists c, call :: c in plan && call in plan[c] && id in call.callees
  }

  datatype Awake = Awake(woken: set<string>, cancelled: iset<string>) {
    ghost predicate Has(id: string) { id in woken || id in cancelled }
  }

  ghost predicate AllAwake(call: Call, awake: Awake) { forall x :: x in call.callees ==> awake.Has(x) }

  /** Some call of the caller is complete: everybody it waits for has left suspension. */
  ghost predicate Freed(calls: set<Call>, awake: Awake) { exists call :: call in calls && AllAwake(call, awake) }

  predicate Addresses(reply: Reply, sessionId: string, caller: string) {
    reply.header.sessionId == sessionId && reply.header.messageId == caller
  }

  ghost predicate Names(slot: Slot, sessionId: string, caller: string) {
    DecodeMember(slot.member).Some? && DecodeMember(slot.member).value.sessionId == sessionId
    && DecodeMember(slot.member).value.parentMessageId == caller
  }

  /** The reply or entry belongs to this call. */
  predicate Serves(call: Call, groupId: string, callee: string) { call.groupId == groupId && callee in call.callees }

  function GroupOf(sessionId: string, caller: string, call: Call): FanOut {
    FanOut(sessionId, caller, call.groupId, call.callees)
  }

  function WokenBy(db: Db, e: Event, sessionId: string): set<string> {
    if Resumes(db, e) && e.reply.header.sessionId == sessionId then {e.reply.header.messageId} else {}
  }

  ghost function CancelledBy(db: Db, settings: Settings, e: Event, sessionId: string, plan: Plan, woken: set<string>)
    : iset<string>
  {
    iset id | Mentions(plan, id) && id !in woken && e.Evidence? && !Suspended(Next(db, settings, e), sessionId, id)
  }

  ghost function AwakeAfter(db: Db, settings: Settings, e: Event, sessionId: string, plan: Plan, awake: Awake): Awake {
    Awake(awake.woken + WokenBy(db, e, sessionId),
          awake.cancelled + CancelledBy(db, settings, e, sessionId, plan, awake.woken))
  }

  ghost function AwakeAtEnd(db: Db, settings: Settings, events: seq<Event>, sessionId: string, plan: Plan, awake: Awake)
    : Awake
    decreases |events|
  {
    if events == [] then awake
    else AwakeAtEnd(Next(db, settings, events[0]), settings, events[1..], sessionId, plan,
                    AwakeAfter(db, settings, events[0], sessionId, plan, awake))
  }

  /**
   What executions do, as the worker does it. Until it is woken a caller
   registers only waits of the calls it made; a reply to it comes from a callee
   that is not recorded suspended or has been woken or cancelled; what is
   delivered was on a control stream. Records may change in any way, but the
   groups of unwoken callers are left to gate and join.
   */
  ghost predicate Honest(db: Db, settings: Settings, e: Event, sessionId: string, plan: Plan, awake: Awake) {
    && (e.Register? && e.wait.sessionId == sessionId && e.wait.parentMessageId in plan
        && e.wait.parentMessageId !in awake.woken ==>
          exists call :: call in plan[e.wait.parentMessageId]
                         && Serves(call, e.wait.taskGroupId, e.wait.childMessageId))
    && (e.Send? && e.reply.header.sessionId == sessionId && e.reply.header.messageId in plan
        && e.reply.header.messageId !in awake.woken ==>
          Answers(db, sessionId, plan[e.reply.header.messageId], e.reply, awake))
    && (e.Deliver? ==> e.reply in Stream(db.ctrl, e.reply.targetAgentType))
    && (forall c, call :: c in plan && c !in awake.woken && call in plan[c] && call.groupId != "" ==>
          && AnswersGroup(db, e, GroupOf(sessionId, c, call))
          && LeavesGroupAlone(db, settings, e, GroupOf(sessionId, c, call)))
  }

  ghost predicate Answers(db: Db, sessionId: string, calls: set<Call>, reply: Reply, awake: Awake) {
    exists call :: call in calls && Serves(call, reply.header.taskGroupId, reply.header.parentMessageId)
      && (awake.Has(reply.header.parentMessageId) || !Suspended(db, sessionId, reply.header.parentMessageId))
  }

  ghost predicate HonestRun(db: Db, settings: Settings, events: seq<Event>, sessionId: string, plan: Plan, awake: Awake)
    decreases |events|
  {
    events != [] ==>
      && Honest(db, settings, events[0], sessionId, plan, awake)
      && HonestRun(Next(db, settings, events[0]), settings, events[1..], sessionId, plan,
                   AwakeAfter(db, settings, events[0], sessionId, plan, awake))
  }

  // ---------------------------------------------------------------- what every run keeps

  /** Whoever has not left suspension is recorded suspended. */
  ghost predicate Asleep(db: Db, sessionId: string, plan: Plan, awake: Awake) {
    forall id :: Mentions(plan, id) && !awake.Has(id) ==> Suspended(db, sessionId, id)
  }

  /** The entries of an unwoken caller are waits of its calls. */
  ghost predicate EntriesServe(db: Db, sessionId: string, plan: Plan, awake: Awake) {
    forall c, slot :: c in plan && c !in awake.woken && slot in db.index && Names(slot, sessionId, c) ==>
      EntryServes(plan[c], slot)
  }

  ghost predicate EntryServes(calls: set<Call>, slot: Slot)
    requires DecodeMember(slot.member).Some?
  {
    var e := DecodeMember(slot.member).value;
    exists call :: call in calls && Serves(call, e.taskGroupId, e.childMessageId)
  }

  /** A reply under way to an unwoken caller serves one of its calls and comes from a callee that left suspension. */
  ghost predicate RepliesFollow(db: Db, sessionId: string, plan: Plan, awake: Awake) {
    forall c, agentType, reply ::
      c in plan && c !in awake.woken && reply in Stream(db.ctrl, agentType) && Addresses(reply, sessionId, c) ==>
        ReplyFollows(plan[c], reply, awake)
  }

  ghost predicate ReplyFollows(calls: set<Call>, reply: Reply, awake: Awake) {
    && awake.Has(reply.header.parentMessageId)
    && exists call :: call in calls && Serves(call, reply.header.taskGroupId, reply.header.parentMessageId)
  }

  /** A woken caller had a call whose callees have all left suspension. */
  ghost predicate WokenFollow(plan: Plan, awake: Awake) {
    forall c :: c in plan && c in awake.woken ==> Freed(plan[c], awake)
  }

  /** The groups of unwoken callers are in order, and only callees that left suspension have joined. */
  ghost predicate GroupsFollow(db: Db, sessionId: string, plan: Plan, awake: Awake) {
    forall c, call :: c in plan && c !in awake.woken && call in plan[c] && call.groupId != "" ==>
      GroupFollows(db, GroupOf(sessionId, c, call), awake)
  }

  ghost predicate GroupFollows(db: Db, f: FanOut, awake: Awake) {
    Accounts(db, f) && forall x :: x in JoinedChildren(db, f) ==> awake.Has(x)
  }

  ghost predicate Waiting(db: Db, sessionId: string, plan: Plan, awake: Awake) {
    && Asleep(db, sessionId, plan, awake) && EntriesServe(db, sessionId, plan, awake)
    && RepliesFollow(db, sessionId, plan, awake) && WokenFollow(plan, awake)
    && GroupsFollow(db, sessionId, plan, awake)
  }

  /** A stand-in is due for an unwoken caller only when the callee it stands in for has left suspension. */
  ghost predicate StandInsFollow(db: Db, settings: Settings, sessionId: string, plan: Plan, awake: Awake) {
    forall c, slot :: c in plan && c !in awake.woken && Names(slot, sessionId, c) && IsDue(db, slot) ==>
      ActionOn(db, settings, slot).Emit? ==> awake.Has(DecodeMember(slot.member).value.childMessageId)
  }

  // ---------------------------------------------------------------- replies

  ghost function Sent(db: Db, settings: Settings, e: Event): Option<Reply> {
    match e
    case Send(reply) => Some(reply)
    case Examine(slot) =>
      if IsDue(db, slot) && ActionOn(db, settings, slot).Emit? then Some(ActionOn(db, settings, slot).reply) else None
    case _ => None
  }

  lemma StreamsStep(db: Db, settings: Settings, e: Event)
    ensures Next(db, settings, e).ctrl
         == if Sent(db, settings, e).Some? then Appended(db.ctrl, Sent(db, settings, e).value) else db.ctrl
  {
    hide Triage, Decide, Appended, AfterGate, InScoreRange, EncodeMember;
    if e.Deliver? {
      hide AfterJoin;
      GateKeepsStreams(db, e.reply);
    }
  }

  lemma GateKeepsStreams(db: Db, reply: Reply)
    ensures AfterJoin(AfterGate(db, reply.header), reply).ctrl == db.ctrl
  {
    hide Decide;
  }

  lemma EmissionHeader(db: Db, settings: Settings, slot: Slot)
    requires slot in db.index && ActionOn(db, settings, slot).Emit?
    ensures DecodeMember(slot.member).Some?
    ensures var e := DecodeMember(slot.member).value;
      ActionOn(db, settings, slot).reply.header
        == Header(e.sessionId, e.parentMessageId, e.childMessageId, e.taskGroupId)
  {
    hide DecodeMember;
  }

  lemma AbandonedIsAwake(db: Db, settings: Settings, slot: Slot)
    requires slot in db.index && Owed(db, settings, slot, db.index[slot])
    ensures var e := DecodeMember(slot.member).value; !Suspended(db, e.sessionId, e.childMessageId)
  {
    hide DecodeMember, Ceiling;
    var e := DecodeMember(slot.member).value;
    if Suspended(db, e.sessionId, e.childMessageId) {
      SuspendedIsNotTerminal(BaseStatus(FindExecution(db, e.sessionId, e.childMessageId).value.status));
    }
  }

  lemma CalleeMentioned(plan: Plan, c: string, call: Call, x: string)
    requires c in plan && call in plan[c] && x in call.callees
    ensures Mentions(plan, x)
  {
  }

  /** Whatever is put on a stream for an unwoken caller comes from, or stands in for, a callee that left suspension. */
  lemma SentFollows(db: Db, settings: Settings, e: Event, sessionId: string, plan: Plan, awake: Awake, c: string)
    requires Asleep(db, sessionId, plan, awake) && EntriesServe(db, sessionId, plan, awake)
    requires e.Examine? || Honest(db, settings, e, sessionId, plan, awake)
    requires c in plan && c !in awake.woken && Sent(db, settings, e).Some?
    requires Addresses(Sent(db, settings, e).value, sessionId, c)
    ensures ReplyFollows(plan[c], Sent(db, settings, e).value, awake)
  {
    hide Triage, DecodeMember, Ceiling, Suspended, EncodeMember, AnswersGroup, LeavesGroupAlone, Mentions;
    var reply := Sent(db, settings, e).value;
    var x := reply.header.parentMessageId;
    if e.Examine? {
      var slot := e.slot;
      StandInIffOwed(db, settings, slot, db.index[slot]);
      EmissionHeader(db, settings, slot);
      AbandonedIsAwake(db, settings, slot);
      assert Names(slot, sessionId, c);
      assert EntryServes(plan[c], slot);
    } else {
      assert Answers(db, sessionId, plan[c], reply, awake);
    }
    var call :| call in plan[c] && Serves(call, reply.header.taskGroupId, x);
    CalleeMentioned(plan, c, call, x);
  }

  /** A caller is resumed only by a call whose callees had all left suspension before. */
  lemma ResumedIsFreed(db: Db, settings: Settings, e: Event, sessionId: string, plan: Plan, awake: Awake, c: string)
    requires ValidPlan(plan) && RepliesFollow(db, sessionId, plan, awake) && GroupsFollow(db, sessionId, plan, awake)
    requires Honest(db, settings, e, sessionId, plan, awake)
    requires c in plan && c !in awake.woken && c in WokenBy(db, e, sessionId)
    ensures Freed(plan[c], awake)
  {
    hide AnswersGroup, LeavesGroupAlone, Decide, Accounts, JoinedChildren, EncodeMember;
    var reply := e.reply;
    var g, x := reply.header.taskGroupId, reply.header.parentMessageId;
    assert ReplyFollows(plan[c], reply, awake);
    var call :| call in plan[c] && Serves(call, g, x);
    if g != "" {
      var f := GroupOf(sessionId, c, call);
      assert GroupFollows(db, f, awake);
      assert AnswersGroup(db, e, f) && LeavesGroupAlone(db, settings, e, f);
      AggregatedHasAll(db, settings, e, f);
    }
    assert AllAwake(call, awake);
  }

  lemma GroupStays(db: Db, reply: Reply, f: FanOut)
    requires Accounts(db, f) && reply.header.taskGroupId == f.groupId
    ensures !Join(AfterGate(db, reply.header), reply).NoGroup?
  {
    hide Decide, EncodeMember;
  }

  lemma AggregatedHasAll(db: Db, settings: Settings, e: Event, f: FanOut)
    requires Accounts(db, f) && AnswersGroup(db, e, f) && LeavesGroupAlone(db, settings, e, f)
    requires Resumes(db, e) && e.reply.header.taskGroupId == f.groupId
    ensures f.children == JoinedChildren(db, f) + {e.reply.header.parentMessageId}
  {
    hide AnswersGroup, LeavesGroupAlone, Accounts, JoinedChildren, EncodeMember, Decide, Next;
    GroupStays(db, e.reply, f);
    assert Aggregates(db, e, f);
    AccountsStep(db, settings, e, f);
    GroupReply(db, settings, e.reply, f);
    WaitingMember(db, settings, e.reply, f);
  }

  lemma WaitingMember(db: Db, settings: Settings, reply: Reply, f: FanOut)
    requires Accounts(db, f) && AnswersGroup(db, Deliver(reply), f) && reply.header.taskGroupId == f.groupId
    requires Aggregates(db, Deliver(reply), f)
    ensures JoinedChildren(Next(db, settings, Deliver(reply)), f)
         == JoinedChildren(db, f) + {reply.header.parentMessageId}
  {
    hide AnswersGroup, Accounts, EncodeMember, Decide, Next;
    GroupReply(db, settings, reply, f);
  }

  // ---------------------------------------------------------------- one step

  lemma AwakeGrows(db: Db, settings: Settings, e: Event, sessionId: string, plan: Plan, awake: Awake)
    ensures var all := AwakeAfter(db, settings, e, sessionId, plan, awake);
      forall id :: awake.Has(id) ==> all.Has(id)
  {
  }

  lemma AsleepStep(db: Db, settings: Settings, e: Event, sessionId: string, plan: Plan, awake: Awake)
    requires Asleep(db, sessionId, plan, awake)
    ensures Asleep(Next(db, settings, e), sessionId, plan, AwakeAfter(db, settings, e, sessionId, plan, awake))
  {
    hide Next, Mentions, Resumes;
    EvidenceStep(db, settings, e);
  }

  lemma EntriesStep(db: Db, settings: Settings, e: Event, sessionId: string, plan: Plan, awake: Awake)
    requires EntriesServe(db, sessionId, plan, awake) && Honest(db, settings, e, sessionId, plan, awake)
    ensures EntriesServe(Next(db, settings, e), sessionId, plan, AwakeAfter(db, settings, e, sessionId, plan, awake))
  {
    hide Next, Claims, Drops, Prunes, Renews, DecodeMember, EncodeMember, AnswersGroup, LeavesGroupAlone, Resumes;
    var after, all := Next(db, settings, e), AwakeAfter(db, settings, e, sessionId, plan, awake);
    forall c, slot | c in plan && c !in all.woken && slot in after.index && Names(slot, sessionId, c)
      ensures EntryServes(plan[c], slot)
    {
      SlotStep(db, settings, e, slot);
      if Registers(e, slot) {
        RoundTrip(e.wait);
      }
    }
  }

  lemma RepliesStep(db: Db, settings: Settings, e: Event, sessionId: string, plan: Plan, awake: Awake)
    requires Waiting(db, sessionId, plan, awake) && Honest(db, settings, e, sessionId, plan, awake)
    ensures RepliesFollow(Next(db, settings, e), sessionId, plan, AwakeAfter(db, settings, e, sessionId, plan, awake))
  {
    hide Next, Honest, Asleep, EntriesServe, WokenFollow, GroupsFollow, AwakeAfter;
    var after, all := Next(db, settings, e), AwakeAfter(db, settings, e, sessionId, plan, awake);
    StreamsStep(db, settings, e);
    AwakeGrows(db, settings, e, sessionId, plan, awake);
    WokenGrows(db, settings, e, sessionId, plan, awake);
    forall c, agentType, reply |
        c in plan && c !in all.woken && reply in Stream(after.ctrl, agentType) && Addresses(reply, sessionId, c)
      ensures ReplyFollows(plan[c], reply, all)
    {
      if reply in Stream(db.ctrl, agentType) {
        assert ReplyFollows(plan[c], reply, awake);
      } else {
        assert Sent(db, settings, e) == Some(reply);
        SentFollows(db, settings, e, sessionId, plan, awake, c);
      }
    }
  }

  lemma WokenGrows(db: Db, settings: Settings, e: Event, sessionId: string, plan: Plan, awake: Awake)
    ensures awake.woken <= AwakeAfter(db, settings, e, sessionId, plan, awake).woken
    ensures AwakeAfter(db, settings, e, sessionId, plan, awake).woken == awake.woken + WokenBy(db, e, sessionId)
  {
  }

  lemma FreedGrows(calls: set<Call>, awake: Awake, all: Awake)
    requires Freed(calls, awake) && forall id :: awake.Has(id) ==> all.Has(id)
    ensures Freed(calls, all)
  {
    var call :| call in calls && AllAwake(call, awake);
    assert AllAwake(call, all);
  }

  lemma WokenStep(db: Db, settings: Settings, e: Event, sessionId: string, plan: Plan, awake: Awake)
    requires ValidPlan(plan) && Waiting(db, sessionId, plan, awake) && Honest(db, settings, e, sessionId, plan, awake)
    ensures WokenFollow(plan, AwakeAfter(db, settings, e, sessionId, plan, awake))
  {
    hide Honest, Asleep, EntriesServe, RepliesFollow, GroupsFollow, AwakeAfter, ValidPlan, WokenBy, Freed;
    var all := AwakeAfter(db, settings, e, sessionId, plan, awake);
    AwakeGrows(db, settings, e, sessionId, plan, awake);
    WokenGrows(db, settings, e, sessionId, plan, awake);
    forall c | c in plan && c in all.woken
      ensures Freed(plan[c], all)
    {
      if c !in awake.woken {
        ResumedIsFreed(db, settings, e, sessionId, plan, awake, c);
      }
      FreedGrows(plan[c], awake, all);
    }
  }

  lemma GroupsStep(db: Db, settings: Settings, e: Event, sessionId: string, plan: Plan, awake: Awake)
    requires Waiting(db, sessionId, plan, awake) && Honest(db, settings, e, sessionId, plan, awake)
    ensures GroupsFollow(Next(db, settings, e), sessionId, plan, AwakeAfter(db, settings, e, sessionId, plan, awake))
  {
    hide Next, Asleep, EntriesServe, WokenFollow, AwakeAfter, GroupFollows, AnswersGroup, LeavesGroupAlone, WokenBy;
    var after, all := Next(db, settings, e), AwakeAfter(db, settings, e, sessionId, plan, awake);
    AwakeGrows(db, settings, e, sessionId, plan, awake);
    WokenGrows(db, settings, e, sessionId, plan, awake);
    forall c, call | c in plan && c !in all.woken && call in plan[c] && call.groupId != ""
      ensures GroupFollows(after, GroupOf(sessionId, c, call), all)
    {
      var f := GroupOf(sessionId, c, call);
      assert GroupFollows(db, f, awake) && AnswersGroup(db, e, f) && LeavesGroupAlone(db, settings, e, f);
      if e.Deliver? && e.reply.header.taskGroupId == f.groupId {
        AnswerAddresses(db, e, f);
        assert e.reply in Stream(db.ctrl, e.reply.targetAgentType) && Addresses(e.reply, sessionId, c);
        assert ReplyFollows(plan[c], e.reply, awake);
      }
      OneGroupStep(db, settings, e, f, awake, all);
    }
  }

  lemma AnswerAddresses(db: Db, e: Event, f: FanOut)
    requires e.Deliver? && AnswersGroup(db, e, f) && e.reply.header.taskGroupId == f.groupId
    ensures e.reply.header.sessionId == f.sessionId && e.reply.header.messageId == f.callerId
  {
  }

  lemma OneGroupStep(db: Db, settings: Settings, e: Event, f: FanOut, awake: Awake, all: Awake)
    requires GroupFollows(db, f, awake) && AnswersGroup(db, e, f) && LeavesGroupAlone(db, settings, e, f)
    requires e.Deliver? && e.reply.header.taskGroupId == f.groupId ==> awake.Has(e.reply.header.parentMessageId)
    requires forall id :: awake.Has(id) ==> all.Has(id)
    ensures GroupFollows(Next(db, settings, e), f, all)
  {
    hide Next, Accounts, AnswersGroup, LeavesGroupAlone, EncodeMember, Decide;
    AccountsStep(db, settings, e, f);
    if e.Deliver? && e.reply.header.taskGroupId == f.groupId {
      GroupReply(db, settings, e.reply, f);
    } else {
      ElsewhereStep(db, settings, e, f);
    }
  }

  lemma WaitingStep(db: Db, settings: Settings, e: Event, sessionId: string, plan: Plan, awake: Awake)
    requires ValidPlan(plan) && Waiting(db, sessionId, plan, awake) && Honest(db, settings, e, sessionId, plan, awake)
    ensures Waiting(Next(db, settings, e), sessionId, plan, AwakeAfter(db, settings, e, sessionId, plan, awake))
  {
    hide Next, Honest, Asleep, EntriesServe, RepliesFollow, WokenFollow, GroupsFollow, AwakeAfter, ValidPlan;
    AsleepStep(db, settings, e, sessionId, plan, awake);
    EntriesStep(db, settings, e, sessionId, plan, awake);
    RepliesStep(db, settings, e, sessionId, plan, awake);
    WokenStep(db, settings, e, sessionId, plan, awake);
    GroupsStep(db, settings, e, sessionId, plan, awake);
  }

  // ---------------------------------------------------------------- whole runs

  /** The callee without which the caller cannot be woken: every call it made waits for it. */
  ghost predicate Needs(plan: Plan, c: string, x: string) {
    c in plan && forall call :: call in plan[c] ==> x in call.callees
  }

  ghost predicate NeedPath(plan: Plan, path: seq<string>) {
    path != [] && forall i :: 0 < i < |path| ==> Needs(plan, path[i - 1], path[i])
  }

  /** Below a woken caller whoever it needed was woken, and so on down, to the end or to one that was cancelled. */
  ghost predicate FromBelow(plan: Plan, awake: Awake) {
    forall path :: NeedPath(plan, path) && path[0] in awake.woken ==> WokenOrCut(path, awake)
  }

  ghost predicate WokenOrCut(path: seq<string>, awake: Awake)
    requires path != []
  {
    path[|path| - 1] in awake.woken || exists k :: 0 < k < |path| && path[k] in awake.cancelled
  }

  lemma {:induction false} DownThePath(plan: Plan, awake: Awake, path: seq<string>)
    requires WokenFollow(plan, awake) && NeedPath(plan, path) && path[0] in awake.woken
    ensures WokenOrCut(path, awake)
  {
    if |path| > 1 {
      assert Needs(plan, path[0], path[1]);
      assert Freed(plan[path[0]], awake);
      var call :| call in plan[path[0]] && AllAwake(call, awake);
      assert awake.Has(path[1]);
      if path[1] !in awake.cancelled {
        var rest := path[1..];
        forall i | 0 < i < |rest| ensures Needs(plan, rest[i - 1], rest[i]) {
          assert Needs(plan, path[i], path[i + 1]);
        }
        DownThePath(plan, awake, rest);
        if k :| 0 < k < |rest| && rest[k] in awake.cancelled {
          assert path[k + 1] in awake.cancelled;
        }
      }
    }
  }

  lemma StandInsFollowNow(db: Db, settings: Settings, sessionId: string, plan: Plan, awake: Awake)
    requires Waiting(db, sessionId, plan, awake)
    ensures StandInsFollow(db, settings, sessionId, plan, awake)
  {
    hide Asleep, EntriesServe, RepliesFollow, WokenFollow, GroupsFollow, Triage, DecodeMember;
    forall c, slot | c in plan && c !in awake.woken && Names(slot, sessionId, c) && IsDue(db, slot)
        && ActionOn(db, settings, slot).Emit?
      ensures awake.Has(DecodeMember(slot.member).value.childMessageId)
    {
      EmissionHeader(db, settings, slot);
      SentFollows(db, settings, Examine(slot), sessionId, plan, awake, c);
    }
  }

  /**
   In every run, whatever records change and whoever is cancelled: a reply for
   a suspended caller, real or stand-in, goes out only after the callee it
   speaks for left suspension, and a caller is woken only when all callees of
   one of its calls have; so a tree of waits unwinds upwards from its deepest
   waits or from a cancelled member.
   */
  lemma {:induction false} TreeUnwindsFromBelow(db: Db, settings: Settings, events: seq<Event>, sessionId: string,
                                                plan: Plan, awake: Awake)
    requires ValidPlan(plan) && Waiting(db, sessionId, plan, awake)
    requires HonestRun(db, settings, events, sessionId, plan, awake)
    ensures var end, all := Run(db, settings, events), AwakeAtEnd(db, settings, events, sessionId, plan, awake);
      && RepliesFollow(end, sessionId, plan, all)
      && StandInsFollow(end, settings, sessionId, plan, all)
      && WokenFollow(plan, all) && FromBelow(plan, all)
    decreases |events|
  {
    hide Next, Honest, Asleep, EntriesServe, GroupsFollow, RepliesFollow, WokenFollow, AwakeAfter, ValidPlan;
    hide StandInsFollow, FromBelow;
    if events != [] {
      WaitingStep(db, settings, events[0], sessionId, plan, awake);
      TreeUnwindsFromBelow(Next(db, settings, events[0]), settings, events[1..], sessionId, plan,
                           AwakeAfter(db, settings, events[0], sessionId, plan, awake));
    } else {
      StandInsFollowNow(db, settings, sessionId, plan, awake);
      WokenFromBelow(plan, awake);
    }
  }

  lemma WokenFromBelow(plan: Plan, awake: Awake)
    requires WokenFollow(plan, awake)
    ensures FromBelow(plan, awake)
  {
    hide WokenFollow, Needs, WokenOrCut;
    forall path | NeedPath(plan, path) && path[0] in awake.woken
      ensures WokenOrCut(path, awake)
    {
      DownThePath(plan, awake, path);
    }
  }

  // ---------------------------------------------------------------- knots

  /** Suspended callers none of whose calls can complete without another of them: a cycle is the simplest. */
  ghost predicate Knot(plan: Plan, knot: set<string>) {
    forall c :: c in knot ==>
      c in plan && forall call :: call in plan[c] ==> exists x :: x in call.callees && x in knot
  }

  ghost predicate AllSleep(knot: set<string>, awake: Awake) { forall id :: id in knot ==> !awake.Has(id) }

  lemma KnotHolds(plan: Plan, knot: set<string>, awake: Awake, c: string)
    requires Knot(plan, knot) && AllSleep(knot, awake) && c in knot
    ensures !Freed(plan[c], awake)
  {
    forall call | call in plan[c]
      ensures !AllAwake(call, awake)
    {
      var x :| x in call.callees && x in knot;
      assert !awake.Has(x);
    }
  }

  /** A step that cancels nobody of a knot wakes nobody of it. */
  lemma KnotStep(db: Db, settings: Settings, e: Event, sessionId: string, plan: Plan, awake: Awake, knot: set<string>)
    requires ValidPlan(plan) && Waiting(db, sessionId, plan, awake) && Honest(db, settings, e, sessionId, plan, awake)
    requires Knot(plan, knot) && AllSleep(knot, awake)
    requires forall id :: id in knot ==> id !in AwakeAfter(db, settings, e, sessionId, plan, awake).cancelled
    ensures AllSleep(knot, AwakeAfter(db, settings, e, sessionId, plan, awake))
  {
    hide Honest, Waiting, AwakeAfter, ValidPlan, WokenBy, Freed;
    WokenGrows(db, settings, e, sessionId, plan, awake);
    forall c | c in knot
      ensures c !in AwakeAfter(db, settings, e, sessionId, plan, awake).woken
    {
      if c in WokenBy(db, e, sessionId) {
        WaitingParts(db, sessionId, plan, awake);
        KnotHolds(plan, knot, awake, c);
        ResumedIsFreed(db, settings, e, sessionId, plan, awake, c);
      }
    }
  }

  lemma WaitingParts(db: Db, sessionId: string, plan: Plan, awake: Awake)
    requires Waiting(db, sessionId, plan, awake)
    ensures RepliesFollow(db, sessionId, plan, awake) && GroupsFollow(db, sessionId, plan, awake)
  {
  }

  /**
   A knot is never resolved: over every run, for as long as nobody of it is
   cancelled, nobody of it is woken, whatever replies from outside join its
   groups, and no stand-in comes due that speaks for one of them.
   */
  lemma {:induction false} KnotIsNeverResolved(db: Db, settings: Settings, events: seq<Event>, sessionId: string,
                                               plan: Plan, awake: Awake, knot: set<string>)
    requires ValidPlan(plan) && Waiting(db, sessionId, plan, awake)
    requires HonestRun(db, settings, events, sessionId, plan, awake)
    requires Knot(plan, knot) && AllSleep(knot, awake)
    requires forall id :: id in knot ==> id !in AwakeAtEnd(db, settings, events, sessionId, plan, awake).cancelled
    ensures var end, all := Run(db, settings, events), AwakeAtEnd(db, settings, events, sessionId, plan, awake);
      && AllSleep(knot, all)
      && (forall c, slot :: c in knot && Names(slot, sessionId, c) && IsDue(end, slot) ==>
            ActionOn(end, settings, slot).Emit? ==> DecodeMember(slot.member).value.childMessageId !in knot)
    decreases |events|
  {
    hide Next, Honest, Waiting, AwakeAfter, ValidPlan, StandInsFollow, Triage, DecodeMember, AllSleep, Knot;
    if events != [] {
      var after, next := Next(db, settings, events[0]), AwakeAfter(db, settings, events[0], sessionId, plan, awake);
      CancelledGrow(after, settings, events[1..], sessionId, plan, next);
      KnotStep(db, settings, events[0], sessionId, plan, awake, knot);
      WaitingStep(db, settings, events[0], sessionId, plan, awake);
      KnotIsNeverResolved(after, settings, events[1..], sessionId, plan, next, knot);
    } else {
      StandInsFollowNow(db, settings, sessionId, plan, awake);
      KnotIsQuiet(db, settings, sessionId, plan, awake, knot);
    }
  }

  lemma KnotIsQuiet(db: Db, settings: Settings, sessionId: string, plan: Plan, awake: Awake, knot: set<string>)
    requires StandInsFollow(db, settings, sessionId, plan, awake) && Knot(plan, knot) && AllSleep(knot, awake)
    ensures forall c, slot :: c in knot && Names(slot, sessionId, c) && IsDue(db, slot) ==>
              ActionOn(db, settings, slot).Emit? ==> DecodeMember(slot.member).value.childMessageId !in knot
  {
    hide Triage, DecodeMember;
  }

  lemma {:induction false} CancelledGrow(db: Db, settings: Settings, events: seq<Event>, sessionId: string, plan: Plan,
                                         awake: Awake)
    ensures awake.cancelled <= AwakeAtEnd(db, settings, events, sessionId, plan, awake).cancelled
    decreases |events|
  {
    hide Next, CancelledBy, WokenBy;
    if events != [] {
      CancelledGrow(Next(db, settings, events[0]), settings, events[1..], sessionId, plan,
                    AwakeAfter(db, settings, events[0], sessionId, plan, awake));
    }
  }

  /** A cycle of callers each of which waits for the next alone is a knot. */
  lemma CycleIsKnot(plan: Plan, cycle: seq<string>)
    requires |cycle| > 1 && cycle[0] == cycle[|cycle| - 1] && NeedPath(plan, cycle)
    ensures Knot(plan, set id | id in cycle)
  {
    var knot := set id | id in cycle;
    forall c | c in knot
      ensures c in plan && forall call :: call in plan[c] ==> exists x :: x in call.callees && x in knot
    {
      var i :| 0 <= i < |cycle| && cycle[i] == c;
      var j := if i == |cycle| - 1 then 0 else i;
      assert cycle[j] == c && Needs(plan, cycle[j + 1 - 1], cycle[j + 1]);
      assert cycle[j + 1] in knot;
    }
  }
}
