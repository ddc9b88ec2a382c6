/** The dispatch side: an execution registers its waits, sends its tasks and keeps its suspend flags. */
module AgentContexts {
  import opened Wrappers
  import opened WaitIndex
  import opened WaitStore
  import opened WaitGate
  import opened WaitReply
  import opened WaitSweeper
  import opened SweepSafety
  import opened SweepVerdicts
  import opened LivenessRuns
  import opened GroupAccounting
  import Availability

  const WAITING_AGENT := "WAITING_AGENT"
  const WAITING_USER := "WAITING_USER"

  datatype Flags = Flags(suspended: bool, state: string, transferred: bool)

  /** Who is calling. */
  datatype Identity = Identity(sessionId: string, messageId: string, agentType: string)

  /** One task of a call, with what the control plane holds when it is routed and whether its send raises. */
  datatype Task = Task(intent: Availability.Intent, plane: Availability.Plane, sendRaises: bool)

  /** What all dispatches of one call share. */
  datatype Call = Call(parentMessageId: string, taskGroupId: string, waitForReply: bool, timeoutMs: int)

  datatype DispatchResult = Sent | Refused | Raised

  function RouteOf(task: Task): Availability.Result { Availability.Route(task.plane, task.intent) }

  predicate Accepted(task: Task) { Availability.Accepts(RouteOf(task).status) }

  function ResultOfDispatch(task: Task): DispatchResult {
    if !Accepted(task) then Refused
    else if task.sendRaises && !RouteOf(task).status.QueuePending? then Raised
    else Sent
  }

  function TargetOf(task: Task): string {
    if Accepted(task) && RouteOf(task).selectedAgentType != "" then RouteOf(task).selectedAgentType
    else task.intent.targetAgentType
  }

  function StreamOf(task: Task): string {
    match RouteOf(task).stream
    case AgentCtrl(agentType) => agentType
    case _ => TargetOf(task)
  }

  function WaitFor(who: Identity, call: Call, child: string): Member {
    Member(who.sessionId, call.parentMessageId, child, call.taskGroupId)
  }

  /**
   The store after one dispatch: the record, the wait unless refused, and the
   command unless refused, queued or raised.
   */
  function Dispatched(db: Db, who: Identity, call: Call, task: Task, child: string): Db {
    var record := Execution(if Accepted(task) then "QUEUED" else "FAILED", "",
                            if call.waitForReply then who.agentType else "", TargetOf(task), db.now, false);
    var recorded := db.(executions := db.executions[(who.sessionId, child) := record]);
    if !Accepted(task) then recorded
    else
      var waiting := if call.waitForReply then Registered(recorded, WaitFor(who, call, child), call.timeoutMs)
                     else recorded;
      if ResultOfDispatch(task).Raised? || RouteOf(task).status.QueuePending? then waiting
      else
        waiting.(asks := waiting.asks
          + [Ask(StreamOf(task), child, call.parentMessageId, call.taskGroupId, call.waitForReply)])
  }

  /** The deliveries waiting for a worker after one dispatch. */
  function Queueing(pending: seq<Availability.PendingDelivery>, task: Task): seq<Availability.PendingDelivery> {
    if RouteOf(task).status.QueuePending?
    then pending + [Availability.PendingDelivery(task.intent.executionId,
                                                 Availability.AgentCtrl(task.intent.targetAgentType),
                                                 task.intent.command, task.intent.priority)]
    else pending
  }

  function AllQueueing(pending: seq<Availability.PendingDelivery>, tasks: seq<Task>)
    : seq<Availability.PendingDelivery>
  {
    if tasks == [] then pending else Queueing(AllQueueing(pending, tasks[..|tasks| - 1]), tasks[|tasks| - 1])
  }

  function FlagsAfterDispatch(flags: Flags, waitForReply: bool, refused: bool): Flags {
    if refused then flags
    else if waitForReply then Flags(true, WAITING_AGENT, flags.transferred)
    else flags.(transferred := true)
  }

  function UndispatchedReply(who: Identity, call: Call, task: Task, child: string): Reply {
    var error := if RouteOf(task).errorCode != "" then RouteOf(task).errorCode else "AGENT_TYPE_UNAVAILABLE";
    StandInReply(WaitFor(who, call, child), who.agentType, task.intent.targetAgentType, "FAILED", error,
                 FailurePayload(error, child), SYNTHESIZED_BY_DISPATCH)
  }

  // ---------------------------------------------------------------- a whole fan-out

  /** The store after one member of a fan-out: a refused member of a waiting group is registered all the same. */
  function MemberState(db: Db, who: Identity, call: Call, task: Task, child: string): Db {
    var dispatched := Dispatched(db, who, call, task, child);
    if call.waitForReply && !Accepted(task)
    then Registered(dispatched, WaitFor(who, call, child), call.timeoutMs)
    else dispatched
  }

  function FannedOut(db: Db, who: Identity, call: Call, tasks: seq<Task>, ids: seq<string>): Db
    requires |tasks| <= |ids|
  {
    if tasks == [] then db
    else
      var n := |tasks| - 1;
      MemberState(FannedOut(db, who, call, tasks[..n], ids), who, call, tasks[n], ids[n])
  }

  /** The stand-in queued for a refused member of a waiting group, if there is an agent type to address it to. */
  function StandIn(who: Identity, call: Call, task: Task, child: string): seq<Reply> {
    if call.waitForReply && !Accepted(task) && who.agentType != ""
    then [UndispatchedReply(who, call, task, child)]
    else []
  }

  function StandIns(who: Identity, call: Call, tasks: seq<Task>, ids: seq<string>): seq<Reply>
    requires |tasks| <= |ids|
  {
    if tasks == [] then []
    else
      var n := |tasks| - 1;
      StandIns(who, call, tasks[..n], ids)
      + StandIn(who, call, tasks[n], ids[n])
  }

  /** What the next member of a fan-out adds to the store and to the queued stand-ins. */
  lemma FanOutStep(db: Db, who: Identity, call: Call, tasks: seq<Task>, ids: seq<string>, i: nat)
    requires i < |tasks| <= |ids|
    ensures FannedOut(db, who, call, tasks[..i + 1], ids)
         == MemberState(FannedOut(db, who, call, tasks[..i], ids), who, call, tasks[i], ids[i])
    ensures StandIns(who, call, tasks[..i + 1], ids)
         == StandIns(who, call, tasks[..i], ids)
            + StandIn(who, call, tasks[i], ids[i])
  {
    hide MemberState, StandIn;
    assert tasks[..i + 1][..i] == tasks[..i];
  }

  lemma FanOutOfNone(db: Db, who: Identity, call: Call, tasks: seq<Task>, ids: seq<string>)
    ensures FannedOut(db, who, call, tasks[..0], ids) == db && StandIns(who, call, tasks[..0], ids) == []
  {
  }

  lemma QueueNone(pending: seq<Availability.PendingDelivery>, tasks: seq<Task>)
    ensures AllQueueing(pending, tasks[..0]) == pending
  {
  }

  lemma QueueingStep(pending: seq<Availability.PendingDelivery>, tasks: seq<Task>, i: nat)
    requires i < |tasks|
    ensures AllQueueing(pending, tasks[..i + 1]) == Queueing(AllQueueing(pending, tasks[..i]), tasks[i])
  {
    assert tasks[..i + 1][..i] == tasks[..i];
  }

  datatype CallResult = Returned | Failed | InvalidArguments

  // ---------------------------------------------------------------- the context object

  class AgentContext {
    const redis: Redis
    const streams: Availability.Streams
    const who: Identity
    var isSuspended: bool
    var suspendedState: string
    var permissionTransferred: bool
    var pendingGroupReplies: seq<Reply>

    constructor (redis: Redis, streams: Availability.Streams, who: Identity)
      ensures this.redis == redis && this.streams == streams
      ensures this.who == who && CurrentFlags() == Flags(false, "", false) && pendingGroupReplies == []
    {
      this.redis := redis;
      this.streams := streams;
      this.who := who;
      isSuspended, suspendedState, permissionTransferred, pendingGroupReplies := false, "", false, [];
    }

    ghost function CurrentFlags(): Flags
      reads this
    {
      Flags(isSuspended, suspendedState, permissionTransferred)
    }

    method RegisterWait(parentMessageId: string, childMessageId: string, taskGroupId: string, timeoutMs: int)
      modifies redis`index, redis`consumed
      ensures redis.State() == Registered(old(redis.State()),
                Member(who.sessionId, parentMessageId, childMessageId, taskGroupId), timeoutMs)
    {
      var deadlineMs := redis.now + Max(0, timeoutMs);
      var member := EncodeMember(Member(who.sessionId, parentMessageId, childMessageId, taskGroupId));
      redis.ZAdd(SlotOf(who.sessionId, member), deadlineMs);
      redis.ClearConsumed(member);
    }

    method AskUser(replyTimeoutMs: Option<int>)
      modifies redis`index, redis`consumed, this`isSuspended, this`suspendedState
      ensures redis.State() == Registered(old(redis.State()), Member(who.sessionId, who.messageId, "", ""),
                if replyTimeoutMs.Some? then replyTimeoutMs.value else DEFAULT_ASK_USER_TIMEOUT_MS)
      ensures CurrentFlags() == Flags(true, WAITING_USER, old(permissionTransferred))
    {
      RegisterWait(who.messageId, "", "", if replyTimeoutMs.Some? then replyTimeoutMs.value
                                          else DEFAULT_ASK_USER_TIMEOUT_MS);
      isSuspended := true;
      suspendedState := WAITING_USER;
    }

    method PrepareDelivery(task: Task) returns (availability: Availability.Result)
      modifies streams`pending, streams`wakeups
      ensures availability == RouteOf(task)
      ensures streams.pending == Queueing(old(streams.pending), task)
    {
      hide Availability.Route, Availability.RoutedAtOnce;
      var router := new Availability.AvailabilityRouter(streams, task.plane);
      availability := router.PrepareDelivery(task.intent);
    }

    method DispatchSingleTask(call: Call, task: Task, child: string) returns (result: DispatchResult)
      modifies redis`index, redis`consumed, redis`executions, redis`asks
      modifies streams`pending, streams`wakeups
      modifies this`isSuspended, this`suspendedState, this`permissionTransferred
      ensures result == ResultOfDispatch(task)
      ensures redis.State() == Dispatched(old(redis.State()), who, call, task, child)
      ensures streams.pending == Queueing(old(streams.pending), task)
      ensures CurrentFlags() == FlagsAfterDispatch(old(CurrentFlags()), call.waitForReply, result.Refused?)
    {
      hide RouteOf, Queueing, EncodeMember, SlotFor, Registered;
      var previousIsSuspended, previousSuspendedState := isSuspended, suspendedState;
      var previousPermissionTransferred := permissionTransferred;
      if call.waitForReply {
        isSuspended := true;
        suspendedState := WAITING_AGENT;
      } else {
        permissionTransferred := true;
      }
      var availability := PrepareDelivery(task);
      var source := if call.waitForReply then who.agentType else "";
      if !Availability.Accepts(availability.status) {
        redis.HSetExecution(who.sessionId, child,
                            Execution("FAILED", "", source, task.intent.targetAgentType, redis.now, false));
        isSuspended := previousIsSuspended;
        suspendedState := previousSuspendedState;
        permissionTransferred := previousPermissionTransferred;
        return Refused;
      }
      var target := if availability.selectedAgentType != "" then availability.selectedAgentType
                    else task.intent.targetAgentType;
      redis.HSetExecution(who.sessionId, child, Execution("QUEUED", "", source, target, redis.now, false));
      ghost var recorded := redis.State();
      if call.waitForReply {
        RegisterWait(call.parentMessageId, child, call.taskGroupId, call.timeoutMs);
      }
      if !availability.status.QueuePending? {
        if task.sendRaises {
          return Raised;
        }
        // The wait is in the index before the command is on a stream.
        assert call.waitForReply ==> SlotFor(WaitFor(who, call, child)) in redis.index by {
          InIndex(recorded, WaitFor(who, call, child), call.timeoutMs);
        }
        redis.XAddTask(Ask(StreamOf(task), child, call.parentMessageId, call.taskGroupId, call.waitForReply));
      }
      return Sent;
    }

    method QueueUndispatchedMemberFailure(call: Call, task: Task, child: string)
      modifies redis`index, redis`consumed, this`pendingGroupReplies
      ensures redis.State() == Registered(old(redis.State()), WaitFor(who, call, child), call.timeoutMs)
      ensures pendingGroupReplies == old(pendingGroupReplies)
        + if who.agentType != "" then [UndispatchedReply(who, call, task, child)] else []
    {
      RegisterWait(call.parentMessageId, child, call.taskGroupId, call.timeoutMs);
      if who.agentType == "" {
        return;
      }
      pendingGroupReplies := pendingGroupReplies + [UndispatchedReply(who, call, task, child)];
    }

    /** One turn of the fan-out loop. */
    method DispatchMember(call: Call, task: Task, child: string) returns (result: DispatchResult)
      modifies redis`index, redis`consumed, redis`executions, redis`asks
      modifies streams`pending, streams`wakeups
      modifies this`isSuspended, this`suspendedState, this`permissionTransferred, this`pendingGroupReplies
      ensures result == ResultOfDispatch(task)
      ensures redis.State() == MemberState(old(redis.State()), who, call, task, child)
      ensures streams.pending == Queueing(old(streams.pending), task)
      ensures pendingGroupReplies == old(pendingGroupReplies) + StandIn(who, call, task, child)
      ensures CurrentFlags() == FlagsAfterDispatch(old(CurrentFlags()), call.waitForReply, result.Refused?)
    {
      hide Dispatched, Registered, UndispatchedReply;
      result := DispatchSingleTask(call, task, child);
      if result.Refused? && call.waitForReply {
        QueueUndispatchedMemberFailure(call, task, child);
      }
    }

    /** The loop of a fan-out, up to the first send that raises. */
    method DispatchEach(call: Call, tasks: seq<Task>, ids: seq<string>) returns (raised: bool, ghost sent: nat)
      requires |ids| == |tasks|
      requires forall refused :: FlagsAfterDispatch(CurrentFlags(), call.waitForReply, refused) == CurrentFlags()
      modifies redis`index, redis`consumed, redis`executions, redis`asks
      modifies streams`pending, streams`wakeups
      modifies this`isSuspended, this`suspendedState, this`permissionTransferred, this`pendingGroupReplies
      ensures raised <==> exists i :: 0 <= i < |tasks| && ResultOfDispatch(tasks[i]).Raised?
      ensures sent <= |tasks| && (!raised ==> sent == |tasks|)
      ensures CurrentFlags() == old(CurrentFlags())
      ensures redis.State() == FannedOut(old(redis.State()), who, call, tasks[..sent], ids)
      ensures pendingGroupReplies == old(pendingGroupReplies) + StandIns(who, call, tasks[..sent], ids)
      ensures streams.pending == AllQueueing(old(streams.pending), tasks[..sent])
    {
      hide MemberState, StandIn, ResultOfDispatch, FannedOut, StandIns, Queueing, AllQueueing, FlagsAfterDispatch;
      FanOutOfNone(redis.State(), who, call, tasks, ids);
      QueueNone(streams.pending, tasks);
      for i := 0 to |tasks|
        invariant redis.State() == FannedOut(old(redis.State()), who, call, tasks[..i], ids)
        invariant pendingGroupReplies == old(pendingGroupReplies) + StandIns(who, call, tasks[..i], ids)
        invariant streams.pending == AllQueueing(old(streams.pending), tasks[..i])
        invariant CurrentFlags() == old(CurrentFlags())
        invariant forall k :: 0 <= k < i ==> !ResultOfDispatch(tasks[k]).Raised?
      {
        FanOutStep(old(redis.State()), who, call, tasks, ids, i);
        QueueingStep(old(streams.pending), tasks, i);
        var outcome := DispatchMember(call, tasks[i], ids[i]);
        if outcome.Raised? {
          return true, i + 1;
        }
      }
      assert tasks[..|tasks|] == tasks;
      return false, |tasks|;
    }

    /** Fan-out over a batch; ids are the sub-task ids, minted or, for one task, pinned by the caller. */
    method CallAgents(call: Call, tasks: seq<Task>, pinned: bool,
                      ids: seq<string>) returns (result: CallResult, ghost sent: nat)
      requires |ids| == |tasks|
      modifies redis`index, redis`consumed, redis`executions, redis`asks, redis`groups
      modifies streams`pending, streams`wakeups
      modifies this`isSuspended, this`suspendedState, this`permissionTransferred, this`pendingGroupReplies
      ensures result.InvalidArguments? <==> tasks == [] || (pinned && |tasks| > 1)
      ensures result.InvalidArguments? ==> redis.State() == old(redis.State()) && CurrentFlags() == old(CurrentFlags())
      ensures result.InvalidArguments? ==> streams.pending == old(streams.pending)
      ensures result.Returned? <==>
                !result.InvalidArguments? && forall task :: task in tasks ==> !ResultOfDispatch(task).Raised?
      ensures !result.InvalidArguments? ==>
                CurrentFlags() == FlagsAfterDispatch(old(CurrentFlags()), call.waitForReply, false)
      ensures !result.InvalidArguments? ==>
        && sent <= |tasks| && (result.Returned? ==> sent == |tasks|)
        && redis.State()
          == Closed(FannedOut(GroupOpened(old(redis.State()), call, |tasks|), who, call, tasks[..sent], ids),
                                   call, result.Failed?)
        && pendingGroupReplies == old(pendingGroupReplies) + StandIns(who, call, tasks[..sent], ids)
        && streams.pending == AllQueueing(old(streams.pending), tasks[..sent])
      ensures call.waitForReply && result.Returned? ==>
                call.taskGroupId in redis.groups && redis.groups[call.taskGroupId] == Group(|tasks|, 0, false)
      ensures call.waitForReply && result.Failed? ==>
                call.taskGroupId in redis.groups && redis.groups[call.taskGroupId].aborted
    {
      hide ResultOfDispatch, FannedOut, StandIns, AllQueueing;
      sent := 0;
      if tasks == [] {
        return InvalidArguments, 0;
      }
      if pinned && |tasks| > 1 {
        return InvalidArguments, 0;
      }
      if call.waitForReply {
        redis.HSetGroup(call.taskGroupId, Group(|tasks|, 0, false));
        isSuspended := true;
        suspendedState := WAITING_AGENT;
      } else {
        permissionTransferred := true;
      }
      ghost var begun := redis.State();
      var raised;
      raised, sent := DispatchEach(call, tasks, ids);
      if raised {
        if call.waitForReply {
          redis.HSetGroup(call.taskGroupId, redis.groups[call.taskGroupId].(aborted := true));
        }
        return Failed, sent;
      }
      return Returned, sent;
    }

    method FlushPendingGroupReplies()
      modifies redis`ctrl, this`pendingGroupReplies
      ensures pendingGroupReplies == []
      ensures redis.State() == old(redis.State()).(ctrl := AllAppended(old(redis.ctrl), old(pendingGroupReplies)))
    {
      var replies := pendingGroupReplies;
      pendingGroupReplies := [];
      for i := 0 to |replies|
        invariant pendingGroupReplies == []
        invariant redis.State() == old(redis.State()).(ctrl := AllAppended(old(redis.ctrl), replies[..i]))
      {
        assert replies[..i + 1][..i] == replies[..i];
        redis.XAdd(replies[i]);
      }
      assert replies[..|replies|] == replies;
    }
  }

  lemma InIndex(db: Db, wait: Member, timeoutMs: int)
    ensures SlotFor(wait) in Registered(db, wait, timeoutMs).index
  {
  }

  function GroupOpened(db: Db, call: Call, total: nat): Db {
    if call.waitForReply then db.(groups := db.groups[call.taskGroupId := Group(total, 0, false)]) else db
  }

  function Closed(db: Db, call: Call, aborted: bool): Db {
    if aborted && call.waitForReply && call.taskGroupId in db.groups then
      db.(groups := db.groups[call.taskGroupId := db.groups[call.taskGroupId].(aborted := true)])
    else db
  }

  // ---------------------------------------------------------------- where a dispatched task goes

  /**
   Under every policy a dispatch that is accepted and whose send does not raise
   is placed exactly once,
   on the control stream of the agent type it names or among the pending
   deliveries for its target; a refused one, or one whose send raises, nowhere.
   A fallback that names no agent type leaves the target's own stream.
   */
  lemma DispatchPlacedOnce(db: Db, pending: seq<Availability.PendingDelivery>, who: Identity, call: Call, task: Task,
                           child: string)
    ensures var after, queued := Dispatched(db, who, call, task, child), Queueing(pending, task);
      && |after.asks| + |queued|
        == |db.asks| + |pending|
           + (if RouteOf(task).status.Reject? || (task.sendRaises && !RouteOf(task).status.QueuePending?) then 0 else 1)
      && (after.asks != db.asks ==>
            && after.asks[..|after.asks| - 1] == db.asks && queued == pending
            && after.asks[|db.asks|] == Ask(TargetOf(task), child, call.parentMessageId, call.taskGroupId,
                                            call.waitForReply))
      && (queued != pending ==>
            && (task.intent.policy.WakeAndQueue? || task.intent.policy.QueueOnly?)
            && queued == pending + [Availability.PendingDelivery(task.intent.executionId,
                                                                 Availability.AgentCtrl(TargetOf(task)),
                                                                 task.intent.command, task.intent.priority)])
  {
    hide EncodeMember, SlotFor, RouteOf, TargetOf, StreamOf;
    RoutedStream(task);
  }

  /** The stream used is that of the agent type routing names; only the queueing policies leave a send pending. */
  lemma RoutedStream(task: Task)
    ensures var r := RouteOf(task);
      && (!r.status.Reject? && !r.status.QueuePending? ==> StreamOf(task) == TargetOf(task))
      && (r.status.QueuePending? ==>
            TargetOf(task) == task.intent.targetAgentType
            && (task.intent.policy.WakeAndQueue? || task.intent.policy.QueueOnly?))
  {
    hide Availability.FirstDecision;
  }

  // ---------------------------------------------------------------- what a fan-out leaves behind

  predicate Distinct(ids: seq<string>) {
    forall i, j :: 0 <= i < j < |ids| ==> ids[i] != ids[j]
  }

  function IdsOf(ids: seq<string>, n: nat): set<string>
    requires n <= |ids|
  {
    set i | 0 <= i < n :: ids[i]
  }

  lemma {:induction false} IdsCounted(ids: seq<string>, n: nat)
    requires Distinct(ids) && n <= |ids|
    ensures |IdsOf(ids, n)| == n
  {
    hide Distinct, IdsOf;
    if n > 0 {
      IdsCounted(ids, n - 1);
      OneMoreId(ids, n - 1);
    } else {
      NobodyPlaced(ids);
    }
  }

  /** The fan-out's policy is fixed: its members are routed to fail fast. */
  predicate FailsFast(task: Task) { task.intent.policy.FailFast? }

  ghost predicate Returns(tasks: seq<Task>) {
    forall i :: 0 <= i < |tasks| ==> FailsFast(tasks[i]) && !ResultOfDispatch(tasks[i]).Raised?
  }

  function Asked(asks: seq<Ask>): set<string> { set ask | ask in asks :: ask.messageId }

  function StoodInFor(replies: seq<Reply>): set<string> { set reply | reply in replies :: reply.header.parentMessageId }

  /** One member of a returning fan-out is either sent or stood in for. */
  lemma MemberPlaced(db: Db, who: Identity, call: Call, task: Task, child: string)
    requires call.waitForReply && who.agentType != "" && FailsFast(task) && !ResultOfDispatch(task).Raised?
    ensures MemberState(db, who, call, task, child).asks
         == if Accepted(task) then db.asks + [Ask(StreamOf(task), child, call.parentMessageId, call.taskGroupId, true)]
            else db.asks
    ensures |StandIn(who, call, task, child)| == if Accepted(task) then 0 else 1
    ensures !Accepted(task) ==> StandIn(who, call, task, child)[0].header == MemberHeader(who, call, child)
  {
    Availability.FailFastNeverQueues(task.plane, task.intent);
  }

  function MemberHeader(who: Identity, call: Call, child: string): Header {
    Header(who.sessionId, call.parentMessageId, child, call.taskGroupId)
  }

  /**
   In a waiting fan-out that returns, every sub-task is answered for exactly
   once: its command was sent, or a stand-in for it was queued, never both.
   */
  lemma {:induction false} MembersPlacedOnce(db: Db, who: Identity, call: Call, tasks: seq<Task>, ids: seq<string>)
    requires call.waitForReply && who.agentType != "" && |tasks| <= |ids| && Distinct(ids) && Returns(tasks)
    ensures var after, standIns := FannedOut(db, who, call, tasks, ids), StandIns(who, call, tasks, ids);
      && db.asks <= after.asks
      && |after.asks| - |db.asks| + |standIns| == |tasks|
      && Asked(after.asks[|db.asks|..]) + StoodInFor(standIns) == IdsOf(ids, |tasks|)
      && Asked(after.asks[|db.asks|..]) !! StoodInFor(standIns)
  {
    hide MemberState, StandIn, FailsFast, ResultOfDispatch, Asked, StoodInFor, IdsOf;
    var n := |tasks| - 1;
    if tasks == [] {
      NobodyPlaced(ids);
      assert db.asks[|db.asks|..] == [];
    } else {
      MembersPlacedOnce(db, who, call, tasks[..n], ids);
      var before, earlier := FannedOut(db, who, call, tasks[..n], ids), StandIns(who, call, tasks[..n], ids);
      MemberPlaced(before, who, call, tasks[n], ids[n]);
      OneMoreId(ids, n);
      var after, sent := FannedOut(db, who, call, tasks, ids), before.asks[|db.asks|..];
      if Accepted(tasks[n]) {
        var ask := Ask(StreamOf(tasks[n]), ids[n], call.parentMessageId, call.taskGroupId, true);
        assert after.asks[|db.asks|..] == sent + [ask];
        AskedMore(sent, ask);
        assert StandIns(who, call, tasks, ids) == earlier;
      } else {
        var standIn := StandIn(who, call, tasks[n], ids[n])[0];
        assert StandIns(who, call, tasks, ids) == earlier + [standIn];
        StoodMore(earlier, standIn);
      }
    }
  }

  lemma NobodyPlaced(ids: seq<string>)
    ensures Asked([]) == {} && StoodInFor([]) == {} && IdsOf(ids, 0) == {}
  {
  }

  lemma AskedMore(asks: seq<Ask>, ask: Ask)
    ensures Asked(asks + [ask]) == Asked(asks) + {ask.messageId}
  {
  }

  lemma StoodMore(replies: seq<Reply>, reply: Reply)
    ensures StoodInFor(replies + [reply]) == StoodInFor(replies) + {reply.header.parentMessageId}
  {
  }

  lemma OneMoreId(ids: seq<string>, n: nat)
    requires n < |ids| && Distinct(ids)
    ensures IdsOf(ids, n + 1) == IdsOf(ids, n) + {ids[n]} && ids[n] !in IdsOf(ids, n)
  {
  }

  lemma IdAt(ids: seq<string>, id: string) returns (i: nat)
    requires id in IdsOf(ids, |ids|)
    ensures i < |ids| && ids[i] == id
  {
    i :| i < |ids| && ids[i] == id;
  }

  function SlotsOf(who: Identity, call: Call, ids: seq<string>, n: nat): set<Slot>
    requires n <= |ids|
  {
    set i | 0 <= i < n :: SlotFor(WaitFor(who, call, ids[i]))
  }

  lemma DispatchRegisters(db: Db, who: Identity, call: Call, task: Task, child: string)
    ensures var after := Dispatched(db, who, call, task, child);
      && after.groups == db.groups && after.results == db.results && after.now == db.now && after.origins == db.origins
      && after.online == db.online && after.ctrl == db.ctrl
      && (if call.waitForReply && Accepted(task) then
            && after.index == db.index[SlotFor(WaitFor(who, call, child)) := db.now + Max(0, call.timeoutMs)]
            && after.consumed == db.consumed - {EncodeMember(WaitFor(who, call, child))}
          else after.index == db.index && after.consumed == db.consumed)
  {
    hide EncodeMember, SlotFor, Accepted, ResultOfDispatch, TargetOf, StreamOf, RouteOf;
  }

  lemma MemberRegistered(db: Db, who: Identity, call: Call, task: Task, child: string)
    ensures var after := MemberState(db, who, call, task, child);
      && after.groups == db.groups && after.results == db.results && after.now == db.now && after.origins == db.origins
      && after.online == db.online && after.ctrl == db.ctrl
      && (if call.waitForReply then
            && after.index == db.index[SlotFor(WaitFor(who, call, child)) := db.now + Max(0, call.timeoutMs)]
            && after.consumed == db.consumed - {EncodeMember(WaitFor(who, call, child))}
          else after.index == db.index && after.consumed == db.consumed)
  {
    hide EncodeMember, SlotFor, Accepted, Dispatched;
    DispatchRegisters(db, who, call, task, child);
  }

  /** A waiting fan-out registers every member, sent or refused; its marker is void and its deadline the call's. */
  lemma {:induction false} MembersRegistered(db: Db, who: Identity, call: Call, tasks: seq<Task>, ids: seq<string>)
    requires |tasks| <= |ids| && call.waitForReply
    ensures var after := FannedOut(db, who, call, tasks, ids);
      && after.groups == db.groups && after.results == db.results && after.now == db.now && after.origins == db.origins
      && after.index.Keys == db.index.Keys + SlotsOf(who, call, ids, |tasks|)
      && (forall i :: 0 <= i < |tasks| ==>
            && after.index[SlotFor(WaitFor(who, call, ids[i]))] == db.now + Max(0, call.timeoutMs)
            && EncodeMember(WaitFor(who, call, ids[i])) !in after.consumed)
      && after.consumed <= db.consumed
  {
    hide MemberState, EncodeMember;
    if tasks != [] {
      var n := |tasks| - 1;
      MembersRegistered(db, who, call, tasks[..n], ids);
      MemberRegistered(FannedOut(db, who, call, tasks[..n], ids), who, call, tasks[n], ids[n]);
      assert SlotsOf(who, call, ids, n + 1) == SlotsOf(who, call, ids, n) + {SlotFor(WaitFor(who, call, ids[n]))};
    }
  }

  // ---------------------------------------------------------------- nobody takes the task up

  lemma MemberRecord(db: Db, who: Identity, call: Call, task: Task, child: string)
    requires call.waitForReply && !ResultOfDispatch(task).Raised?
    ensures var after := MemberState(db, who, call, task, child);
      && (who.sessionId, child) in after.executions
      && var r := after.executions[(who.sessionId, child)];
         && r.status == (if Accepted(task) then "QUEUED" else "FAILED") && r.workerId == ""
         && r.sourceAgentType == who.agentType && r.targetAgentType == TargetOf(task)
         && r.createdAt == db.now && !r.cancelRequested
  {
    hide EncodeMember, SlotFor, TargetOf, StreamOf, RouteOf, Registered;
    DispatchRecord(db, who, call, task, child);
    RegisteringKeepsRecords(Dispatched(db, who, call, task, child), WaitFor(who, call, child), call.timeoutMs);
  }

  lemma DispatchRecord(db: Db, who: Identity, call: Call, task: Task, child: string)
    requires call.waitForReply
    ensures Dispatched(db, who, call, task, child).executions
         == db.executions[(who.sessionId, child) :=
              Execution(if Accepted(task) then "QUEUED" else "FAILED", "", who.agentType, TargetOf(task), db.now,
                        false)]
  {
    hide EncodeMember, SlotFor, TargetOf, StreamOf, RouteOf, Accepted, ResultOfDispatch;
  }

  lemma RegisteringKeepsRecords(db: Db, wait: Member, timeoutMs: int)
    ensures Registered(db, wait, timeoutMs).executions == db.executions
  {
  }

  /**
   A sub-task that was dispatched, or refused, and that nobody has touched since
   is answered for as soon as its wait is due: the suspended caller is owed a
   stand-in, which goes to the stream of the agent type that dispatched it and
   says never started or, of a refused one, failed.
   */
  lemma UntouchedTaskIsAnswered(db: Db, settings: Settings, who: Identity, call: Call, task: Task, child: string,
                                later: Db, deadlineMs: int)
    requires call.waitForReply && !ResultOfDispatch(task).Raised? && who.agentType != "" && who.sessionId != ""
    requires var recorded := MemberState(db, who, call, task, child).executions;
      (who.sessionId, child) in later.executions
      && later.executions[(who.sessionId, child)] == recorded[(who.sessionId, child)]
    requires CalleeDecides(later, WaitFor(who, call, child))
    requires ("tg-single-" + child, child) !in later.results
    ensures var action := Triage(later, settings, SlotFor(WaitFor(who, call, child)), deadlineMs).action;
      && action.Emit?
      && action.reply.header == MemberHeader(who, call, child)
      && action.reply.targetAgentType == who.agentType && action.reply.sourceAgentType == TargetOf(task)
      && Fails(action.reply, "FAILED", if Accepted(task) then CHILD_NEVER_STARTED else REPLY_LOST_RECOVERED, child)
  {
    hide EncodeMember, DecodeMember, Triage, MemberState, BaseStatus, ResultOfDispatch, Accepted, Ceiling;
    var wait := WaitFor(who, call, child);
    MemberRecord(db, who, call, task, child);
    QueuedAndFailed();
    RoundTrip(wait);
    StandInIffOwed(later, settings, SlotFor(wait), deadlineMs);
    StandInSays(later, settings, SlotFor(wait), deadlineMs);
    EmissionAddressed(later, settings, SlotFor(wait), deadlineMs);
  }

  lemma QueuedAndFailed()
    ensures BaseStatus("QUEUED") == "QUEUED" && BaseStatus("FAILED") == "FAILED"
    ensures !IsTerminal("QUEUED") && !IsSuspended("QUEUED") && IsTerminal("FAILED")
  {
    hide BaseStatus, Plain, Blank;
    PlainWords();
    PlainStatus("", "QUEUED", "", "");
    PlainStatus("", "FAILED", "", "");
  }

  lemma PlainWords()
    ensures Plain("QUEUED") && Plain("FAILED") && Blank("")
  {
  }

  /** The stand-in queued for a refused member is a failure addressed at the caller, with the reason it was refused. */
  lemma RefusedMemberSays(who: Identity, call: Call, task: Task, child: string)
    requires call.waitForReply && !Accepted(task) && who.agentType != ""
    ensures |StandIn(who, call, task, child)| == 1
    ensures var reply := StandIn(who, call, task, child)[0];
      && reply.targetAgentType == who.agentType && reply.sourceAgentType == task.intent.targetAgentType
      && reply.synthesizedBy == SYNTHESIZED_BY_DISPATCH
      && Fails(reply, "FAILED", Availability.Refusal(task.plane, task.intent), child)
  {
    Availability.RefusalSaysWhy(task.plane, task.intent);
  }

  function FanOutOf(who: Identity, call: Call, ids: seq<string>): FanOut {
    FanOut(who.sessionId, call.parentMessageId, call.taskGroupId, IdsOf(ids, |ids|))
  }

  /**
   What a waiting fan-out over n tasks leaves behind when it returns: n
   distinct entries, nothing joined yet, and the group's books in order.
   */
  lemma FanOutAccounts(db: Db, who: Identity, call: Call, tasks: seq<Task>, ids: seq<string>)
    requires call.waitForReply && call.taskGroupId != "" && |tasks| == |ids| > 0 && Distinct(ids)
    requires forall child :: (call.taskGroupId, child) !in db.results
    ensures var after := FannedOut(GroupOpened(db, call, |tasks|), who, call, tasks, ids);
      && |SlotsOf(who, call, ids, |ids|)| == |tasks|
      && after.index.Keys == db.index.Keys + SlotsOf(who, call, ids, |ids|)
      && Accounts(after, FanOutOf(who, call, ids))
  {
    hide FannedOut, EncodeMember, SlotFor, SlotsOf, IdsOf, Distinct;
    var begun := GroupOpened(db, call, |tasks|);
    MembersRegistered(begun, who, call, tasks, ids);
    SlotsCounted(who, call, ids, |ids|);
    var after, f := FannedOut(begun, who, call, tasks, ids), FanOutOf(who, call, ids);
    IdsCounted(ids, |ids|);
    assert JoinedChildren(after, f) == {};
    forall child | child in f.children
      ensures InPhase(after, f, child)
    {
      var i := IdAt(ids, child);
      assert WaitOf(f, child) == WaitFor(who, call, ids[i]);
    }
  }

  lemma {:induction false} SlotsCounted(who: Identity, call: Call, ids: seq<string>, n: nat)
    requires Distinct(ids) && n <= |ids|
    ensures |SlotsOf(who, call, ids, n)| == n
  {
    hide SlotsOf, Distinct;
    if n > 0 {
      SlotsCounted(who, call, ids, n - 1);
      OneMoreSlot(who, call, ids, n - 1);
    } else {
      NoSlots(who, call, ids);
    }
  }

  lemma NoSlots(who: Identity, call: Call, ids: seq<string>)
    ensures SlotsOf(who, call, ids, 0) == {}
  {
  }

  lemma OneMoreSlot(who: Identity, call: Call, ids: seq<string>, n: nat)
    requires n < |ids| && Distinct(ids)
    ensures var slot := SlotFor(WaitFor(who, call, ids[n]));
      SlotsOf(who, call, ids, n + 1) == SlotsOf(who, call, ids, n) + {slot} && slot !in SlotsOf(who, call, ids, n)
  {
    hide SlotFor, WaitFor;
    forall i | 0 <= i < n
      ensures SlotFor(WaitFor(who, call, ids[i])) != SlotFor(WaitFor(who, call, ids[n]))
    {
      OwnSlots(who, call, ids[i], ids[n]);
    }
  }

  lemma OwnSlots(who: Identity, call: Call, a: string, b: string)
    requires a != b
    ensures SlotFor(WaitFor(who, call, a)) != SlotFor(WaitFor(who, call, b))
  {
    hide EncodeMember;
    if EncodeMember(WaitFor(who, call, a)) == EncodeMember(WaitFor(who, call, b)) {
      EncodeInjective(WaitFor(who, call, a), WaitFor(who, call, b));
    }
  }

  /**
   From the fan-out on, in every run in which members leave only through the
   gate, the group is aggregated at most once, and once exactly when all n
   results are in.
   */
  lemma FanOutAggregatesOnce(db: Db, who: Identity, call: Call, tasks: seq<Task>, ids: seq<string>,
                             settings: Settings, events: seq<Event>)
    requires call.waitForReply && call.taskGroupId != "" && |tasks| == |ids| > 0 && Distinct(ids)
    requires forall child :: (call.taskGroupId, child) !in db.results
    requires GroupRun(FannedOut(GroupOpened(db, call, |tasks|), who, call, tasks, ids),
                      settings, events, FanOutOf(who, call, ids))
    ensures var f, after := FanOutOf(who, call, ids), FannedOut(GroupOpened(db, call, |tasks|), who, call, tasks, ids);
      var end := Run(after, settings, events);
      && f.groupId in end.groups && end.groups[f.groupId].completed == |JoinedChildren(end, f)| <= |tasks|
      && Aggregations(after, settings, events, f) == if end.groups[f.groupId].completed == |tasks| then 1 else 0
  {
    hide FannedOut, GroupRun, Aggregations, InPhase, SlotFor, SlotsOf, EncodeMember, Distinct;
    var f, after := FanOutOf(who, call, ids), FannedOut(GroupOpened(db, call, |tasks|), who, call, tasks, ids);
    FanOutAccounts(db, who, call, tasks, ids);
    IdsCounted(ids, |ids|);
    assert JoinedChildren(after, f) != f.children by {
      MembersRegistered(GroupOpened(db, call, |tasks|), who, call, tasks, ids);
      assert ids[0] in f.children;
    }
    GroupCountedOnce(after, settings, events, f);
  }

  // ------------------------------------------------ replies that arrive while the loop still dispatches

  /** The books are in order as soon as the group is opened, before any member is registered. */
  lemma GroupOpensInOrder(db: Db, who: Identity, call: Call, ids: seq<string>)
    requires call.waitForReply && call.taskGroupId != "" && |ids| > 0 && Distinct(ids)
    requires forall child :: (call.taskGroupId, child) !in db.results
    requires forall i :: 0 <= i < |ids| ==> EncodeMember(WaitFor(who, call, ids[i])) !in db.consumed
    ensures Accounts(GroupOpened(db, call, |ids|), FanOutOf(who, call, ids))
    ensures JoinedChildren(GroupOpened(db, call, |ids|), FanOutOf(who, call, ids)) == {}
  {
    hide EncodeMember, SlotFor, IdsOf, Distinct;
    var begun, f := GroupOpened(db, call, |ids|), FanOutOf(who, call, ids);
    IdsCounted(ids, |ids|);
    assert JoinedChildren(begun, f) == {};
    forall child | child in f.children
      ensures InPhase(begun, f, child)
    {
      var i := IdAt(ids, child);
      assert WaitOf(f, child) == WaitFor(who, call, ids[i]);
    }
  }

  /** One turn of the fan-out loop keeps them, whatever replies have arrived in between. */
  lemma MemberTurnKeepsBooks(db: Db, who: Identity, call: Call, task: Task, ids: seq<string>, i: nat)
    requires call.waitForReply && i < |ids| && Accounts(db, FanOutOf(who, call, ids))
    requires !Settles(db, who.sessionId, EncodeMember(WaitFor(who, call, ids[i])))
    ensures var f, after := FanOutOf(who, call, ids), MemberState(db, who, call, task, ids[i]);
      && Accounts(after, f) && JoinedChildren(after, f) == JoinedChildren(db, f)
      && AnswersGroup(db, Register(WaitFor(who, call, ids[i]), call.timeoutMs), f)
      && var registered := Registered(db, WaitFor(who, call, ids[i]), call.timeoutMs);
         after == registered.(executions := after.executions, asks := after.asks)
  {
    hide MemberState, EncodeMember;
    var f, wait := FanOutOf(who, call, ids), WaitFor(who, call, ids[i]);
    var after := MemberState(db, who, call, task, ids[i]);
    MemberRegistered(db, who, call, task, ids[i]);
    assert ids[i] in f.children && wait == WaitOf(f, ids[i]);
    assert JoinedChildren(after, f) == JoinedChildren(db, f);
    forall child | child in f.children
      ensures InPhase(after, f, child)
    {
      assert InPhase(db, f, child);
      if child != ids[i] && EncodeMember(WaitOf(f, child)) == EncodeMember(wait) {
        EncodeInjective(WaitOf(f, child), wait);
      }
    }
  }

  /**
   From the moment the group is opened, with registrations, replies, sweeps and
   changes of records interleaved in any order, members leaving the index only
   through the gate: the aggregate fires exactly when all n results are in, and
   once.
   */
  lemma InterleavedFanOutAggregatesOnce(db: Db, who: Identity, call: Call, ids: seq<string>, settings: Settings,
                                        events: seq<Event>)
    requires call.waitForReply && call.taskGroupId != "" && |ids| > 0 && Distinct(ids)
    requires forall child :: (call.taskGroupId, child) !in db.results
    requires forall i :: 0 <= i < |ids| ==> EncodeMember(WaitFor(who, call, ids[i])) !in db.consumed
    requires GroupRun(GroupOpened(db, call, |ids|), settings, events, FanOutOf(who, call, ids))
    ensures var f, begun := FanOutOf(who, call, ids), GroupOpened(db, call, |ids|);
      var end := Run(begun, settings, events);
      && f.groupId in end.groups && end.groups[f.groupId].completed == |JoinedChildren(end, f)| <= |ids|
      && Aggregations(begun, settings, events, f) == if end.groups[f.groupId].completed == |ids| then 1 else 0
  {
    hide GroupRun, Aggregations, InPhase, GroupOpened;
    var f, begun := FanOutOf(who, call, ids), GroupOpened(db, call, |ids|);
    GroupOpensInOrder(db, who, call, ids);
    IdsCounted(ids, |ids|);
    assert ids[0] in f.children;
    GroupCountedOnce(begun, settings, events, f);
  }

  /** On each queued stand-in the gate claims exactly the entry of the member it stands in for. */
  lemma {:induction false} StandInsClaimTheirEntries(db: Db, who: Identity, call: Call, tasks: seq<Task>,
                                                     ids: seq<string>, reply: Reply)
    requires |tasks| <= |ids| && call.waitForReply && reply in StandIns(who, call, tasks, ids)
    ensures exists i :: 0 <= i < |tasks| && reply.header == MemberHeader(who, call, ids[i])
              && Decide(FannedOut(db, who, call, tasks, ids), reply.header)
                == Claimed(EncodeMember(WaitFor(who, call, ids[i])))
  {
    hide EncodeMember, Decide, FannedOut;
    StandInNames(who, call, tasks, ids, reply);
    var i :| 0 <= i < |tasks| && reply.header == MemberHeader(who, call, ids[i]);
    MembersRegistered(db, who, call, tasks, ids);
    StandInClaimsItsEntry(FannedOut(db, who, call, tasks, ids), WaitFor(who, call, ids[i]), reply);
  }

  lemma {:induction false} StandInNames(who: Identity, call: Call, tasks: seq<Task>, ids: seq<string>, reply: Reply)
    requires |tasks| <= |ids| && reply in StandIns(who, call, tasks, ids)
    ensures exists i :: 0 <= i < |tasks| && reply.header == MemberHeader(who, call, ids[i])
  {
    var n := |tasks| - 1;
    if reply in StandIn(who, call, tasks[n], ids[n]) {
      assert reply.header == MemberHeader(who, call, ids[n]);
    } else {
      StandInNames(who, call, tasks[..n], ids, reply);
    }
  }

  function RepliesFor(replies: seq<Reply>, agentType: string): seq<Reply> {
    if replies == [] then []
    else
      var before, last := RepliesFor(replies[..|replies| - 1], agentType), replies[|replies| - 1];
      if last.targetAgentType == agentType then before + [last] else before
  }

  /**
   A flush puts every queued stand-in behind what its stream holds, in the
   order queued, and nothing anywhere else.
   */
  lemma {:induction false} FlushKeepsOrder(ctrl: map<string, seq<Reply>>, replies: seq<Reply>, agentType: string)
    ensures Stream(AllAppended(ctrl, replies), agentType) == Stream(ctrl, agentType) + RepliesFor(replies, agentType)
  {
    if replies != [] {
      FlushKeepsOrder(ctrl, replies[..|replies| - 1], agentType);
    }
  }

  // ---------------------------------------------------------------- flags and index agree

  datatype Operation =
    | AskUser(timeoutMs: int)
    | CallAgent(call: Call, task: Task, child: string)
    | CallAgents(call: Call, tasks: seq<Task>, ids: seq<string>)

  /** The call returns to its caller. */
  predicate OpReturns(op: Operation) {
    match op
    case AskUser(_) => true
    case CallAgent(_, task, _) => !ResultOfDispatch(task).Raised?
    case CallAgents(_, tasks, ids) =>
      |tasks| == |ids| > 0 && forall task :: task in tasks ==> !ResultOfDispatch(task).Raised?
  }

  function StoreAfter(db: Db, who: Identity, op: Operation): Db
    requires OpReturns(op)
  {
    match op
    case AskUser(timeoutMs) => Registered(db, Member(who.sessionId, who.messageId, "", ""), timeoutMs)
    case CallAgent(call, task, child) => Dispatched(db, who, call, task, child)
    case CallAgents(call, tasks, ids) => FannedOut(GroupOpened(db, call, |tasks|), who, call, tasks, ids)
  }

  function FlagsAfter(flags: Flags, op: Operation): Flags {
    match op
    case AskUser(_) => Flags(true, WAITING_USER, flags.transferred)
    case CallAgent(call, task, _) => FlagsAfterDispatch(flags, call.waitForReply, !Accepted(task))
    case CallAgents(call, _, _) => FlagsAfterDispatch(flags, call.waitForReply, false)
  }

  /** The state the call suspends its execution in; none for a hand-off and for a rejected call. */
  function Suspends(op: Operation): Option<string> {
    match op
    case AskUser(_) => Some(WAITING_USER)
    case CallAgent(call, task, _) => if call.waitForReply && Accepted(task) then Some(WAITING_AGENT) else None
    case CallAgents(call, _, _) => if call.waitForReply then Some(WAITING_AGENT) else None
  }

  /** The call sends its task, or starts to send its tasks, without waiting for a reply. */
  predicate HandsOff(op: Operation) {
    match op
    case AskUser(_) => false
    case CallAgent(call, task, _) => !call.waitForReply && Accepted(task)
    case CallAgents(call, _, _) => !call.waitForReply
  }

  function LatestSuspension(ops: seq<Operation>): Option<string> {
    if ops == [] then None
    else if Suspends(ops[|ops| - 1]).Some? then Suspends(ops[|ops| - 1])
    else LatestSuspension(ops[..|ops| - 1])
  }

  function StoreAfterAll(db: Db, who: Identity, ops: seq<Operation>): Db
    requires forall op :: op in ops ==> OpReturns(op)
  {
    if ops == [] then db else StoreAfter(StoreAfterAll(db, who, ops[..|ops| - 1]), who, ops[|ops| - 1])
  }

  function FlagsAfterAll(ops: seq<Operation>): Flags {
    if ops == [] then Flags(false, "", false) else FlagsAfter(FlagsAfterAll(ops[..|ops| - 1]), ops[|ops| - 1])
  }

  /** The entries a call registers. */
  function WaitsOf(who: Identity, op: Operation): set<Slot>
    requires OpReturns(op)
  {
    match op
    case AskUser(_) => {SlotFor(Member(who.sessionId, who.messageId, "", ""))}
    case CallAgent(call, task, child) =>
      if call.waitForReply && Accepted(task) then {SlotFor(WaitFor(who, call, child))} else {}
    case CallAgents(call, _, ids) => if call.waitForReply then SlotsOf(who, call, ids, |ids|) else {}
  }

  function WaitsOfAll(who: Identity, ops: seq<Operation>): set<Slot>
    requires forall op :: op in ops ==> OpReturns(op)
  {
    if ops == [] then {} else WaitsOfAll(who, ops[..|ops| - 1]) + WaitsOf(who, ops[|ops| - 1])
  }

  /** One call adds its entries to the index and takes none out; it has some exactly when it suspends. */
  lemma OperationRegisters(db: Db, who: Identity, op: Operation)
    requires OpReturns(op)
    ensures StoreAfter(db, who, op).index.Keys == db.index.Keys + WaitsOf(who, op)
    ensures Suspends(op).Some? <==> WaitsOf(who, op) != {}
  {
    hide EncodeMember;
    match op
    case AskUser(timeoutMs) =>
    case CallAgent(call, task, child) =>
    case CallAgents(call, tasks, ids) =>
      var begun := GroupOpened(db, call, |tasks|);
      if call.waitForReply {
        MembersRegistered(begun, who, call, tasks, ids);
        assert SlotFor(WaitFor(who, call, ids[0])) in SlotsOf(who, call, ids, |tasks|);
      } else {
        NothingRegistered(begun, who, call, tasks, ids);
      }
  }

  lemma {:induction false} NothingRegistered(db: Db, who: Identity, call: Call, tasks: seq<Task>, ids: seq<string>)
    requires |tasks| <= |ids| && !call.waitForReply
    ensures FannedOut(db, who, call, tasks, ids).index == db.index
  {
    hide MemberState;
    if tasks != [] {
      var n := |tasks| - 1;
      NothingRegistered(db, who, call, tasks[..n], ids);
      MemberRegistered(FannedOut(db, who, call, tasks[..n], ids), who, call, tasks[n], ids[n]);
    }
  }

  lemma OneMoreHandOff(before: seq<Operation>, last: Operation)
    ensures (exists op :: op in before + [last] && HandsOff(op)) <==>
            (exists op :: op in before && HandsOff(op)) || HandsOff(last)
    ensures forall flags :: FlagsAfter(flags, last).transferred <==> flags.transferred || HandsOff(last)
  {
    hide RouteOf;
    if op :| op in before && HandsOff(op) {
      assert op in before + [last];
    }
    assert last in before + [last];
  }

  /**
   After any calls that all return, the context is suspended exactly when it
   names a state, exactly when it registered a wait; the state is that of the
   latest call not rejected, so a rejected dispatch leaves no trace. It has
   handed its permission on exactly when some call did not wait for a reply.
   */
  lemma {:induction false} FlagsAgreeWithIndex(db: Db, who: Identity, ops: seq<Operation>)
    requires forall op :: op in ops ==> OpReturns(op)
    ensures var flags := FlagsAfterAll(ops);
      && (flags.suspended <==> flags.state != "")
      && (flags.suspended <==> WaitsOfAll(who, ops) != {})
      && (flags.state == if LatestSuspension(ops).Some? then LatestSuspension(ops).value else "")
      && (flags.suspended <==> LatestSuspension(ops).Some?)
      && (flags.transferred <==> exists op :: op in ops && HandsOff(op))
      && StoreAfterAll(db, who, ops).index.Keys == db.index.Keys + WaitsOfAll(who, ops)
  {
    hide StoreAfter, WaitsOf, HandsOff, RouteOf;
    if ops != [] {
      var before, last := ops[..|ops| - 1], ops[|ops| - 1];
      assert ops == before + [last];
      FlagsAgreeWithIndex(db, who, before);
      OperationRegisters(StoreAfterAll(db, who, before), who, last);
      assert StoreAfterAll(db, who, ops) == StoreAfter(StoreAfterAll(db, who, before), who, last);
      OneMoreHandOff(before, last);
    }
  }
}
