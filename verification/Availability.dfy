/** Availability routing, and where a sent command ends up: one control stream, the pending stream, or nowhere. */
module Availability {
  import opened Wrappers

  datatype Policy = FailFast | SendAnyway | WakeAndWait | WakeAndQueue | QueueOnly | Unsupported

  datatype DecisionStatus = Ready | Starting | Queued | Refused | Fallback

  datatype WakeupDecision = WakeupDecision(executionId: string, status: DecisionStatus, selectedAgentType: string)

  datatype Status = DeliverNow | WaitAndDeliver | QueuePending | Reject | FallbackToOtherAgentType

  /** A stream key; Blank is the empty name. */
  datatype StreamName = AgentCtrl(agentType: string) | WorkerCtrl(workerId: string) | PendingStream | Blank

  datatype Intent = Intent(executionId: string, targetAgentType: string, userCode: string,
                           priority: int, policy: Policy, command: string)

  datatype Result = Result(status: Status, stream: StreamName, errorCode: string, selectedAgentType: string)

  datatype PendingDelivery = PendingDelivery(executionId: string, stream: StreamName, command: string, priority: int)

  /**
   What the control plane holds and does during one send; decisions are the
   entries that arrive before the timeout.
   */
  datatype Plane = Plane(openCircuits: set<string>, exhaustedUsers: set<string>, online: set<string>,
                         fallbacks: map<string, string>,
                         decisions: seq<Option<WakeupDecision>>, onlineAfterWait: set<string>)

  predicate Accepts(status: Status) { !status.Reject? }

  function Rejected(errorCode: string): Result { Result(Reject, Blank, errorCode, "") }
  function Unavailable(): Result { Rejected("AGENT_TYPE_UNAVAILABLE") }

  /** An entry the waiting loop reads past: undecodable, someone else's, or a progress report. */
  predicate PassedOver(d: Option<WakeupDecision>, executionId: string) {
    d.None? || (d.value.executionId != "" && d.value.executionId != executionId)
      || d.value.status.Starting? || d.value.status.Queued?
  }

  function FirstDecision(decisions: seq<Option<WakeupDecision>>, executionId: string): Option<WakeupDecision> {
    if decisions == [] then None
    else if PassedOver(decisions[0], executionId) then FirstDecision(decisions[1..], executionId)
    else decisions[0]
  }

  /** The send is settled before any wake-up is considered. */
  predicate RoutedAtOnce(plane: Plane, intent: Intent) {
    var target := intent.targetAgentType;
    || target in plane.openCircuits || (intent.userCode != "" && intent.userCode in plane.exhaustedUsers)
    || intent.policy.SendAnyway? || target in plane.online
    || (target in plane.fallbacks && plane.fallbacks[target] != "" && plane.fallbacks[target] in plane.online)
  }

  function Route(plane: Plane, intent: Intent): Result {
    var target := intent.targetAgentType;
    if target in plane.openCircuits then Rejected("AGENT_CIRCUIT_OPEN")
    else if intent.userCode != "" && intent.userCode in plane.exhaustedUsers then Rejected("TENANT_QUOTA_EXCEEDED")
    else if intent.policy.SendAnyway? || target in plane.online then Result(DeliverNow, AgentCtrl(target), "", "")
    else if target in plane.fallbacks && plane.fallbacks[target] != "" && plane.fallbacks[target] in plane.online then
      Result(FallbackToOtherAgentType, AgentCtrl(plane.fallbacks[target]), "", plane.fallbacks[target])
    else match intent.policy
      case WakeAndQueue => Result(QueuePending, PendingStream, "", "")
      case QueueOnly => Result(QueuePending, PendingStream, "", "")
      case WakeAndWait =>
        (match FirstDecision(plane.decisions, intent.executionId)
         case None => Unavailable()
         case Some(d) =>
           if d.status.Ready? then
             if target in plane.onlineAfterWait then Result(WaitAndDeliver, AgentCtrl(target), "", "")
             else Unavailable()
           else if d.status.Fallback? then
             Result(FallbackToOtherAgentType,
                    if d.selectedAgentType != "" then AgentCtrl(d.selectedAgentType) else Blank,
                    "", d.selectedAgentType)
           else Unavailable())
      case _ => Unavailable()
  }

  /** The streams a send can write. */
  class Streams {
    var commands: map<StreamName, seq<string>>
    var pending: seq<PendingDelivery>
    var wakeups: seq<string>

    method XAdd(name: StreamName, command: string)
      modifies this`commands
      ensures commands == old(commands)[name := (if name in old(commands) then old(commands)[name] else []) + [command]]
    {
      commands := commands[name := (if name in commands then commands[name] else []) + [command]];
    }
  }

  class AvailabilityRouter {
    const streams: Streams
    const plane: Plane

    constructor (streams: Streams, plane: Plane)
      ensures this.streams == streams && this.plane == plane
    {
      this.streams := streams;
      this.plane := plane;
    }

    method CheckControlPlanePolicy(intent: Intent) returns (rejection: Option<Result>)
      ensures rejection.Some? <==> intent.targetAgentType in plane.openCircuits
                                   || (intent.userCode != "" && intent.userCode in plane.exhaustedUsers)
      ensures rejection.Some? ==> rejection.value == Route(plane, intent)
    {
      if intent.targetAgentType in plane.openCircuits {
        return Some(Rejected("AGENT_CIRCUIT_OPEN"));
      }
      if intent.userCode != "" {
        if intent.userCode in plane.exhaustedUsers {
          return Some(Rejected("TENANT_QUOTA_EXCEEDED"));
        }
      }
      return None;
    }

    method WaitForWakeupDecision(intent: Intent) returns (decision: Option<WakeupDecision>)
      ensures decision == FirstDecision(plane.decisions, intent.executionId)
    {
      var entries := plane.decisions;
      assert entries[0..] == entries;
      for i := 0 to |entries|
        invariant FirstDecision(entries[i..], intent.executionId) == FirstDecision(entries, intent.executionId)
      {
        assert entries[i..][1..] == entries[i + 1..];
        if entries[i].None? {
          continue;
        }
        var d := entries[i].value;
        if d.executionId != "" && d.executionId != intent.executionId {
          continue;
        }
        if !d.status.Starting? && !d.status.Queued? {
          return Some(d);
        }
      }
      return None;
    }

    method QueuePendingDelivery(intent: Intent) returns (result: Result)
      modifies streams`pending
      ensures streams.pending == old(streams.pending)
        + [PendingDelivery(intent.executionId, AgentCtrl(intent.targetAgentType), intent.command, intent.priority)]
      ensures result == Result(QueuePending, PendingStream, "", "")
    {
      streams.pending := streams.pending
        + [PendingDelivery(intent.executionId, AgentCtrl(intent.targetAgentType), intent.command, intent.priority)];
      result := Result(QueuePending, PendingStream, "", "");
    }

    method WakeAndWaitForWorker(intent: Intent) returns (result: Result)
      requires intent.policy.WakeAndWait? && !RoutedAtOnce(plane, intent)
      modifies streams`wakeups
      ensures result == Route(plane, intent)
      ensures streams.wakeups == old(streams.wakeups) + [intent.executionId]
    {
      streams.wakeups := streams.wakeups + [intent.executionId];
      var decision := WaitForWakeupDecision(intent);
      if decision.None? {
        return Unavailable();
      }
      if decision.value.status.Ready? {
        return if intent.targetAgentType in plane.onlineAfterWait
          then Result(WaitAndDeliver, AgentCtrl(intent.targetAgentType), "", "") else Unavailable();
      }
      if decision.value.status.Fallback? {
        var selected := decision.value.selectedAgentType;
        return Result(FallbackToOtherAgentType, if selected != "" then AgentCtrl(selected) else Blank, "", selected);
      }
      return Unavailable();
    }

    method PrepareDelivery(intent: Intent) returns (result: Result)
      modifies streams`pending, streams`wakeups
      ensures result == Route(plane, intent)
      ensures streams.pending == old(streams.pending)
        + (if result.status.QueuePending?
           then [PendingDelivery(intent.executionId,
                                 AgentCtrl(intent.targetAgentType), intent.command, intent.priority)] else [])
      ensures streams.wakeups == old(streams.wakeups)
        + if !RoutedAtOnce(plane, intent) && (intent.policy.WakeAndWait? || intent.policy.WakeAndQueue?)
          then [intent.executionId] else []
    {
      var rejection := CheckControlPlanePolicy(intent);
      if rejection.Some? {
        return rejection.value;
      }
      if intent.policy.SendAnyway? || intent.targetAgentType in plane.online {
        return Result(DeliverNow, AgentCtrl(intent.targetAgentType), "", "");
      }
      if intent.targetAgentType in plane.fallbacks {
        var selected := plane.fallbacks[intent.targetAgentType];
        if selected != "" && selected in plane.online {
          return Result(FallbackToOtherAgentType, AgentCtrl(selected), "", selected);
        }
      }
      match intent.policy {
        case WakeAndWait =>
          result := WakeAndWaitForWorker(intent);
        case WakeAndQueue =>
          streams.wakeups := streams.wakeups + [intent.executionId];
          result := QueuePendingDelivery(intent);
        case QueueOnly =>
          result := QueuePendingDelivery(intent);
        case _ =>
          result := Unavailable();
      }
    }
  }

  // ---------------------------------------------------------------- sending

  /** Where a command of a send ends up. */
  datatype Placement = OnStream(name: StreamName) | OnPending | Nowhere

  function ClientPlacement(plane: Plane, intent: Intent, worker: Option<string>, workerOnline: bool): Placement {
    if worker.Some? then
      if intent.policy.SendAnyway? || workerOnline then OnStream(WorkerCtrl(worker.value)) else Nowhere
    else
      var r := Route(plane, intent);
      if !Accepts(r.status) then Nowhere else if r.status.QueuePending? then OnPending else OnStream(r.stream)
  }

  /** A client send: accepted and placed exactly once, or rejected and placed nowhere. */
  method SendMessage(router: AvailabilityRouter, intent: Intent, worker: Option<string>, workerOnline: bool)
    returns (accepted: bool)
    modifies router.streams
    ensures accepted <==> !ClientPlacement(router.plane, intent, worker, workerOnline).Nowhere?
    ensures match ClientPlacement(router.plane, intent, worker, workerOnline)
      case OnStream(name) =>
        && router.streams.pending == old(router.streams.pending)
        && router.streams.commands == old(router.streams.commands)[name :=
             (if name in old(router.streams.commands) then old(router.streams.commands)[name] else [])
               + [intent.command]]
      case OnPending =>
        && router.streams.commands == old(router.streams.commands)
        && router.streams.pending == old(router.streams.pending)
             + [PendingDelivery(intent.executionId, AgentCtrl(intent.targetAgentType), intent.command, intent.priority)]
      case Nowhere =>
        router.streams.commands == old(router.streams.commands) && router.streams.pending == old(router.streams.pending)
  {
    var stream: StreamName;
    var dispatchControl := true;
    if worker.Some? {
      if !intent.policy.SendAnyway? && !workerOnline {
        return false;
      }
      stream := WorkerCtrl(worker.value);
    } else {
      var result := router.PrepareDelivery(intent);
      if !Accepts(result.status) {
        return false;
      }
      dispatchControl := !result.status.QueuePending?;
      stream := result.stream;
    }
    if dispatchControl {
      router.streams.XAdd(stream, intent.command);
    }
    return true;
  }

  /**
   An accepted send by agent type goes to the pending stream or to the control
   stream of an agent type, the target's or a named replacement's, with one
   exception: a wake-up answered by a fallback that names no agent type puts
   the command on a stream with an empty name.
   */
  lemma PlacedWithAReaderIff(plane: Plane, intent: Intent)
    requires Accepts(Route(plane, intent).status)
    ensures var placement := ClientPlacement(plane, intent, None, false);
      var decision := FirstDecision(plane.decisions, intent.executionId);
      && (placement == OnStream(Blank) <==>
            !RoutedAtOnce(plane, intent) && intent.policy.WakeAndWait?
            && decision.Some? && decision.value.status.Fallback? && decision.value.selectedAgentType == "")
      && (placement != OnStream(Blank) ==>
            || placement.OnPending?
            || placement == OnStream(AgentCtrl(intent.targetAgentType))
            || (Route(plane, intent).selectedAgentType != ""
                && placement == OnStream(AgentCtrl(Route(plane, intent).selectedAgentType))))
  {
  }

  /** The circuit of the target is open or the user's quota is spent. */
  predicate Barred(plane: Plane, intent: Intent) {
    intent.targetAgentType in plane.openCircuits || (intent.userCode != "" && intent.userCode in plane.exhaustedUsers)
  }

  /** The control plane names another agent type that is online. */
  predicate HasOnlineFallback(plane: Plane, intent: Intent) {
    var target := intent.targetAgentType;
    target in plane.fallbacks && plane.fallbacks[target] != "" && plane.fallbacks[target] in plane.online
  }

  /** A waiting send is answered by a fallback, or by ready and a worker that is online by then. */
  predicate WokenInTime(plane: Plane, intent: Intent) {
    match FirstDecision(plane.decisions, intent.executionId)
    case None => false
    case Some(d) => d.status.Fallback? || (d.status.Ready? && intent.targetAgentType in plane.onlineAfterWait)
  }

  /** When a send is accepted, when it is left pending, and when no wake-up is needed to settle it. */
  lemma AcceptedIff(plane: Plane, intent: Intent)
    ensures RoutedAtOnce(plane, intent) <==>
            Barred(plane, intent) || intent.policy.SendAnyway? || intent.targetAgentType in plane.online
            || HasOnlineFallback(plane, intent)
    ensures Accepts(Route(plane, intent).status) <==>
            !Barred(plane, intent)
            && (|| intent.policy.SendAnyway? || intent.policy.WakeAndQueue? || intent.policy.QueueOnly?
                || intent.targetAgentType in plane.online || HasOnlineFallback(plane, intent)
                || (intent.policy.WakeAndWait? && WokenInTime(plane, intent)))
    ensures Route(plane, intent).status.QueuePending? <==>
            !Barred(plane, intent) && (intent.policy.WakeAndQueue? || intent.policy.QueueOnly?)
            && intent.targetAgentType !in plane.online && !HasOnlineFallback(plane, intent)
    ensures !Barred(plane, intent) && (intent.policy.SendAnyway? || intent.targetAgentType in plane.online) ==>
              Route(plane, intent) == Result(DeliverNow, AgentCtrl(intent.targetAgentType), "", "")
  {
  }

  function Refusal(plane: Plane, intent: Intent): string {
    if intent.targetAgentType in plane.openCircuits then "AGENT_CIRCUIT_OPEN"
    else if Barred(plane, intent) then "TENANT_QUOTA_EXCEEDED"
    else "AGENT_TYPE_UNAVAILABLE"
  }

  /** A rejection carries the reason it was made for, and nothing else does. */
  lemma RefusalSaysWhy(plane: Plane, intent: Intent)
    ensures var r := Route(plane, intent);
      if Accepts(r.status) then r.errorCode == ""
      else r.errorCode == Refusal(plane, intent) && r.stream == Blank && r.selectedAgentType == ""
  {
  }

  /** Nothing on the stream before the decision taken settles this send, and the decision taken does. */
  predicate Speaks(d: Option<WakeupDecision>, executionId: string) {
    d.Some? && (d.value.executionId == "" || d.value.executionId == executionId)
    && (d.value.status.Ready? || d.value.status.Refused? || d.value.status.Fallback?)
  }

  lemma {:induction false} FirstDecisionSpeaks(decisions: seq<Option<WakeupDecision>>, executionId: string)
    ensures match FirstDecision(decisions, executionId)
            case None => forall d :: d in decisions ==> !Speaks(d, executionId)
            case Some(d) =>
              exists i :: 0 <= i < |decisions| && decisions[i] == Some(d) && Speaks(decisions[i], executionId)
                && forall j :: 0 <= j < i ==> !Speaks(decisions[j], executionId)
  {
    if decisions != [] && PassedOver(decisions[0], executionId) {
      FirstDecisionSpeaks(decisions[1..], executionId);
      var found := FirstDecision(decisions[1..], executionId);
      if found.Some? {
        var i :| 0 <= i < |decisions[1..]| && decisions[1..][i] == found && Speaks(decisions[1..][i], executionId)
          && forall j :: 0 <= j < i ==> !Speaks(decisions[1..][j], executionId);
        assert decisions[i + 1] == found && Speaks(decisions[i + 1], executionId);
        forall j | 0 <= j < i + 1 ensures !Speaks(decisions[j], executionId) {
          if j > 0 { assert decisions[j] == decisions[1..][j - 1]; }
        }
      }
    } else if decisions != [] {
      assert decisions[0] == FirstDecision(decisions, executionId) && Speaks(decisions[0], executionId);
    }
  }

  /** A send at a worker goes to that worker, if it is online or nobody asks. */
  lemma DirectSendPlaced(plane: Plane, intent: Intent, worker: string, workerOnline: bool)
    ensures ClientPlacement(plane, intent, Some(worker), workerOnline)
         == if workerOnline || intent.policy.SendAnyway? then OnStream(WorkerCtrl(worker)) else Nowhere
  {
  }

  /** The policy call_agents uses never leaves a delivery pending. */
  lemma FailFastNeverQueues(plane: Plane, intent: Intent)
    requires intent.policy.FailFast?
    ensures !Route(plane, intent).status.QueuePending?
  {
  }
}
