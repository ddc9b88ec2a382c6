/**
 Which workers routing can see: declared agent types, denylists, the admin
 lifecycle, and the member sets that registration, admin operations and the
 heartbeat cycle keep.
 */
module WorkerMembership {
  const ACTIVE := "active"

  /** In pairs, the agent type comes first and the worker second. */
  type Pairs = set<(string, string)>

  datatype Command = Suspend(reason: string) | Resume | Evict(reason: string, force: bool)

  datatype State = State(members: Pairs, denied: Pairs, declared: Pairs, lifecycle: map<string, string>,
                         known: set<string>, sent: map<string, seq<Command>>)

  function TypesOf(pairs: Pairs, worker: string): set<string> {
    set pair | pair in pairs && pair.1 == worker :: pair.0
  }

  function PairsOf(types: set<string>, worker: string): Pairs {
    set agentType | agentType in types :: (agentType, worker)
  }

  function LifecycleOf(s: State, worker: string): string {
    if worker in s.lifecycle && s.lifecycle[worker] != "" then s.lifecycle[worker] else ACTIVE
  }

  function Sent(sent: map<string, seq<Command>>, worker: string, command: Command): map<string, seq<Command>> {
    sent[worker := (if worker in sent then sent[worker] else []) + [command]]
  }

  // ---------------------------------------------------------------- what each operation does to the store

  function Registered(s: State, worker: string, types: set<string>): State {
    var stale := TypesOf(s.declared, worker) - types;
    s.(known := s.known + {worker},
       declared := s.declared - PairsOf(stale, worker) + PairsOf(types, worker),
       members := s.members - PairsOf(stale, worker) + (PairsOf(types, worker) - s.denied))
  }

  function Unregistered(s: State, worker: string): State {
    var types := TypesOf(s.declared, worker);
    s.(known := s.known - {worker}, declared := s.declared - PairsOf(types, worker),
       members := s.members - PairsOf(types, worker))
  }

  function Hidden(s: State, worker: string): State {
    s.(members := s.members - PairsOf(TypesOf(s.declared, worker), worker))
  }

  function Restored(s: State, worker: string): State {
    s.(members := s.members + (PairsOf(TypesOf(s.declared, worker), worker) - s.denied))
  }

  function InLifecycle(s: State, worker: string, lifecycle: string): State {
    s.(lifecycle := s.lifecycle[worker := lifecycle])
  }

  datatype Event =
    | Register(worker: string, types: set<string>)
    | Unregister(worker: string)
    | SuspendWorker(worker: string, reason: string)
    | ResumeWorker(worker: string)
    | EvictWorker(worker: string, reason: string, force: bool)
    | Deny(agentType: string, worker: string)
    | Allow(agentType: string, worker: string)
    | ClearAdminState(worker: string)
    | Refresh(worker: string, types: set<string>, lifecycleRead: string)

  /** A refresh registers on the lifecycle it read; it is one step when that is the lifecycle of the moment. */
  function Next(s: State, e: Event): State {
    match e
    case Register(w, types) => Registered(s, w, types)
    case Unregister(w) => Unregistered(s, w)
    case SuspendWorker(w, reason) =>
      var hidden := Hidden(InLifecycle(s, w, "suspended"), w);
      hidden.(sent := Sent(s.sent, w, Suspend(reason)))
    case ResumeWorker(w) =>
      var restored := Restored(InLifecycle(s, w, ACTIVE), w);
      restored.(sent := Sent(s.sent, w, Resume))
    case EvictWorker(w, reason, force) =>
      var hidden := Hidden(InLifecycle(s, w, "evicted"), w);
      hidden.(sent := Sent(s.sent, w, Evict(reason, force)))
    case Deny(agentType, w) => s.(denied := s.denied + {(agentType, w)}, members := s.members - {(agentType, w)})
    case Allow(agentType, w) => s.(denied := s.denied - {(agentType, w)})
    case ClearAdminState(w) => s.(lifecycle := s.lifecycle - {w})
    case Refresh(w, types, lifecycleRead) => if lifecycleRead == ACTIVE then Registered(s, w, types) else s
  }

  // ---------------------------------------------------------------- the registry and the admin interface

  class WorkerManager {
    var members: Pairs
    var denied: Pairs
    var declared: Pairs
    var lifecycle: map<string, string>
    var known: set<string>
    var sent: map<string, seq<Command>>

    ghost function Current(): State
      reads this
    {
      State(members, denied, declared, lifecycle, known, sent)
    }

    method RegisterWorkerMembership(worker: string, types: set<string>)
      modifies this`members, this`declared, this`known
      ensures Current() == Registered(old(Current()), worker, types)
    {
      hide TypesOf, PairsOf;
      var stale := TypesOf(declared, worker) - types;
      known := known + {worker};
      LeaveStale(worker, stale);
      JoinDeclared(worker, types);
    }

    method LeaveStale(worker: string, stale: set<string>)
      modifies this`members, this`declared
      ensures members == old(members) - PairsOf(stale, worker)
      ensures declared == old(declared) - PairsOf(stale, worker)
    {
      var rest := stale;
      while rest != {}
        invariant rest <= stale
        invariant members == old(members) - PairsOf(stale - rest, worker)
        invariant declared == old(declared) - PairsOf(stale - rest, worker)
        decreases rest
      {
        var agentType :| agentType in rest;
        members := members - {(agentType, worker)};
        declared := declared - {(agentType, worker)};
        assert stale - (rest - {agentType}) == (stale - rest) + {agentType};
        rest := rest - {agentType};
      }
      assert stale - {} == stale;
    }

    method JoinDeclared(worker: string, types: set<string>)
      modifies this`members, this`declared
      ensures declared == old(declared) + PairsOf(types, worker)
      ensures members == old(members) + (PairsOf(types, worker) - denied)
    {
      var rest := types;
      while rest != {}
        invariant rest <= types
        invariant declared == old(declared) + PairsOf(types - rest, worker)
        invariant members == old(members) + (PairsOf(types - rest, worker) - denied)
        decreases rest
      {
        var agentType :| agentType in rest;
        declared := declared + {(agentType, worker)};
        if (agentType, worker) !in denied {
          members := members + {(agentType, worker)};
        }
        assert types - (rest - {agentType}) == (types - rest) + {agentType};
        rest := rest - {agentType};
      }
      assert types - {} == types;
    }

    method UnregisterWorkerMembership(worker: string)
      modifies this`members, this`declared, this`known
      ensures Current() == Unregistered(old(Current()), worker)
    {
      var types := TypesOf(declared, worker);
      declared := declared - PairsOf(types, worker);
      known := known - {worker};
      RemoveMembers(worker, types);
    }

    method RemoveMembers(worker: string, types: set<string>)
      modifies this`members
      ensures members == old(members) - PairsOf(types, worker)
    {
      var rest := types;
      while rest != {}
        invariant rest <= types && members == old(members) - PairsOf(types - rest, worker)
        decreases rest
      {
        var agentType :| agentType in rest;
        members := members - {(agentType, worker)};
        assert types - (rest - {agentType}) == (types - rest) + {agentType};
        rest := rest - {agentType};
      }
      assert types - {} == types;
    }

    method RemoveWorkerFromTypeMembers(worker: string)
      modifies this`members
      ensures Current() == Hidden(old(Current()), worker)
    {
      RemoveMembers(worker, TypesOf(declared, worker));
    }

    method RestoreWorkerToTypeMembers(worker: string)
      modifies this`members
      ensures Current() == Restored(old(Current()), worker)
    {
      var types := TypesOf(declared, worker);
      var rest := types;
      while rest != {}
        invariant rest <= types && members == old(members) + (PairsOf(types - rest, worker) - denied)
        decreases rest
      {
        var agentType :| agentType in rest;
        if (agentType, worker) !in denied {
          members := members + {(agentType, worker)};
        }
        assert types - (rest - {agentType}) == (types - rest) + {agentType};
        rest := rest - {agentType};
      }
      assert types - {} == types;
    }

    method Suspend(worker: string, reason: string)
      modifies this`lifecycle, this`members, this`sent
      ensures Current() == Next(old(Current()), SuspendWorker(worker, reason))
    {
      lifecycle := lifecycle[worker := "suspended"];
      RemoveWorkerFromTypeMembers(worker);
      sent := Sent(sent, worker, Command.Suspend(reason));
    }

    method Resume(worker: string)
      modifies this`lifecycle, this`members, this`sent
      ensures Current() == Next(old(Current()), ResumeWorker(worker))
    {
      lifecycle := lifecycle[worker := ACTIVE];
      RestoreWorkerToTypeMembers(worker);
      sent := Sent(sent, worker, Command.Resume);
    }

    method Evict(worker: string, reason: string, force: bool)
      modifies this`lifecycle, this`members, this`sent
      ensures Current() == Next(old(Current()), EvictWorker(worker, reason, force))
    {
      lifecycle := lifecycle[worker := "evicted"];
      RemoveWorkerFromTypeMembers(worker);
      sent := Sent(sent, worker, Command.Evict(reason, force));
    }

    method DenyWorkerForType(agentType: string, worker: string)
      modifies this`denied, this`members
      ensures Current() == Next(old(Current()), Deny(agentType, worker))
    {
      denied := denied + {(agentType, worker)};
      members := members - {(agentType, worker)};
    }

    method AllowWorkerForType(agentType: string, worker: string)
      modifies this`denied
      ensures Current() == Next(old(Current()), Allow(agentType, worker))
    {
      denied := denied - {(agentType, worker)};
    }

    /** The membership half of one heartbeat cycle. */
    method RefreshMembership(worker: string, types: set<string>)
      modifies this`members, this`declared, this`known
      ensures Current() == Next(old(Current()), Refresh(worker, types, LifecycleOf(old(Current()), worker)))
    {
      var current := if worker in lifecycle && lifecycle[worker] != "" then lifecycle[worker] else ACTIVE;
      if current == ACTIVE {
        RegisterWorkerMembership(worker, types);
      }
    }
  }

  // ---------------------------------------------------------------- invariants

  /** A member has declared the type and is not denied it. */
  predicate Admitted(s: State) {
    forall pair :: pair in s.members ==> pair in s.declared && pair !in s.denied
  }

  lemma AdmittedStep(s: State, e: Event)
    requires Admitted(s)
    ensures Admitted(Next(s, e))
  {
  }

  function Run(s: State, events: seq<Event>): State {
    if events == [] then s else Next(Run(s, events[..|events| - 1]), events[|events| - 1])
  }

  /** In every run of operations by any number of admins and workers, only admitted workers are members. */
  lemma {:induction false} AdmittedOverRun(s: State, events: seq<Event>)
    requires Admitted(s)
    ensures Admitted(Run(s, events))
  {
    hide Next, Admitted;
    if events != [] {
      AdmittedOverRun(s, events[..|events| - 1]);
      AdmittedStep(Run(s, events[..|events| - 1]), events[|events| - 1]);
    }
  }

  /**
   The types a worker is a member of right after an operation on it; after
   anything else, other workers keep theirs.
   */
  lemma MembershipAfter(s: State, e: Event, worker: string)
    requires Admitted(s)
    ensures var after := TypesOf(Next(s, e).members, worker);
      match e
      case Register(w, types) =>
        after == if w == worker then types - TypesOf(s.denied, worker) else TypesOf(s.members, worker)
      case ResumeWorker(w) =>
        after == if w == worker then TypesOf(s.declared, worker) - TypesOf(s.denied, worker)
                 else TypesOf(s.members, worker)
      case SuspendWorker(w, _) => after == if w == worker then {} else TypesOf(s.members, worker)
      case EvictWorker(w, _, _) => after == if w == worker then {} else TypesOf(s.members, worker)
      case Unregister(w) => after == if w == worker then {} else TypesOf(s.members, worker)
      case Deny(agentType, w) => after == TypesOf(s.members, worker) - if w == worker then {agentType} else {}
      case Allow(_, _) => after == TypesOf(s.members, worker)
      case ClearAdminState(_) => after == TypesOf(s.members, worker)
      case Refresh(w, types, read) =>
        after == if w == worker && read == ACTIVE then types - TypesOf(s.denied, worker) else TypesOf(s.members, worker)
  {
    var after := Next(s, e).members;
    forall agentType ensures agentType in TypesOf(after, worker) <==> (agentType, worker) in after {}
    forall agentType ensures agentType in TypesOf(s.members, worker) <==> (agentType, worker) in s.members {}
    forall agentType ensures agentType in TypesOf(s.denied, worker) <==> (agentType, worker) in s.denied {}
    forall agentType ensures agentType in TypesOf(s.declared, worker) <==> (agentType, worker) in s.declared {}
  }

  /** What a worker declares, is known for and is denied right after an operation, and what it is told. */
  lemma DeclaredAfter(s: State, e: Event, worker: string)
    ensures var after := Next(s, e);
      && TypesOf(after.declared, worker)
        == (match e
            case Register(w, types) => if w == worker then types else TypesOf(s.declared, worker)
            case Refresh(w, types, read) =>
              if w == worker && read == ACTIVE then types else TypesOf(s.declared, worker)
            case Unregister(w) => if w == worker then {} else TypesOf(s.declared, worker)
            case _ => TypesOf(s.declared, worker))
      && (worker in after.known <==>
            match e
            case Register(w, _) => w == worker || worker in s.known
            case Refresh(w, _, read) => (w == worker && read == ACTIVE) || worker in s.known
            case Unregister(w) => w != worker && worker in s.known
            case _ => worker in s.known)
      && TypesOf(after.denied, worker)
        == (match e
            case Deny(agentType, w) => TypesOf(s.denied, worker) + if w == worker then {agentType} else {}
            case Allow(agentType, w) => TypesOf(s.denied, worker) - if w == worker then {agentType} else {}
            case _ => TypesOf(s.denied, worker))
  {
    var after := Next(s, e);
    forall t ensures t in TypesOf(after.declared, worker) <==> (t, worker) in after.declared {}
    forall t ensures t in TypesOf(s.declared, worker) <==> (t, worker) in s.declared {}
    forall t ensures t in TypesOf(after.denied, worker) <==> (t, worker) in after.denied {}
    forall t ensures t in TypesOf(s.denied, worker) <==> (t, worker) in s.denied {}
  }

  function Told(sent: map<string, seq<Command>>, worker: string): seq<Command> {
    if worker in sent then sent[worker] else []
  }

  /** The commands a run of operations sends a worker: one for each suspension, resumption and eviction of it. */
  function CommandsFor(events: seq<Event>, worker: string): seq<Command> {
    if events == [] then []
    else CommandsFor(events[..|events| - 1], worker) + CommandOf(events[|events| - 1], worker)
  }

  function CommandOf(e: Event, worker: string): seq<Command> {
    match e
    case SuspendWorker(w, reason) => if w == worker then [Command.Suspend(reason)] else []
    case ResumeWorker(w) => if w == worker then [Command.Resume] else []
    case EvictWorker(w, reason, force) => if w == worker then [Command.Evict(reason, force)] else []
    case _ => []
  }

  lemma ToldOnce(s: State, e: Event, worker: string)
    ensures Told(Next(s, e).sent, worker) == Told(s.sent, worker) + CommandOf(e, worker)
  {
  }

  lemma {:induction false} ToldInOrder(s: State, events: seq<Event>, worker: string)
    ensures Told(Run(s, events).sent, worker) == Told(s.sent, worker) + CommandsFor(events, worker)
  {
    hide Next, Told, CommandOf;
    if events != [] {
      var before, last := events[..|events| - 1], events[|events| - 1];
      ToldInOrder(s, before, worker);
      ToldOnce(Run(s, before), last, worker);
    }
  }

  // ---------------------------------------------------------------- suspended workers stay out of sight

  /** Only workers whose lifecycle is active are members of anything. */
  ghost predicate OnlyActive(s: State) {
    forall worker :: LifecycleOf(s, worker) != ACTIVE ==> TypesOf(s.members, worker) == {}
  }

  /**
   A registration of types a worker outside the active lifecycle is not denied:
   by a heartbeat cycle that acts on a lifecycle read before it changed, or by
   the deprecated register_worker, which reads none. Startup reads it first.
   */
  predicate Intrudes(s: State, e: Event) {
    && (e.Register? || (e.Refresh? && e.lifecycleRead == ACTIVE))
    && LifecycleOf(s, e.worker) != ACTIVE && e.types - TypesOf(s.denied, e.worker) != {}
  }

  /** One operation keeps suspended and evicted workers out of sight exactly if it is not such a registration. */
  lemma OnlyActiveStepIff(s: State, e: Event)
    requires Admitted(s) && OnlyActive(s)
    ensures OnlyActive(Next(s, e)) <==> !Intrudes(s, e)
  {
    hide Next, Admitted;
    var after := Next(s, e);
    forall worker
      ensures LifecycleOf(after, worker) == LifecycleAfter(s, e, worker)
    {
      LifecycleStep(s, e, worker);
    }
    forall worker
      ensures TypesOf(after.members, worker) == {} || LifecycleAfter(s, e, worker) == ACTIVE
           || ((e.Register? || (e.Refresh? && e.lifecycleRead == ACTIVE)) && worker == e.worker
               && TypesOf(after.members, worker) == e.types - TypesOf(s.denied, worker))
    {
      MembershipAfter(s, e, worker);
    }
    if e.Refresh? || e.Register? {
      MembershipAfter(s, e, e.worker);
    }
  }

  function LifecycleAfter(s: State, e: Event, worker: string): string {
    match e
    case SuspendWorker(w, _) => if w == worker then "suspended" else LifecycleOf(s, worker)
    case ResumeWorker(w) => if w == worker then ACTIVE else LifecycleOf(s, worker)
    case EvictWorker(w, _, _) => if w == worker then "evicted" else LifecycleOf(s, worker)
    case ClearAdminState(w) => if w == worker then ACTIVE else LifecycleOf(s, worker)
    case _ => LifecycleOf(s, worker)
  }

  lemma LifecycleStep(s: State, e: Event, worker: string)
    ensures LifecycleOf(Next(s, e), worker) == LifecycleAfter(s, e, worker)
  {
  }

  /** Every heartbeat cycle acts on the lifecycle of the moment, and so does every other registration. */
  ghost predicate ReadsAreCurrent(s: State, events: seq<Event>) {
    forall i :: 0 <= i < |events| ==>
      && (events[i].Register? ==> LifecycleOf(Run(s, events[..i]), events[i].worker) == ACTIVE)
      && (events[i].Refresh? ==> events[i].lifecycleRead == LifecycleOf(Run(s, events[..i]), events[i].worker))
  }

  /** With each heartbeat cycle one step, a suspended or evicted worker is invisible until it is resumed or cleared. */
  lemma {:induction false} OnlyActiveOverRun(s: State, events: seq<Event>)
    requires Admitted(s) && OnlyActive(s) && ReadsAreCurrent(s, events)
    ensures OnlyActive(Run(s, events))
  {
    hide Next, Admitted, OnlyActive;
    if events != [] {
      var n := |events| - 1;
      forall i | 0 <= i < n ensures events[..n][..i] == events[..i] && events[..n][i] == events[i] {}
      OnlyActiveOverRun(s, events[..n]);
      AdmittedOverRun(s, events[..n]);
      OnlyActiveStepIff(Run(s, events[..n]), events[n]);
    }
  }
}
