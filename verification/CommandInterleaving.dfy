/**
 The protocol at the granularity of single Redis commands: gate calls,
 registrations, renewals, drops and prunes as tasks that run one command at a
 time, in any interleaving, while clocks advance the time.
 */
module CommandInterleaving {
  import opened WaitIndex
  import opened WaitStore
  import opened WaitGate
  import opened WaitSweeper
  import opened LivenessRuns

  /** The next command of a gate call: ZREM, SET or EXISTS on the k-th candidate. */
  datatype GateCommand = Removing(k: nat) | Marking(k: nat) | Checking(k: nat) | Decided(decision: Decision)

  datatype Task =
    | GateCall(h: Header, next: GateCommand)
    | Registration(wait: Member, timeoutMs: int, commandsRun: nat)
    | Renewal(slot: Slot, deadlineMs: int, commandsRun: nat)
    | Removal(slot: Slot, commandsRun: nat)
    | Pruning(shard: nat, commandsRun: nat)
    | Clock(tickMs: nat)

  datatype World = World(db: Db, tasks: seq<Task>)

  /** A gate call after its ZREM found nothing and no marker was set for the k-th candidate. */
  function PastCandidate(h: Header, k: nat): GateCommand {
    if k + 1 < |CandidateMembers(h)| then Removing(k + 1) else Decided(Unregistered)
  }

  predicate WellFormed(t: Task) {
    t.GateCall? && !t.next.Decided? ==> t.next.k < |CandidateMembers(t.h)|
  }

  /** One command of one task. */
  function Command(db: Db, t: Task): (Db, Task)
    requires WellFormed(t)
  {
    match t
    case GateCall(h, Removing(k)) =>
      var member := CandidateMembers(h)[k];
      (db.(index := db.index - {SlotOf(h.sessionId, member)}),
       GateCall(h, if SlotOf(h.sessionId, member) in db.index then Marking(k) else Checking(k)))
    case GateCall(h, Marking(k)) =>
      (db.(consumed := db.consumed + {CandidateMembers(h)[k]}), GateCall(h, Decided(Claimed(CandidateMembers(h)[k]))))
    case GateCall(h, Checking(k)) =>
      (db, GateCall(h, if CandidateMembers(h)[k] in db.consumed then Decided(AlreadyConsumed(CandidateMembers(h)[k]))
                       else PastCandidate(h, k)))
    case GateCall(_, Decided(_)) => (db, t)
    case Registration(wait, timeoutMs, n) =>
      (if n == 0 then db.(index := db.index[SlotFor(wait) := db.now + Max(0, timeoutMs)])
       else if n == 1 then db.(consumed := db.consumed - {EncodeMember(wait)})
       else db,
       Registration(wait, timeoutMs, n + 1))
    case Renewal(slot, deadlineMs, n) =>
      (if n == 0 then db.(origins := if slot.member in db.origins then db.origins
                                     else db.origins[slot.member := deadlineMs])
       else if n == 1 then db.(index := db.index[slot := db.now + WAIT_RENEW_INCREMENT_MS])
       else db,
       Renewal(slot, deadlineMs, n + 1))
    case Removal(slot, n) => (if n == 0 then db.(index := db.index - {slot}) else db, Removal(slot, n + 1))
    case Pruning(shard, n) => (if n == 0 then Pruned(db, shard) else db, Pruning(shard, n + 1))
    case Clock(tickMs) => (db.(now := db.now + tickMs), t)
  }

  predicate Ready(w: World) { forall t :: t in w.tasks ==> WellFormed(t) }

  function Turn(w: World, i: nat): (after: World)
    requires Ready(w)
    ensures Ready(after) && |after.tasks| == |w.tasks|
  {
    if i < |w.tasks| then
      var (db, t) := Command(w.db, w.tasks[i]);
      World(db, w.tasks[i := t])
    else w
  }

  function Interleave(w: World, schedule: seq<nat>): (after: World)
    requires Ready(w)
    ensures Ready(after) && |after.tasks| == |w.tasks|
    decreases |schedule|
  {
    if schedule == [] then w else Interleave(Turn(w, schedule[0]), schedule[1..])
  }

  // ---------------------------------------------------------------- a gate call that is not interrupted

  function Finish(db: Db, h: Header, next: GateCommand): (Db, Decision)
    requires WellFormed(GateCall(h, next))
    decreases if next.Decided? then 0 else 3 * (|CandidateMembers(h)| - next.k) + (if next.Removing? then 1 else 0)
  {
    if next.Decided? then (db, next.decision)
    else
      var (after, t) := Command(db, GateCall(h, next));
      Finish(after, h, t.next)
  }

  lemma {:induction false} FinishFrom(db: Db, h: Header, k: nat)
    requires k < |CandidateMembers(h)|
    ensures var decision := DecideAmong(db, h.sessionId, CandidateMembers(h)[k..]);
      Finish(db, h, Removing(k))
      == (if decision.Claimed? then db.(index := db.index - {SlotOf(h.sessionId, decision.member)},
                                        consumed := db.consumed + {decision.member}) else db,
          decision)
    decreases |CandidateMembers(h)| - k
  {
    hide CandidateMembers;
    CandidateCount(h);
    var members := CandidateMembers(h);
    assert members[k..][1..] == members[k + 1..];
    var slot := SlotOf(h.sessionId, members[k]);
    var removed := db.(index := db.index - {slot});
    if slot in db.index {
      assert Finish(db, h, Removing(k)) == Finish(removed, h, Marking(k));
    } else {
      assert db.index - {slot} == db.index;
      assert Finish(db, h, Removing(k)) == Finish(db, h, Checking(k));
      if members[k] !in db.consumed && k + 1 < |members| {
        FinishFrom(db, h, k + 1);
      }
    }
  }

  lemma CandidateCount(h: Header)
    ensures 1 <= |CandidateMembers(h)| <= 2
  {
  }

  /** Run without interruption, the commands of a gate call are the gate's one step. */
  lemma GateIsOneStep(db: Db, h: Header)
    ensures Finish(db, h, Removing(0)) == (AfterGate(db, h), Decide(db, h))
  {
    FinishFrom(db, h, 0);
    assert CandidateMembers(h)[0..] == CandidateMembers(h);
  }

  // ---------------------------------------------------------------- the ledger, command by command

  datatype Movement = Movement(registered: nat, revived: nat, claimed: nat, dropped: nat, pruned: nat)

  /** What running one command of a task moves in or out of the slot. */
  function MovedBy(db: Db, t: Task, slot: Slot): Movement {
    Movement(
      One(t.Registration? && t.commandsRun == 0 && SlotFor(t.wait) == slot && slot !in db.index),
      One(t.Renewal? && t.commandsRun == 1 && t.slot == slot && slot !in db.index),
      One(t.GateCall? && t.next.Removing? && t.next.k < |CandidateMembers(t.h)|
          && SlotOf(t.h.sessionId, CandidateMembers(t.h)[t.next.k]) == slot && slot in db.index),
      One(t.Removal? && t.commandsRun == 0 && t.slot == slot && slot in db.index),
      One(t.Pruning? && t.commandsRun == 0 && t.shard == slot.shard
          && slot in InScoreRange(db.index, t.shard, db.now - WAIT_PRUNE_AFTER_MS)))
  }

  function Moved(w: World, schedule: seq<nat>, slot: Slot): Movement
    requires Ready(w)
    decreases |schedule|
  {
    if schedule == [] then Movement(0, 0, 0, 0, 0)
    else
      var rest := Moved(Turn(w, schedule[0]), schedule[1..], slot);
      if schedule[0] < |w.tasks| then
        var m := MovedBy(w.db, w.tasks[schedule[0]], slot);
        Movement(rest.registered + m.registered, rest.revived + m.revived, rest.claimed + m.claimed,
                 rest.dropped + m.dropped, rest.pruned + m.pruned)
      else rest
  }

  lemma CommandMoves(db: Db, t: Task, slot: Slot)
    requires WellFormed(t)
    ensures var m := MovedBy(db, t, slot);
      One(slot in db.index) + m.registered + m.revived
      == One(slot in Command(db, t).0.index) + m.claimed + m.dropped + m.pruned
  {
    hide MovedBy, Command;
    match t
    case GateCall(_, _) => GateMoves(db, t, slot);
    case Registration(_, _, _) => WriteMoves(db, t, slot);
    case Renewal(_, _, _) => WriteMoves(db, t, slot);
    case Removal(_, _) => RemovalMoves(db, t, slot);
    case Pruning(_, _) => RemovalMoves(db, t, slot);
    case Clock(_) => RemovalMoves(db, t, slot);
  }

  lemma GateMoves(db: Db, t: Task, slot: Slot)
    requires WellFormed(t) && t.GateCall?
    ensures var m := MovedBy(db, t, slot);
      One(slot in db.index) + m.registered + m.revived
        == One(slot in Command(db, t).0.index) + m.claimed + m.dropped + m.pruned
  {
    hide EncodeMember, CandidateMembers, SlotOf;
  }

  lemma WriteMoves(db: Db, t: Task, slot: Slot)
    requires t.Registration? || t.Renewal?
    ensures var m := MovedBy(db, t, slot);
      One(slot in db.index) + m.registered + m.revived
        == One(slot in Command(db, t).0.index) + m.claimed + m.dropped + m.pruned
  {
    hide EncodeMember, CandidateMembers, SlotFor;
  }

  lemma RemovalMoves(db: Db, t: Task, slot: Slot)
    requires t.Removal? || t.Pruning? || t.Clock?
    ensures var m := MovedBy(db, t, slot);
      One(slot in db.index) + m.registered + m.revived
        == One(slot in Command(db, t).0.index) + m.claimed + m.dropped + m.pruned
  {
    hide EncodeMember, CandidateMembers;
  }

  /**
   For every interleaving and every slot: insertions of an absent entry, by a
   registration or by a renewal that came too late, are the claims, drops and
   prunes, plus one if the entry is present.
   */
  lemma {:induction false} CommandLedger(w: World, schedule: seq<nat>, slot: Slot)
    requires Ready(w)
    ensures var m := Moved(w, schedule, slot);
      One(slot in w.db.index) + m.registered + m.revived
      == One(slot in Interleave(w, schedule).db.index) + m.claimed + m.dropped + m.pruned
    decreases |schedule|
  {
    hide MovedBy, Command;
    if schedule != [] {
      if schedule[0] < |w.tasks| {
        CommandMoves(w.db, w.tasks[schedule[0]], slot);
      }
      CommandLedger(Turn(w, schedule[0]), schedule[1..], slot);
    }
  }

  // ---------------------------------------------------------------- copies of one reply racing through the gate

  /** How far a copy of a reply has come: before its own member is settled, its winner, or past it. */
  datatype Role =
    | OwnWinner | OwnMarker      // removed the reply's own entry; and set its marker
    | Overtaker                  // found neither the own entry nor its marker and went on
    | AskWinner                  // removed the caller's ask_user entry
    | LetThrough                 // allowed to resume the caller
    | OvertakerLetThrough

  function Own(h: Header): string { MemberFromResume(h) }

  predicate HasSecond(h: Header) { |CandidateMembers(h)| == 2 }

  predicate Past(h: Header, next: GateCommand) {
    match next
    case Decided(Unregistered) => true
    case Decided(decision) => decision.member != Own(h)
    case _ => next.k == 1
  }

  predicate Plays(role: Role, h: Header, t: Task) {
    t.GateCall? &&
    match role
    case OwnWinner => t.next == Marking(0) || t.next == Decided(Claimed(Own(h)))
    case OwnMarker => t.next == Decided(Claimed(Own(h)))
    case Overtaker => Past(h, t.next)
    case AskWinner => t.next == Marking(1) || t.next == Decided(Claimed(AskUserMember(h)))
    case LetThrough => t.next.Decided? && t.next.decision.Allowed()
    case OvertakerLetThrough => Past(h, t.next) && t.next.Decided? && t.next.decision.Allowed()
  }

  function Count(tasks: seq<Task>, role: Role, h: Header): nat {
    if tasks == [] then 0 else One(Plays(role, h, tasks[0])) + Count(tasks[1..], role, h)
  }

  lemma {:induction false} CountUpdate(tasks: seq<Task>, i: nat, t: Task, role: Role, h: Header)
    requires i < |tasks|
    ensures Count(tasks[i := t], role, h) + One(Plays(role, h, tasks[i]))
         == Count(tasks, role, h) + One(Plays(role, h, t))
  {
    hide Plays;
    if i > 0 {
      assert tasks[i := t][1..] == tasks[1..][i - 1 := t];
      CountUpdate(tasks[1..], i - 1, t, role, h);
    } else {
      assert tasks[0 := t][1..] == tasks[1..];
    }
  }

  lemma {:induction false} CountSome(tasks: seq<Task>, role: Role, h: Header)
    ensures Count(tasks, role, h) > 0 <==> exists t :: t in tasks && Plays(role, h, t)
  {
    hide Plays;
    if tasks != [] {
      CountSome(tasks[1..], role, h);
      assert forall t :: t in tasks <==> t == tasks[0] || t in tasks[1..];
    }
  }

  /** A copy of this reply, somewhere on its way through the gate. */
  predicate IsRacer(t: Task, h: Header) {
    && t.GateCall? && t.h == h
    && match t.next
       case Decided(Claimed(m)) => m in CandidateMembers(h)
       case Decided(AlreadyConsumed(m)) => m in CandidateMembers(h)
       case Decided(Unregistered) => true
       case _ => t.next.k < |CandidateMembers(h)|
  }

  /** A copy looks for the marker of the reply's own member before the winner has set it. */
  predicate Overtakes(w: World, i: nat, h: Header) {
    i < |w.tasks| && w.tasks[i].GateCall? && w.tasks[i].next == Checking(0) && Own(h) !in w.db.consumed
  }

  function Overtaken(w: World, schedule: seq<nat>, h: Header): nat
    requires Ready(w)
    decreases |schedule|
  {
    if schedule == [] then 0 else One(Overtakes(w, schedule[0], h)) + Overtaken(Turn(w, schedule[0]), schedule[1..], h)
  }

  function OwnSlot(h: Header): Slot { SlotOf(h.sessionId, Own(h)) }
  function AskSlot(h: Header): Slot { SlotOf(h.sessionId, AskUserMember(h)) }

  lemma Candidates(h: Header)
    ensures CandidateMembers(h) == if HasSecond(h) then [Own(h), AskUserMember(h)] else [Own(h)]
    ensures HasSecond(h) ==> Own(h) != AskUserMember(h)
  {
  }

  /** What one command of one copy changes. */
  lemma CopyCommand(db: Db, t: Task, h: Header)
    requires IsRacer(t, h)
    ensures var (after, u) := Command(db, t);
      && IsRacer(u, h) && (t.next != Removing(0) ==> u.next != Removing(0))
      && One(Plays(OwnWinner, h, u)) + One(OwnSlot(h) in after.index)
           == One(Plays(OwnWinner, h, t)) + One(OwnSlot(h) in db.index)
      && One(Plays(Overtaker, h, u))
        == One(Plays(Overtaker, h, t)) + One(t.next == Checking(0) && Own(h) !in db.consumed)
      && (t.next == Removing(0) ==> OwnSlot(h) !in after.index)
      && after.index.Keys <= db.index.Keys && db.consumed <= after.consumed
  {
    hide EncodeMember, CandidateMembers, MemberFromResume, AskUserMember;
    Candidates(h);
  }

  /** The same for the second candidate, the caller's ask_user member. */
  lemma CopyCommandOnAsk(db: Db, t: Task, h: Header)
    requires IsRacer(t, h) && HasSecond(h)
    ensures var (after, u) := Command(db, t);
      && One(Plays(AskWinner, h, u)) + One(AskSlot(h) in after.index)
           == One(Plays(AskWinner, h, t)) + One(AskSlot(h) in db.index)
      && (AskUserMember(h) in after.consumed ==> AskUserMember(h) in db.consumed || Plays(AskWinner, h, t))
      && (Plays(Overtaker, h, u) && u.next != Removing(1) ==>
            (Plays(Overtaker, h, t) && t.next != Removing(1)) || AskSlot(h) !in after.index)
      && (u.next == Decided(Unregistered) && t.next != u.next ==> AskUserMember(h) !in db.consumed)
      && (u.next == Decided(AlreadyConsumed(AskUserMember(h))) && t.next != u.next ==> AskUserMember(h) in db.consumed)
  {
    hide EncodeMember, CandidateMembers, MemberFromResume, AskUserMember;
    Candidates(h);
  }

  /** What every moment of a race keeps, seen from the store it started on. */
  ghost predicate Racing(w: World, start: Db, h: Header) {
    && (forall t :: t in w.tasks ==> IsRacer(t, h))
    && Count(w.tasks, OwnWinner, h) + One(OwnSlot(h) in w.db.index) == One(OwnSlot(h) in start.index)
    && (forall t :: t in w.tasks && t.next != Removing(0) ==> OwnSlot(h) !in w.db.index)
    && w.db.index.Keys <= start.index.Keys && start.consumed <= w.db.consumed
    && (HasSecond(h) ==> RacingForAsk(w, start, h))
  }

  ghost predicate RacingForAsk(w: World, start: Db, h: Header) {
    var ask := AskUserMember(h);
    && Count(w.tasks, AskWinner, h) + One(AskSlot(h) in w.db.index) == One(AskSlot(h) in start.index)
    && (ask in w.db.consumed ==> ask in start.consumed || AskSlot(h) in start.index)
    && (forall t :: t in w.tasks && Plays(Overtaker, h, t) && t.next != Removing(1) ==> AskSlot(h) !in w.db.index)
    && (forall t :: t in w.tasks && t.GateCall? && t.next == Decided(Unregistered) ==> ask !in start.consumed)
    && (forall t :: t in w.tasks && t.GateCall? && t.next == Decided(AlreadyConsumed(ask)) ==>
          ask in start.consumed || AskSlot(h) in start.index)
  }

  /** Any number of copies that all have yet to begin. */
  predicate AtTheStart(w: World, h: Header) {
    forall t :: t in w.tasks ==> t == GateCall(h, Removing(0))
  }

  lemma {:induction false} NobodyBegan(tasks: seq<Task>, role: Role, h: Header)
    requires forall t :: t in tasks ==> t == GateCall(h, Removing(0))
    ensures Count(tasks, role, h) == 0
  {
    if tasks != [] {
      assert tasks[0] in tasks && forall t :: t in tasks[1..] ==> t in tasks;
      NobodyBegan(tasks[1..], role, h);
    }
  }

  lemma RaceStarts(w: World, h: Header)
    requires AtTheStart(w, h)
    ensures Racing(w, w.db, h) && Count(w.tasks, Overtaker, h) == 0
  {
    hide EncodeMember, CandidateMembers, Count;
    CandidateCount(h);
    NobodyBegan(w.tasks, OwnWinner, h);
    NobodyBegan(w.tasks, Overtaker, h);
    NobodyBegan(w.tasks, AskWinner, h);
  }

  lemma RacingTurn(w: World, start: Db, i: nat, h: Header)
    requires Ready(w) && Racing(w, start, h)
    ensures Racing(Turn(w, i), start, h)
    ensures Count(Turn(w, i).tasks, Overtaker, h) == Count(w.tasks, Overtaker, h) + One(Overtakes(w, i, h))
  {
    hide EncodeMember, CandidateMembers, Count, Command, Plays, IsRacer, OwnSlot, AskSlot, RacingForAsk;
    if i < |w.tasks| {
      var (db, t) := Command(w.db, w.tasks[i]);
      assert w.tasks[i] in w.tasks;
      CopyCommand(w.db, w.tasks[i], h);
      CountUpdate(w.tasks, i, t, OwnWinner, h);
      CountUpdate(w.tasks, i, t, Overtaker, h);
      assert forall u :: u in w.tasks[i := t] ==> u in w.tasks || u == t;
      assert IsRacer(w.tasks[i], h) && w.tasks[i].GateCall? by { RacerIsCopy(w.tasks[i], h); }
      if HasSecond(h) {
        RacingForAskTurn(w, start, i, h);
      }
    }
  }

  lemma RacerIsCopy(t: Task, h: Header)
    requires IsRacer(t, h)
    ensures t.GateCall? && t.h == h
  {
  }

  lemma RacingForAskTurn(w: World, start: Db, i: nat, h: Header)
    requires Ready(w) && HasSecond(h) && RacingForAsk(w, start, h) && i < |w.tasks|
    requires forall t :: t in w.tasks ==> IsRacer(t, h)
    requires w.db.index.Keys <= start.index.Keys && start.consumed <= w.db.consumed
    ensures RacingForAsk(Turn(w, i), start, h)
  {
    hide EncodeMember, CandidateMembers, Count, Command, Plays, IsRacer, OwnSlot, AskSlot, HasSecond;
    var (db, t) := Command(w.db, w.tasks[i]);
    assert w.tasks[i] in w.tasks;
    CopyCommand(w.db, w.tasks[i], h);
    CopyCommandOnAsk(w.db, w.tasks[i], h);
    RacerIsCopy(w.tasks[i], h);
    RacerIsCopy(t, h);
    CountUpdate(w.tasks, i, t, AskWinner, h);
    CountSome(w.tasks, AskWinner, h);
    assert Turn(w, i) == World(db, w.tasks[i := t]);
    assert forall u :: u in w.tasks[i := t] ==> u in w.tasks || u == t;
  }

  lemma {:induction false} RaceRun(w: World, start: Db, schedule: seq<nat>, h: Header)
    requires Ready(w) && Racing(w, start, h)
    ensures var end := Interleave(w, schedule);
      && Racing(end, start, h)
      && Count(end.tasks, Overtaker, h) == Count(w.tasks, Overtaker, h) + Overtaken(w, schedule, h)
    decreases |schedule|
  {
    hide Racing, Count, Overtakes, Command, Turn;
    if schedule != [] {
      RacingTurn(w, start, schedule[0], h);
      RaceRun(Turn(w, schedule[0]), start, schedule[1..], h);
    }
  }

  lemma {:induction false} LetThroughSplits(tasks: seq<Task>, h: Header)
    requires forall t :: t in tasks ==> IsRacer(t, h)
    ensures Count(tasks, LetThrough, h) == Count(tasks, OwnMarker, h) + Count(tasks, OvertakerLetThrough, h)
    ensures Count(tasks, OvertakerLetThrough, h) <= Count(tasks, Overtaker, h)
    ensures Count(tasks, OwnMarker, h) <= Count(tasks, OwnWinner, h)
  {
    hide EncodeMember, CandidateMembers;
    if tasks != [] {
      LetThroughSplits(tasks[1..], h);
      assert tasks[0] in tasks;
    }
  }

  /**
   Any number of copies of any reply, in any interleaving of their commands:
   at most one claims the reply's own wait, at most one the caller's ask_user
   wait, and whoever else is let through had looked for the marker of the own
   wait before the winner set it.
   */
  lemma CopiesRace(w: World, schedule: seq<nat>, h: Header)
    requires Ready(w) && AtTheStart(w, h)
    ensures var end := Interleave(w, schedule);
      && Count(end.tasks, OwnWinner, h) <= 1
      && (HasSecond(h) ==> Count(end.tasks, AskWinner, h) <= 1)
      && Count(end.tasks, Overtaker, h) == Overtaken(w, schedule, h)
      && Count(end.tasks, LetThrough, h) <= Count(end.tasks, OwnMarker, h) + Overtaken(w, schedule, h)
  {
    hide Count, Overtaken, IsRacer;
    RaceStarts(w, h);
    RaceRun(w, w.db, schedule, h);
    LetThroughSplits(Interleave(w, schedule).tasks, h);
  }

  /** Every copy has had its answer. */
  predicate Finished(w: World) { forall t :: t in w.tasks ==> t.GateCall? && t.next.Decided? }

  /**
   What a finished race has done to a live ask_user wait of the same caller: a
   duplicate sub-agent reply has cleared it exactly if some copy overtook the
   winner's marker.
   */
  lemma RaceClearsAskUserIff(w: World, schedule: seq<nat>, h: Header)
    requires Ready(w) && AtTheStart(w, h) && Finished(Interleave(w, schedule))
    requires HasSecond(h) && AskSlot(h) in w.db.index
    ensures AskSlot(h) !in Interleave(w, schedule).db.index <==> Overtaken(w, schedule, h) > 0
  {
    hide Count, Overtaken, IsRacer, AskSlot, Plays;
    var end := Interleave(w, schedule);
    RaceStarts(w, h);
    RaceRun(w, w.db, schedule, h);
    CountSome(end.tasks, Overtaker, h);
    CountSome(end.tasks, AskWinner, h);
    if t :| t in end.tasks && Plays(AskWinner, h, t) {
      AskWinnerOvertook(t, h);
    }
  }

  lemma AskWinnerOvertook(t: Task, h: Header)
    requires HasSecond(h) && Plays(AskWinner, h, t)
    ensures Plays(Overtaker, h, t)
  {
    Candidates(h);
  }

  /** Overtaking does no harm only where the next candidate's marker is there to stop the overtaker. */
  predicate AskMarkerStops(db: Db, h: Header) {
    HasSecond(h) && AskSlot(h) !in db.index && AskUserMember(h) in db.consumed
  }

  lemma OvertakersFate(end: World, start: Db, t: Task, h: Header)
    requires Racing(end, start, h) && t in end.tasks && Plays(Overtaker, h, t) && t.next.Decided?
    ensures t.next == Decided(Unregistered)
         || (HasSecond(h)
           && (t.next == Decided(Claimed(AskUserMember(h))) || t.next == Decided(AlreadyConsumed(AskUserMember(h)))))
    ensures HasSecond(h) && t.next == Decided(Claimed(AskUserMember(h))) ==> AskSlot(h) in start.index
    ensures AskMarkerStops(start, h) ==> !Plays(OvertakerLetThrough, h, t)
    ensures !AskMarkerStops(start, h) && !(HasSecond(h) && AskSlot(h) in start.index) ==>
              Plays(OvertakerLetThrough, h, t)
  {
    hide EncodeMember, CandidateMembers, Count, AskSlot, OwnSlot;
    Candidates(h);
    CountSome(end.tasks, AskWinner, h);
  }

  /** In a finished race for a live ask_user wait, an overtaker means that some overtaker was let through. */
  lemma SomeoneTookAsk(end: World, start: Db, t: Task, h: Header)
    requires Racing(end, start, h) && Finished(end) && t in end.tasks && Plays(Overtaker, h, t)
    requires HasSecond(h) && AskSlot(h) in start.index
    ensures exists u :: u in end.tasks && Plays(OvertakerLetThrough, h, u)
  {
    hide EncodeMember, CandidateMembers, Count, AskSlot, OwnSlot;
    Candidates(h);
    CountSome(end.tasks, AskWinner, h);
    var u :| u in end.tasks && Plays(AskWinner, h, u);
    assert Plays(OvertakerLetThrough, h, u);
  }

  /**
   A finished race for a live wait resumes the caller exactly once if and only
   if no copy overtook the winner's marker, or overtakers were stopped by the
   marker of an ask_user wait answered before.
   */
  lemma RaceWakesOnceIff(w: World, schedule: seq<nat>, h: Header)
    requires Ready(w) && AtTheStart(w, h) && w.tasks != [] && OwnSlot(h) in w.db.index
    requires Finished(Interleave(w, schedule))
    ensures Count(Interleave(w, schedule).tasks, LetThrough, h) == 1
       <==> Overtaken(w, schedule, h) == 0 || AskMarkerStops(w.db, h)
  {
    hide Count, Overtaken, IsRacer, AskSlot, OwnSlot, Plays, RacingForAsk, AskMarkerStops;
    var end := Interleave(w, schedule);
    RaceStarts(w, h);
    RaceRun(w, w.db, schedule, h);
    LetThroughSplits(end.tasks, h);
    WinnerMarked(end, w.db, h);
    CountSome(end.tasks, Overtaker, h);
    CountSome(end.tasks, OvertakerLetThrough, h);
    if t :| t in end.tasks && Plays(Overtaker, h, t) {
      OvertakersFate(end, w.db, t, h);
      if HasSecond(h) && AskSlot(h) in w.db.index {
        SomeoneTookAsk(end, w.db, t, h);
      }
    }
    if u :| u in end.tasks && Plays(OvertakerLetThrough, h, u) {
      LetThroughOvertook(u, h);
      OvertakersFate(end, w.db, u, h);
    }
  }

  lemma LetThroughOvertook(t: Task, h: Header)
    requires Plays(OvertakerLetThrough, h, t)
    ensures Plays(Overtaker, h, t) && t.GateCall? && t.next.Decided?
  {
  }

  lemma WinnerMarked(end: World, start: Db, h: Header)
    requires Racing(end, start, h) && Finished(end) && end.tasks != [] && OwnSlot(h) in start.index
    ensures Count(end.tasks, OwnMarker, h) == 1
  {
    hide EncodeMember, CandidateMembers, OwnSlot, AskSlot, RacingForAsk;
    assert end.tasks[0] in end.tasks;
    AllMarked(end.tasks, h);
  }

  lemma {:induction false} AllMarked(tasks: seq<Task>, h: Header)
    requires forall t :: t in tasks ==> t.GateCall? && t.next.Decided?
    ensures Count(tasks, OwnMarker, h) == Count(tasks, OwnWinner, h)
  {
    if tasks != [] {
      AllMarked(tasks[1..], h);
      assert tasks[0] in tasks;
    }
  }

  /**
   Two copies that both go through: the second looks for the marker between the
   first one's ZREM and SET. Where the caller's ask_user wait is live it takes
   that one; where it is marked, that marker stops it.
   */
  lemma BothCopiesAllowed(db: Db, h: Header)
    requires OwnSlot(h) in db.index && Own(h) !in db.consumed
    ensures var copy := GateCall(h, Removing(0));
      var late := DecideAmong(db, h.sessionId, CandidateMembers(h)[1..]);
      var schedule := if HasSecond(h) then [0, 1, 1, 1, 1, 0] else [0, 1, 1, 0];
      Interleave(World(db, [copy, copy]), schedule).tasks
      == [GateCall(h, Decided(Claimed(Own(h)))), GateCall(h, Decided(late))]
  {
    hide EncodeMember, CandidateMembers, SlotOf;
    Candidates(h);
    var copy := GateCall(h, Removing(0));
    var w0 := World(db, [copy, copy]);
    var w1 := Turn(w0, 0);
    var w2 := Turn(w1, 1);
    var w3 := Turn(w2, 1);
    assert w1.tasks == [GateCall(h, Marking(0)), copy];
    assert w2.tasks == [GateCall(h, Marking(0)), GateCall(h, Checking(0))];
    if HasSecond(h) {
      assert w3.tasks == [GateCall(h, Marking(0)), GateCall(h, Removing(1))];
      LateCopyAtAsk(w3.db, db, h);
      SixTurns(w0, 0, 1, 1, 1, 1, 0);
    } else {
      assert w3.tasks == [GateCall(h, Marking(0)), GateCall(h, Decided(Unregistered))];
      FourTurns(w0, 0, 1, 1, 0);
    }
  }

  /** The second copy's ZREM at the ask_user candidate. */
  lemma LateRemoves(now: Db, h: Header)
    requires HasSecond(h)
    ensures var w := World(now, [GateCall(h, Marking(0)), GateCall(h, Removing(1))]);
      var live := AskSlot(h) in now.index;
      Turn(w, 1) == World(now.(index := now.index - {AskSlot(h)}),
                          [GateCall(h, Marking(0)), GateCall(h, if live then Marking(1) else Checking(1))])
  {
    hide EncodeMember, CandidateMembers, MemberFromResume, AskUserMember;
    Candidates(h);
  }

  /** Its SET there, or its look for the marker. */
  lemma LateSettles(now: Db, h: Header, live: bool)
    requires HasSecond(h)
    ensures var w := World(now, [GateCall(h, Marking(0)), GateCall(h, if live then Marking(1) else Checking(1))]);
      Turn(w, 1).tasks
      == [GateCall(h, Marking(0)),
          GateCall(h, Decided(if live then Claimed(AskUserMember(h))
                              else if AskUserMember(h) in now.consumed then AlreadyConsumed(AskUserMember(h))
                              else Unregistered))]
  {
    hide EncodeMember, CandidateMembers, MemberFromResume, AskUserMember;
    Candidates(h);
  }

  /** The first copy's SET, at last. */
  lemma FirstMarks(w: World, h: Header, late: GateCommand)
    requires w.tasks == [GateCall(h, Marking(0)), GateCall(h, late)] && late.Decided?
    ensures Ready(w) && Turn(w, 0).tasks == [GateCall(h, Decided(Claimed(Own(h)))), GateCall(h, late)]
  {
    hide EncodeMember, CandidateMembers, MemberFromResume;
    Candidates(h);
  }

  lemma LastCandidateDecides(db: Db, h: Header)
    requires HasSecond(h)
    ensures DecideAmong(db, h.sessionId, CandidateMembers(h)[1..])
         == if AskSlot(h) in db.index then Claimed(AskUserMember(h))
            else if AskUserMember(h) in db.consumed then AlreadyConsumed(AskUserMember(h))
            else Unregistered
  {
    hide EncodeMember, CandidateMembers, MemberFromResume, AskUserMember;
    Candidates(h);
    assert CandidateMembers(h)[1..] == [AskUserMember(h)] && [AskUserMember(h)][1..] == [];
  }

  lemma SlotsApart(h: Header)
    requires HasSecond(h)
    ensures OwnSlot(h) != AskSlot(h)
  {
    hide EncodeMember, CandidateMembers, MemberFromResume, AskUserMember;
    Candidates(h);
  }

  /** The answer a copy gets at the ask_user candidate of this store. */
  function AnswerAtAsk(db: Db, h: Header): Decision {
    if AskSlot(h) in db.index then Claimed(AskUserMember(h))
    else if AskUserMember(h) in db.consumed then AlreadyConsumed(AskUserMember(h))
    else Unregistered
  }

  lemma LateTwoTurns(now: Db, h: Header)
    requires HasSecond(h) && Ready(World(now, [GateCall(h, Marking(0)), GateCall(h, Removing(1))]))
    ensures var w := World(now, [GateCall(h, Marking(0)), GateCall(h, Removing(1))]);
      Turn(Turn(w, 1), 1).tasks == [GateCall(h, Marking(0)), GateCall(h, Decided(AnswerAtAsk(now, h)))]
  {
    hide EncodeMember, CandidateMembers, MemberFromResume, AskUserMember, Turn, Command, AskSlot, Ready, WellFormed;
    hide HasSecond;
    LateRemoves(now, h);
    LateSettles(now.(index := now.index - {AskSlot(h)}), h, AskSlot(h) in now.index);
  }

  /** The second copy, sent on to the ask_user candidate while the first has yet to set its marker. */
  lemma LateCopyAtAsk(now: Db, db: Db, h: Header)
    requires HasSecond(h) && now == db.(index := db.index - {OwnSlot(h)})
    requires Ready(World(now, [GateCall(h, Marking(0)), GateCall(h, Removing(1))]))
    ensures var w := World(now, [GateCall(h, Marking(0)), GateCall(h, Removing(1))]);
      Turn(Turn(Turn(w, 1), 1), 0).tasks
      == [GateCall(h, Decided(Claimed(Own(h)))),
          GateCall(h, Decided(DecideAmong(db, h.sessionId, CandidateMembers(h)[1..])))]
  {
    hide EncodeMember, CandidateMembers, MemberFromResume, AskUserMember, Turn, Command, DecideAmong;
    hide AskSlot, OwnSlot, Ready, WellFormed, HasSecond;
    var w := World(now, [GateCall(h, Marking(0)), GateCall(h, Removing(1))]);
    LateTwoTurns(now, h);
    FirstMarks(Turn(Turn(w, 1), 1), h, Decided(AnswerAtAsk(now, h)));
    SlotsApart(h);
    LastCandidateDecides(db, h);
    assert AnswerAtAsk(now, h) == AnswerAtAsk(db, h);
  }

  lemma SixTurns(w: World, a: nat, b: nat, c: nat, d: nat, e: nat, f: nat)
    requires Ready(w)
    ensures Interleave(w, [a, b, c, d, e, f]) == Turn(Turn(Turn(Turn(Turn(Turn(w, a), b), c), d), e), f)
  {
    hide Turn;
    assert [a, b, c, d, e, f][1..] == [b, c, d, e, f] && [b, c, d, e, f][1..] == [c, d, e, f];
    FourTurns(Turn(Turn(w, a), b), c, d, e, f);
  }

  lemma FourTurns(w: World, a: nat, b: nat, c: nat, d: nat)
    requires Ready(w)
    ensures Interleave(w, [a, b, c, d]) == Turn(Turn(Turn(Turn(w, a), b), c), d)
  {
    hide Turn;
    assert [a, b, c, d][1..] == [b, c, d] && [b, c, d][1..] == [c, d] && [c, d][1..] == [d] && [d][1..] == [];
    assert Interleave(w, [a, b, c, d]) == Interleave(Turn(w, a), [b, c, d]);
    assert Interleave(Turn(w, a), [b, c, d]) == Interleave(Turn(Turn(w, a), b), [c, d]);
    assert Interleave(Turn(Turn(w, a), b), [c, d]) == Interleave(Turn(Turn(Turn(w, a), b), c), [d]);
  }

  /**
   The sweeper's renewal against a gate call: the ZADD carries no condition, so
   when it comes after the claim it puts the entry back and the late real reply
   claims the wait a second time; when it comes before, that reply is denied.
   */
  lemma LateRenewalRevives(db: Db, h: Header, deadlineMs: int, late: bool)
    requires SlotOf(h.sessionId, MemberFromResume(h)) in db.index
    ensures var slot, member := SlotOf(h.sessionId, MemberFromResume(h)), MemberFromResume(h);
      var renewal := Renewal(slot, deadlineMs, 1);
      var claimed := Finish(if late then db else Command(db, renewal).0, h, Removing(0));
      var before := if late then Command(claimed.0, renewal).0 else claimed.0;
      && claimed.1 == Claimed(member)
      && Finish(before, h, Removing(0)).1 == if late then Claimed(member) else AlreadyConsumed(member)
  {
    hide EncodeMember, CandidateMembers, Finish;
    var slot, member := SlotOf(h.sessionId, MemberFromResume(h)), MemberFromResume(h);
    var renewal := Renewal(slot, deadlineMs, 1);
    var first := if late then db else Command(db, renewal).0;
    GateIsOneStep(first, h);
    var second := if late then Command(AfterGate(first, h), renewal).0 else AfterGate(first, h);
    GateIsOneStep(second, h);
  }
}
