/**
 Whole runs of the liveness protocol. A step is one registration, one reply
 put on a control stream, one reply through gate and join, one examination of
 a due entry, one prune, the passing of time, or any change workers and
 clients make to the evidence triage reads.
 */
module LivenessRuns {
  import opened Wrappers
  import opened WaitIndex
  import opened WaitStore
  import opened WaitGate
  import opened WaitSweeper
  import opened SweepSafety
  import opened SweepVerdicts
  import opened TaskGroupJoin

  datatype Event =
    | Register(wait: Member, timeoutMs: int)
    | Send(reply: Reply)
    | Deliver(reply: Reply)
    | Examine(slot: Slot)
    | Prune(shard: nat)
    | Advance(ms: nat)
    | Evidence(executions: map<(string, string), Execution>, online: set<string>,
               groups: map<string, Group>, results: map<(string, string), StoredResult>)

  function SlotFor(wait: Member): Slot { SlotOf(wait.sessionId, EncodeMember(wait)) }

  function Registered(db: Db, wait: Member, timeoutMs: int): Db {
    db.(index := db.index[SlotFor(wait) := db.now + Max(0, timeoutMs)], consumed := db.consumed - {EncodeMember(wait)})
  }

  predicate IsDue(db: Db, slot: Slot) { slot in db.index && db.index[slot] <= db.now }

  function Next(db: Db, settings: Settings, e: Event): Db {
    match e
    case Register(wait, timeoutMs) => Registered(db, wait, timeoutMs)
    case Send(reply) => db.(ctrl := Appended(db.ctrl, reply))
    case Deliver(reply) =>
      if Decide(db, reply.header).Allowed() then AfterJoin(AfterGate(db, reply.header), reply) else db
    case Examine(slot) => if IsDue(db, slot) then Examined(db, settings, slot, db.index[slot]) else db
    case Prune(shard) => Pruned(db, shard)
    case Advance(ms) => db.(now := db.now + ms)
    case Evidence(executions, online, groups, results) =>
      db.(executions := executions, online := online, groups := groups, results := results)
  }

  function Run(db: Db, settings: Settings, events: seq<Event>): Db
    decreases |events|
  {
    if events == [] then db else Run(Next(db, settings, events[0]), settings, events[1..])
  }

  // ---------------------------------------------------------------- what one step does to one slot

  predicate Registers(e: Event, slot: Slot) { e.Register? && SlotFor(e.wait) == slot }

  predicate Claims(db: Db, e: Event, slot: Slot) {
    e.Deliver? && Decide(db, e.reply.header).Claimed?
    && SlotOf(e.reply.header.sessionId, Decide(db, e.reply.header).member) == slot
  }

  predicate Acts(db: Db, e: Event, slot: Slot) { e == Examine(slot) && IsDue(db, slot) }

  function ActionOn(db: Db, settings: Settings, slot: Slot): Action
    requires slot in db.index
  {
    Triage(db, settings, slot, db.index[slot]).action
  }

  predicate Drops(db: Db, settings: Settings, e: Event, slot: Slot) {
    Acts(db, e, slot) && ActionOn(db, settings, slot).DropEntry?
  }

  predicate Renews(db: Db, settings: Settings, e: Event, slot: Slot) {
    Acts(db, e, slot) && (ActionOn(db, settings, slot).RenewEntry? || ActionOn(db, settings, slot).Emit?)
  }

  predicate Prunes(db: Db, e: Event, slot: Slot) {
    e == Prune(slot.shard) && slot in InScoreRange(db.index, slot.shard, db.now - WAIT_PRUNE_AFTER_MS)
  }

  /** The only ways a slot's entry and score change in one step. */
  lemma SlotStep(db: Db, settings: Settings, e: Event, slot: Slot)
    ensures var after := Next(db, settings, e);
      && (slot in after.index <==>
            Registers(e, slot)
            || (slot in db.index && !Claims(db, e, slot) && !Drops(db, settings, e, slot) && !Prunes(db, e, slot)))
      && (slot in after.index ==>
            after.index[slot] ==
              if Registers(e, slot) then db.now + Max(0, e.timeoutMs)
              else if Renews(db, settings, e, slot) then db.now + WAIT_RENEW_INCREMENT_MS
              else db.index[slot])
      && (Claims(db, e, slot) || Drops(db, settings, e, slot) || Prunes(db, e, slot) ==> slot in db.index)
      && after.now >= db.now
  {
    hide Triage, DecodeMember, EncodeMember, Appended, CandidateMembers, AfterJoin;
    if e.Deliver? {
      JoinKeepsIndex(AfterGate(db, e.reply.header), e.reply);
      DecideAmongIsCandidate(db, e.reply.header.sessionId, CandidateMembers(e.reply.header));
    } else if e.Examine? && IsDue(db, e.slot) {
      AppliedEffect(db, e.slot, db.index[e.slot], ActionOn(db, settings, e.slot));
    }
  }

  lemma JoinKeepsIndex(db: Db, reply: Reply)
    ensures AfterJoin(db, reply).index == db.index && AfterJoin(db, reply).now == db.now
  {
    hide Join;
  }

  /** The only ways a member's marker changes in one step. */
  lemma MarkerStep(db: Db, settings: Settings, e: Event, sessionId: string, member: string)
    ensures var after := Next(db, settings, e);
      && (member in after.consumed ==>
            member in db.consumed || (e.Deliver? && Decide(db, e.reply.header) == Claimed(member)))
      && (member in db.consumed || (e.Deliver? && Decide(db, e.reply.header) == Claimed(member)) ==>
            member in after.consumed || (e.Register? && EncodeMember(e.wait) == member))
  {
    hide Examined, Decide, EncodeMember;
    if e.Examine? && IsDue(db, e.slot) {
      ExamineEffect(db, settings, e.slot, db.index[e.slot]);
    }
  }

  /** A delivery resumes its caller when the gate allows it and no group still holds it back. */
  predicate Resumes(db: Db, e: Event) {
    e.Deliver? && Decide(db, e.reply.header).Allowed()
    && (Join(AfterGate(db, e.reply.header), e.reply).NoGroup?
        || Join(AfterGate(db, e.reply.header), e.reply).Aggregated?)
  }

  /** What that means in terms of the reply's group. */
  lemma ResumesIff(db: Db, reply: Reply)
    ensures var g := reply.header.taskGroupId;
      Resumes(db, Deliver(reply)) <==>
        && Decide(db, reply.header).Allowed()
        && (g == "" || g !in db.groups
            || (!db.groups[g].aborted && db.groups[g].completed + 1 >= db.groups[g].total))
  {
    hide Decide;
  }

  // ---------------------------------------------------------------- the ledger

  datatype Tally = Tally(registered: nat, inserted: nat, claimed: nat, dropped: nat, pruned: nat)

  function One(b: bool): nat { if b then 1 else 0 }

  /** How often each kind of step touched the slot in a run. */
  function TallyOf(db: Db, settings: Settings, events: seq<Event>, slot: Slot): Tally
    decreases |events|
  {
    if events == [] then Tally(0, 0, 0, 0, 0)
    else
      var e := events[0];
      var rest := TallyOf(Next(db, settings, e), settings, events[1..], slot);
      Tally(rest.registered + One(Registers(e, slot)),
            rest.inserted + One(Registers(e, slot) && slot !in db.index),
            rest.claimed + One(Claims(db, e, slot)),
            rest.dropped + One(Drops(db, settings, e, slot)),
            rest.pruned + One(Prunes(db, e, slot)))
  }

  /**
   In every run, for every slot: what came in is what was claimed, dropped,
   pruned or is still there; so claims never exceed registrations.
   */
  lemma {:induction false} Ledger(db: Db, settings: Settings, events: seq<Event>, slot: Slot)
    ensures var t := TallyOf(db, settings, events, slot);
      && t.inserted + One(slot in db.index)
        == t.claimed + t.dropped + t.pruned + One(slot in Run(db, settings, events).index)
      && t.inserted <= t.registered
      && t.claimed <= t.registered + One(slot in db.index)
    decreases |events|
  {
    hide Next, Claims, Drops, Prunes;
    if events != [] {
      SlotStep(db, settings, events[0], slot);
      LeavesOneWay(db, settings, events[0], slot);
      Ledger(Next(db, settings, events[0]), settings, events[1..], slot);
    }
  }

  lemma LeavesOneWay(db: Db, settings: Settings, e: Event, slot: Slot)
    ensures One(Registers(e, slot)) + One(Claims(db, e, slot))
              + One(Drops(db, settings, e, slot)) + One(Prunes(db, e, slot)) <= 1
  {
    hide Triage, Decide;
  }

  /** When the slot's entry was last written, given when it was before the run. */
  function LastWrite(db: Db, settings: Settings, events: seq<Event>, slot: Slot, writtenAt: int): int
    decreases |events|
  {
    if events == [] then writtenAt
    else
      LastWrite(Next(db, settings, events[0]), settings, events[1..], slot,
                if Registers(events[0], slot) || Renews(db, settings, events[0], slot) then db.now else writtenAt)
  }

  lemma {:induction false} ScoreCoversLastWrite(db: Db, settings: Settings, events: seq<Event>, slot: Slot,
                                                writtenAt: int)
    requires slot in db.index ==> db.index[slot] >= writtenAt
    ensures var end := Run(db, settings, events);
      slot in end.index ==> end.index[slot] >= LastWrite(db, settings, events, slot, writtenAt)
    decreases |events|
  {
    hide Next, Renews;
    if events != [] {
      SlotStep(db, settings, events[0], slot);
      var written := if Registers(events[0], slot) || Renews(db, settings, events[0], slot) then db.now else writtenAt;
      ScoreCoversLastWrite(Next(db, settings, events[0]), settings, events[1..], slot, written);
    }
  }

  /** A prune, wherever it falls in a run, takes only entries last written at least eight days before. */
  lemma PruneTakesOnlyOld(db: Db, settings: Settings, events: seq<Event>, slot: Slot, writtenAt: int)
    requires slot in db.index ==> db.index[slot] >= writtenAt
    requires Prunes(Run(db, settings, events), Prune(slot.shard), slot)
    ensures Run(db, settings, events).now - LastWrite(db, settings, events, slot, writtenAt) >= 8 * 24 * 3600 * 1000
  {
    ScoreCoversLastWrite(db, settings, events, slot, writtenAt);
  }

  // ---------------------------------------------------------------- idempotent wake-up

  /** Some candidate is marked and gone, and none before it is live: every copy of the reply is turned away. */
  ghost predicate Resolved(db: Db, sessionId: string, members: seq<string>) {
    members != [] && SlotOf(sessionId, members[0]) !in db.index
    && (members[0] in db.consumed || Resolved(db, sessionId, members[1..]))
  }

  /** A resolved beginning of the candidates settles them all: the later ones are never looked at. */
  lemma {:induction false} ResolvedIsDenied(db: Db, sessionId: string, first: seq<string>, members: seq<string>)
    requires first <= members && Resolved(db, sessionId, first)
    ensures DecideAmong(db, sessionId, members).AlreadyConsumed?
  {
    if members[0] !in db.consumed {
      ResolvedIsDenied(db, sessionId, first[1..], members[1..]);
    }
  }

  /** The candidates the gate looks at before it finds the given one, and that one. */
  function UpTo(members: seq<string>, member: string): (first: seq<string>)
    ensures first <= members
  {
    if members == [] then []
    else if members[0] == member then [member]
    else [members[0]] + UpTo(members[1..], member)
  }

  lemma {:induction false} ClaimResolves(db: Db, sessionId: string, members: seq<string>, after: Db)
    requires DecideAmong(db, sessionId, members).Claimed?
    requires var m := DecideAmong(db, sessionId, members).member;
      after.index == db.index - {SlotOf(sessionId, m)} && after.consumed == db.consumed + {m}
    ensures Resolved(after, sessionId, UpTo(members, DecideAmong(db, sessionId, members).member))
  {
    var m := DecideAmong(db, sessionId, members).member;
    if !Settles(db, sessionId, members[0]) {
      ClaimResolves(db, sessionId, members[1..], after);
      DecideAmongIsCandidate(db, sessionId, members[1..]);
      assert members[0] != m;
      assert UpTo(members, m)[1..] == UpTo(members[1..], m);
    }
  }

  lemma {:induction false} ResolvedStep(db: Db, settings: Settings, e: Event, sessionId: string, members: seq<string>)
    requires Resolved(db, sessionId, members)
    requires e.Register? ==> EncodeMember(e.wait) !in members
    ensures Resolved(Next(db, settings, e), sessionId, members)
  {
    hide Next;
    SlotStep(db, settings, e, SlotOf(sessionId, members[0]));
    MarkerStep(db, settings, e, sessionId, members[0]);
    if members[0] !in db.consumed {
      ResolvedStep(db, settings, e, sessionId, members[1..]);
    }
  }

  lemma {:induction false} ResolvedRun(db: Db, settings: Settings, events: seq<Event>, sessionId: string,
                                       members: seq<string>)
    requires Resolved(db, sessionId, members)
    requires forall e :: e in events && e.Register? ==> EncodeMember(e.wait) !in members
    ensures Resolved(Run(db, settings, events), sessionId, members)
    decreases |events|
  {
    hide Next;
    if events != [] {
      ResolvedStep(db, settings, events[0], sessionId, members);
      ResolvedRun(Next(db, settings, events[0]), settings, events[1..], sessionId, members);
    }
  }

  /**
   Once a reply has claimed a wait, every further copy of it is denied, after
   any run in which the member it claimed, and any candidate looked at before
   that one, is not registered again. Of a reply that claimed its own wait
   only that wait matters, whatever its caller registers next.
   */
  lemma DuplicatesDenied(db: Db, settings: Settings, reply: Reply, events: seq<Event>)
    requires Decide(db, reply.header).Claimed?
    requires var first := UpTo(CandidateMembers(reply.header), Decide(db, reply.header).member);
      forall e :: e in events && e.Register? ==> EncodeMember(e.wait) !in first
    ensures !Decide(Run(Next(db, settings, Deliver(reply)), settings, events), reply.header).Allowed()
    ensures Decide(db, reply.header).member == MemberFromResume(reply.header) ==>
              UpTo(CandidateMembers(reply.header), Decide(db, reply.header).member) == [MemberFromResume(reply.header)]
  {
    var h := reply.header;
    var members, first := CandidateMembers(h), UpTo(CandidateMembers(h), Decide(db, h).member);
    ClaimResolves(db, h.sessionId, members, AfterGate(db, h));
    var claimed := Next(db, settings, Deliver(reply));
    assert claimed == AfterJoin(AfterGate(db, h), reply);
    ResolvedIndexOnly(AfterGate(db, h), claimed, h.sessionId, first);
    ResolvedRun(claimed, settings, events, h.sessionId, first);
    ResolvedIsDenied(Run(claimed, settings, events), h.sessionId, first, members);
  }

  lemma {:induction false} ResolvedIndexOnly(a: Db, b: Db, sessionId: string, members: seq<string>)
    requires Resolved(a, sessionId, members) && a.index == b.index && a.consumed == b.consumed
    ensures Resolved(b, sessionId, members)
  {
    if members[0] !in a.consumed {
      ResolvedIndexOnly(a, b, sessionId, members[1..]);
    }
  }

  predicate ClaimedInRun(db: Db, settings: Settings, events: seq<Event>, member: string)
    decreases |events|
  {
    events != []
    && ((events[0].Deliver? && Decide(db, events[0].reply.header) == Claimed(member))
        || ClaimedInRun(Next(db, settings, events[0]), settings, events[1..], member))
  }

  lemma {:induction false} MarkersComeFromClaims(db: Db, settings: Settings, events: seq<Event>, member: string)
    requires member in Run(db, settings, events).consumed
    ensures member in db.consumed || ClaimedInRun(db, settings, events, member)
    decreases |events|
  {
    hide Next;
    if events != [] {
      MarkersComeFromClaims(Next(db, settings, events[0]), settings, events[1..], member);
      MarkerStep(db, settings, events[0], "", member);
    }
  }

  /** A reply none of whose candidates was ever claimed is never denied. */
  lemma UnclaimedNeverDenied(db: Db, settings: Settings, events: seq<Event>, h: Header)
    requires forall m :: m in CandidateMembers(h) ==> m !in db.consumed && !ClaimedInRun(db, settings, events, m)
    ensures Decide(Run(db, settings, events), h).Allowed()
  {
    var end := Run(db, settings, events);
    DecideAmongIsCandidate(end, h.sessionId, CandidateMembers(h));
    if Decide(end, h).AlreadyConsumed? {
      MarkersComeFromClaims(db, settings, events, Decide(end, h).member);
    }
  }

  /**
   From a live unmarked entry on, a member not registered again stays
   recognizable exactly as long as only the gate removed it.
   */
  lemma {:induction false} RecognizableIffOnlyClaimed(db: Db, settings: Settings, events: seq<Event>, wait: Member)
    requires SlotFor(wait) in db.index || EncodeMember(wait) in db.consumed
    requires SlotFor(wait) in db.index ==> EncodeMember(wait) !in db.consumed
    requires forall e :: e in events && e.Register? ==> e.wait != wait
    ensures var t := TallyOf(db, settings, events, SlotFor(wait));
      Settles(Run(db, settings, events), wait.sessionId, EncodeMember(wait)) <==> t.dropped == 0 && t.pruned == 0
    decreases |events|
  {
    hide Next, Claims, Drops, Prunes;
    if events != [] {
      var e, slot, member := events[0], SlotFor(wait), EncodeMember(wait);
      var after := Next(db, settings, e);
      RegistersOnly(e, wait);
      SlotStep(db, settings, e, slot);
      MarkerStep(db, settings, e, wait.sessionId, member);
      ClaimNamesMember(db, e, wait);
      LeavesOneWay(db, settings, e, slot);
      if slot in after.index || member in after.consumed {
        RecognizableIffOnlyClaimed(after, settings, events[1..], wait);
      } else {
        GoneForGood(after, settings, events[1..], wait);
      }
    }
  }

  lemma RegistersOnly(e: Event, wait: Member)
    requires e.Register? ==> e.wait != wait
    ensures !Registers(e, SlotFor(wait))
    ensures e.Register? ==> EncodeMember(e.wait) != EncodeMember(wait)
  {
    if e.Register? && EncodeMember(e.wait) == EncodeMember(wait) {
      EncodeInjective(e.wait, wait);
    }
  }

  /** A claim of this slot is a claim of this member, and the other way round. */
  lemma ClaimNamesMember(db: Db, e: Event, wait: Member)
    ensures Claims(db, e, SlotFor(wait)) <==> e.Deliver? && Decide(db, e.reply.header) == Claimed(EncodeMember(wait))
  {
    if e.Deliver? && Decide(db, e.reply.header) == Claimed(EncodeMember(wait)) {
      var h := e.reply.header;
      DecideAmongIsCandidate(db, h.sessionId, CandidateMembers(h));
      RoundTrip(wait);
      RoundTrip(Member(h.sessionId, h.messageId, h.parentMessageId, h.taskGroupId));
      RoundTrip(Member(h.sessionId, h.messageId, "", ""));
      assert h.sessionId == wait.sessionId;
    }
  }

  lemma {:induction false} GoneForGood(db: Db, settings: Settings, events: seq<Event>, wait: Member)
    requires !Settles(db, wait.sessionId, EncodeMember(wait))
    requires forall e :: e in events && e.Register? ==> e.wait != wait
    ensures !Settles(Run(db, settings, events), wait.sessionId, EncodeMember(wait))
    decreases |events|
  {
    hide Next, Claims;
    if events != [] {
      RegistersOnly(events[0], wait);
      SlotStep(db, settings, events[0], SlotFor(wait));
      MarkerStep(db, settings, events[0], wait.sessionId, EncodeMember(wait));
      ClaimNamesMember(db, events[0], wait);
      GoneForGood(Next(db, settings, events[0]), settings, events[1..], wait);
    }
  }

  /**
   After a sub-agent's wait was live, a copy of its reply clears a live
   ask_user wait of the same caller exactly when the sweeper, not the gate,
   took the sub-agent's own entry out in between.
   */
  lemma DuplicateClearsAskUserIff(db: Db, settings: Settings, events: seq<Event>, h: Header)
    requires h.parentMessageId != "" && h.taskGroupId == ""
    requires SlotOf(h.sessionId, MemberFromResume(h)) in db.index && MemberFromResume(h) !in db.consumed
    requires forall e :: e in events && e.Register? ==>
               e.wait != Member(h.sessionId, h.messageId, h.parentMessageId, "")
    requires SlotOf(h.sessionId, AskUserMember(h)) in Run(db, settings, events).index
    ensures var t := TallyOf(db, settings, events, SlotOf(h.sessionId, MemberFromResume(h)));
      Decide(Run(db, settings, events), h) == Claimed(AskUserMember(h)) <==> t.dropped > 0 || t.pruned > 0
  {
    RecognizableIffOnlyClaimed(db, settings, events, Member(h.sessionId, h.messageId, h.parentMessageId, ""));
    AskUserCleared(Run(db, settings, events), h);
  }

  // ---------------------------------------------------------------- woken once

  /** The reply the callee of a wait sends; a stand-in for the wait carries the same header. */
  predicate IsCopy(e: Event, h: Header) { e.Deliver? && e.reply.header == h }

  function Copies(events: seq<Event>, h: Header): nat {
    if events == [] then 0 else One(IsCopy(events[0], h)) + Copies(events[1..], h)
  }

  /** How many of the copies delivered in a run are allowed to resume the caller. */
  function AllowedCopies(db: Db, settings: Settings, events: seq<Event>, h: Header): nat
    decreases |events|
  {
    if events == [] then 0
    else One(IsCopy(events[0], h) && Decide(db, h).Allowed())
         + AllowedCopies(Next(db, settings, events[0]), settings, events[1..], h)
  }

  lemma {:induction false} ResolvedAllowsNone(db: Db, settings: Settings, events: seq<Event>, h: Header)
    requires Resolved(db, h.sessionId, [MemberFromResume(h)])
    requires forall e :: e in events && e.Register? ==> EncodeMember(e.wait) != MemberFromResume(h)
    ensures AllowedCopies(db, settings, events, h) == 0
    decreases |events|
  {
    hide Next, Resolved, EncodeMember, CandidateMembers;
    if events != [] {
      assert [MemberFromResume(h)] <= CandidateMembers(h);
      ResolvedIsDenied(db, h.sessionId, [MemberFromResume(h)], CandidateMembers(h));
      ResolvedStep(db, settings, events[0], h.sessionId, [MemberFromResume(h)]);
      ResolvedAllowsNone(Next(db, settings, events[0]), settings, events[1..], h);
    }
  }

  /** The entry of a sub-agent wait is claimed only by a copy of its own reply. */
  lemma OwnReplyClaims(db: Db, e: Event, h: Header)
    requires h.parentMessageId != "" && Claims(db, e, SlotOf(h.sessionId, MemberFromResume(h)))
    ensures IsCopy(e, h)
  {
    hide EncodeMember;
    var other := e.reply.header;
    DecideAmongIsCandidate(db, other.sessionId, CandidateMembers(other));
    RoundTrip(Member(h.sessionId, h.messageId, h.parentMessageId, h.taskGroupId));
    RoundTrip(Member(other.sessionId, other.messageId, other.parentMessageId, other.taskGroupId));
    RoundTrip(Member(other.sessionId, other.messageId, "", ""));
  }

  /** The first copy after a live wait claims it and leaves the reply resolved. */
  lemma FirstCopyClaims(db: Db, settings: Settings, e: Event, h: Header)
    requires IsCopy(e, h) && SlotOf(h.sessionId, MemberFromResume(h)) in db.index
    ensures Decide(db, h) == Claimed(MemberFromResume(h))
    ensures Resolved(Next(db, settings, e), h.sessionId, [MemberFromResume(h)])
  {
    hide EncodeMember;
    assert CandidateMembers(h)[0] == MemberFromResume(h);
    ClaimResolves(db, h.sessionId, CandidateMembers(h), AfterGate(db, h));
    ResolvedIndexOnly(AfterGate(db, h), Next(db, settings, e), h.sessionId, [MemberFromResume(h)]);
  }

  /**
   Woken exactly once. From a live sub-agent wait, in any run in which that
   wait is not registered again and the sweeper does not take its entry: of the
   real reply, its duplicates and every stand-in, the first one delivered is
   allowed and all others are denied, even if the woken caller asks the user
   next and a late duplicate finds that wait live.
   */
  lemma {:induction false} WokenExactlyOnce(db: Db, settings: Settings, events: seq<Event>, h: Header)
    requires h.parentMessageId != ""
    requires SlotOf(h.sessionId, MemberFromResume(h)) in db.index && MemberFromResume(h) !in db.consumed
    requires forall e :: e in events && e.Register? ==> EncodeMember(e.wait) != MemberFromResume(h)
    requires var t := TallyOf(db, settings, events, SlotOf(h.sessionId, MemberFromResume(h)));
      t.dropped == 0 && t.pruned == 0
    ensures AllowedCopies(db, settings, events, h) == if Copies(events, h) > 0 then 1 else 0
    decreases |events|
  {
    hide Next, Resolved, EncodeMember, CandidateMembers, Claims, Drops, Prunes, Decide, Renews;
    if events != [] {
      var e, slot := events[0], SlotOf(h.sessionId, MemberFromResume(h));
      var after := Next(db, settings, e);
      if IsCopy(e, h) {
        FirstCopyClaims(db, settings, e, h);
        ResolvedAllowsNone(after, settings, events[1..], h);
      } else {
        StaysLive(db, settings, e, h);
        WokenExactlyOnce(after, settings, events[1..], h);
      }
    }
  }

  lemma StaysLive(db: Db, settings: Settings, e: Event, h: Header)
    requires h.parentMessageId != "" && !IsCopy(e, h)
    requires var slot := SlotOf(h.sessionId, MemberFromResume(h));
      slot in db.index && MemberFromResume(h) !in db.consumed
      && !Drops(db, settings, e, slot) && !Prunes(db, e, slot)
    ensures var after := Next(db, settings, e);
      SlotOf(h.sessionId, MemberFromResume(h)) in after.index && MemberFromResume(h) !in after.consumed
  {
    hide Next, EncodeMember, CandidateMembers, Claims, Drops, Prunes, Decide, Renews;
    var slot := SlotOf(h.sessionId, MemberFromResume(h));
    var wait := Member(h.sessionId, h.messageId, h.parentMessageId, h.taskGroupId);
    SlotStep(db, settings, e, slot);
    MarkerStep(db, settings, e, h.sessionId, MemberFromResume(h));
    ClaimNamesMember(db, e, wait);
    if Claims(db, e, slot) {
      OwnReplyClaims(db, e, h);
    }
  }

  function HeaderOf(wait: Member): Header {
    Header(wait.sessionId, wait.parentMessageId, wait.childMessageId, wait.taskGroupId)
  }

  /**
   A caller whose callee is gone is woken all the same, and only once: the
   examination puts a stand-in that says what became of the callee on the
   stream the caller reads, and once that or any other copy of the reply is
   delivered exactly one has resumed the caller.
   */
  lemma AbandonedCallerIsWoken(db: Db, settings: Settings, wait: Member, events: seq<Event>)
    requires IsDue(db, SlotFor(wait)) && EncodeMember(wait) !in db.consumed
    requires Owed(db, settings, SlotFor(wait), db.index[SlotFor(wait)])
    requires forall e :: e in events && e.Register? ==> e.wait != wait
    requires var t := TallyOf(Next(db, settings, Examine(SlotFor(wait))), settings, events, SlotFor(wait));
      t.dropped == 0 && t.pruned == 0
    ensures var after := Next(db, settings, Examine(SlotFor(wait)));
      && ActionOn(db, settings, SlotFor(wait)).Emit?
      && var standIn := ActionOn(db, settings, SlotFor(wait)).reply;
         && standIn.header == HeaderOf(wait) && standIn in Stream(after.ctrl, CallersStream(db, wait))
         && SaysWhatBecameOf(db, wait, standIn)
         && (Deliver(standIn) in events ==> AllowedCopies(after, settings, events, HeaderOf(wait)) == 1)
  {
    hide EncodeMember, DecodeMember, Triage, AllowedCopies, TallyOf, CandidateMembers, Owed, SaysWhatBecameOf;
    hide CallersStream;
    var slot := SlotFor(wait);
    var after := Next(db, settings, Examine(slot));
    RoundTrip(wait);
    StandInIffOwed(db, settings, slot, db.index[slot]);
    StandInSays(db, settings, slot, db.index[slot]);
    ExaminationSafety(db, settings, slot, db.index[slot]);
    var standIn := ActionOn(db, settings, slot).reply;
    ChildNamed(db, settings, wait);
    forall e | e in events && e.Register?
      ensures EncodeMember(e.wait) != MemberFromResume(HeaderOf(wait))
    {
      if EncodeMember(e.wait) == EncodeMember(wait) {
        EncodeInjective(e.wait, wait);
      }
    }
    WokenExactlyOnce(after, settings, events, HeaderOf(wait));
    if Deliver(standIn) in events {
      CopiesCounted(events, Deliver(standIn), HeaderOf(wait));
    }
  }

  /** At every moment of the run the caller and its callee are suspended and no group has settled the wait. */
  ghost predicate CalleeSleepsOn(db: Db, settings: Settings, events: seq<Event>, wait: Member)
    decreases |events|
  {
    && CalleeDecides(db, wait) && Suspended(db, wait.sessionId, wait.childMessageId)
    && (events != [] ==> CalleeSleepsOn(Next(db, settings, events[0]), settings, events[1..], wait))
  }

  /**
   A wait for a callee that is itself suspended is kept: however often it comes
   due, it is never dropped and never answered in the callee's place, so it is
   still there when the callee replies or is lost.
   */
  lemma {:induction false} KeptWhileCalleeSleeps(db: Db, settings: Settings, events: seq<Event>, wait: Member)
    requires SlotFor(wait) in db.index && CalleeSleepsOn(db, settings, events, wait)
    requires var t := TallyOf(db, settings, events, SlotFor(wait)); t.claimed == 0 && t.pruned == 0
    ensures SlotFor(wait) in Run(db, settings, events).index
    ensures TallyOf(db, settings, events, SlotFor(wait)).dropped == 0
    ensures !ActionOn(Run(db, settings, events), settings, SlotFor(wait)).Emit?
    decreases |events|
  {
    hide Next, Claims, Drops, Prunes, Renews, EncodeMember, Triage, CalleeDecides, Suspended;
    RenewedForSleeper(db, settings, wait);
    if events != [] {
      SlotStep(db, settings, events[0], SlotFor(wait));
      KeptWhileCalleeSleeps(Next(db, settings, events[0]), settings, events[1..], wait);
    }
  }

  lemma RenewedForSleeper(db: Db, settings: Settings, wait: Member)
    requires SlotFor(wait) in db.index && CalleeDecides(db, wait)
    requires Suspended(db, wait.sessionId, wait.childMessageId)
    ensures ActionOn(db, settings, SlotFor(wait)).RenewEntry?
    ensures forall e :: !Drops(db, settings, e, SlotFor(wait))
  {
    hide EncodeMember, DecodeMember, Triage, Suspended, CalleeDecides;
    RoundTrip(wait);
    RenewedIff(db, settings, SlotFor(wait), db.index[SlotFor(wait)]);
  }

  lemma ChildNamed(db: Db, settings: Settings, wait: Member)
    requires SlotFor(wait) in db.index && Owed(db, settings, SlotFor(wait), db.index[SlotFor(wait)])
    ensures wait.childMessageId != ""
  {
    hide EncodeMember, DecodeMember, Abandoned, Routable, GroupAwaits, CallerSuspended;
    RoundTrip(wait);
  }

  lemma {:induction false} CopiesCounted(events: seq<Event>, e: Event, h: Header)
    requires e in events && IsCopy(e, h)
    ensures Copies(events, h) > 0
  {
    if events[0] != e {
      CopiesCounted(events[1..], e, h);
    }
  }
}
