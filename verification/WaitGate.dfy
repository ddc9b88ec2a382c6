/** The idempotency gate: decides which copy of a reply resumes a suspended caller. */
module WaitGate {
  import opened Wrappers
  import opened WaitIndex
  import opened WaitStore

  datatype Decision = Claimed(member: string) | Unregistered | AlreadyConsumed(member: string) {
    predicate Allowed() { !AlreadyConsumed? }
  }

  function AskUserMember(h: Header): string {
    EncodeMember(Member(h.sessionId, h.messageId, "", ""))
  }

  /** The members a reply may be clearing, its own first. */
  function CandidateMembers(h: Header): (members: seq<string>)
    ensures 1 <= |members| <= 2 && members[0] == MemberFromResume(h)
  {
    var own := MemberFromResume(h);
    if h.taskGroupId == "" && AskUserMember(h) != own then [own, AskUserMember(h)] else [own]
  }

  /** A candidate settles the decision when its entry is live or its marker is set. */
  predicate Settles(db: Db, sessionId: string, member: string) {
    SlotOf(sessionId, member) in db.index || member in db.consumed
  }

  /** The first candidate that settles the decision settles it alone. */
  function DecideAmong(db: Db, sessionId: string, members: seq<string>): Decision {
    if members == [] then Unregistered
    else if !Settles(db, sessionId, members[0]) then DecideAmong(db, sessionId, members[1..])
    else if SlotOf(sessionId, members[0]) in db.index then Claimed(members[0])
    else AlreadyConsumed(members[0])
  }

  function Decide(db: Db, h: Header): Decision {
    DecideAmong(db, h.sessionId, CandidateMembers(h))
  }

  /** A claim moves the entry from the index to the markers; every other decision changes nothing. */
  function AfterGate(db: Db, h: Header): Db {
    match Decide(db, h)
    case Claimed(member) =>
      db.(index := db.index - {SlotOf(h.sessionId, member)}, consumed := db.consumed + {member})
    case _ => db
  }

  method ConsumeWaitEntry(redis: Redis, h: Header) returns (decision: Decision)
    modifies redis`index, redis`consumed
    ensures decision == Decide(old(redis.State()), h)
    ensures redis.State() == AfterGate(old(redis.State()), h)
  {
    var members := CandidateMembers(h);
    assert members[0..] == members;
    for i := 0 to |members|
      invariant redis.State() == old(redis.State())
      invariant DecideAmong(redis.State(), h.sessionId, members[i..]) == Decide(old(redis.State()), h)
    {
      ghost var before := redis.State();
      assert members[i..][1..] == members[i + 1..];
      var removed := redis.ZRem(SlotOf(h.sessionId, members[i]));
      if removed > 0 {
        redis.MarkConsumed(members[i]);
        return Claimed(members[i]);
      }
      assert before.index - {SlotOf(h.sessionId, members[i])} == before.index;
      if members[i] in redis.consumed {
        return AlreadyConsumed(members[i]);
      }
    }
    return Unregistered;
  }

  /** Two candidates, and the ask_user entry goes exactly when the reply's own member left no trace. */
  lemma AskUserCleared(db: Db, h: Header)
    requires h.parentMessageId != ""
    ensures Decide(db, h) == Claimed(AskUserMember(h))
       <==> h.taskGroupId == "" && SlotOf(h.sessionId, AskUserMember(h)) in db.index
            && !Settles(db, h.sessionId, MemberFromResume(h))
  {
    var own, ask := MemberFromResume(h), AskUserMember(h);
    if own == ask {
      EncodeInjective(Member(h.sessionId, h.messageId, h.parentMessageId, h.taskGroupId),
                      Member(h.sessionId, h.messageId, "", ""));
    }
    var rest := CandidateMembers(h)[1..];
    assert rest == if h.taskGroupId == "" then [ask] else [];
    assert DecideAmong(db, h.sessionId, rest)
        == if rest == [] || !Settles(db, h.sessionId, ask) then Unregistered
           else if SlotOf(h.sessionId, ask) in db.index then Claimed(ask) else AlreadyConsumed(ask);
  }

  /** No decision but a claim, and a claim of one of the reply's own candidates, changes the store. */
  lemma {:induction false} DecideAmongIsCandidate(db: Db, sessionId: string, members: seq<string>)
    ensures match DecideAmong(db, sessionId, members)
            case Claimed(m) => m in members && SlotOf(sessionId, m) in db.index
            case AlreadyConsumed(m) => m in members && SlotOf(sessionId, m) !in db.index && m in db.consumed
            case Unregistered => forall m :: m in members ==> !Settles(db, sessionId, m)
  {
    if members != [] && !Settles(db, sessionId, members[0]) {
      DecideAmongIsCandidate(db, sessionId, members[1..]);
    }
  }
}
