/**
 The Redis data the liveness protocol works on, as a value (Db) and as the
 object the protocol's methods update, one method a command (Redis).
 Markers and renewal origins are keyed by the member itself, of which the
 program's keys hold a digest; a session's execution records are keyed by
 (session id, message id), the composition of the two hash lookups.
 */
module WaitStore {
  import opened Wrappers
  import opened WaitIndex

  const DEFAULT_REPLY_TIMEOUT_MS := 3_600_000
  const WAIT_RENEW_INCREMENT_MS := 300_000
  const WAIT_SWEEP_BATCH_LIMIT := 200
  const DEFAULT_SESSION_TTL := 604_800
  const WAIT_PRUNE_AFTER_MS := (DEFAULT_SESSION_TTL + 86_400) * 1000
  const DEFAULT_ASK_USER_TIMEOUT_MS := DEFAULT_SESSION_TTL * 1000

  datatype Slot = Slot(shard: nat, member: string)

  datatype Execution = Execution(status: string, workerId: string, sourceAgentType: string,
                                 targetAgentType: string, createdAt: int, cancelRequested: bool)

  datatype Group = Group(total: int, completed: int, aborted: bool)

  datatype StoredResult = StoredResult(status: string, content: string)

  datatype Payload = FailurePayload(errorCode: string, childMessageId: string) | ResultPayload(content: string)

  datatype Reply = Reply(header: Header, sourceAgentType: string, targetAgentType: string,
                         status: string, errorCode: string, payload: Payload, synthesizedBy: string)

  /** A task command put on a control stream. */
  datatype Ask = Ask(stream: string, messageId: string,
                     parentMessageId: string, taskGroupId: string, waitForReply: bool)

  datatype Db = Db(
    index: map<Slot, int>,
    consumed: set<string>,
    origins: map<string, int>,
    executions: map<(string, string), Execution>,
    online: set<string>,
    groups: map<string, Group>,
    results: map<(string, string), StoredResult>,
    ctrl: map<string, seq<Reply>>,
    asks: seq<Ask>,
    now: int)

  /** The slot a member of this session lives in. */
  function SlotOf(sessionId: string, member: string): Slot {
    Slot(ShardOf(sessionId), member)
  }

  function FindExecution(db: Db, sessionId: string, messageId: string): Option<Execution> {
    if sessionId == "" || (sessionId, messageId) !in db.executions then None
    else Some(db.executions[(sessionId, messageId)])
  }

  function Stream(ctrl: map<string, seq<Reply>>, agentType: string): seq<Reply> {
    if agentType in ctrl then ctrl[agentType] else []
  }

  function Appended(ctrl: map<string, seq<Reply>>, reply: Reply): map<string, seq<Reply>> {
    ctrl[reply.targetAgentType := Stream(ctrl, reply.targetAgentType) + [reply]]
  }

  function AllAppended(ctrl: map<string, seq<Reply>>, replies: seq<Reply>): map<string, seq<Reply>> {
    if replies == [] then ctrl else Appended(AllAppended(ctrl, replies[..|replies| - 1]), replies[|replies| - 1])
  }

  /** The entries of one shard whose score lies in [0, upTo]. */
  function InScoreRange(index: map<Slot, int>, shard: nat, upTo: int): set<Slot> {
    set slot | slot in index && slot.shard == shard && 0 <= index[slot] <= upTo
  }

  /** The order of a sorted set: by score, ties by member. */
  predicate LexLess(a: string, b: string) {
    b != "" && (a == "" || a[0] < b[0] || (a[0] == b[0] && LexLess(a[1..], b[1..])))
  }

  predicate Precedes(index: map<Slot, int>, a: Slot, b: Slot)
    requires a in index && b in index
  {
    index[a] < index[b] || (index[a] == index[b] && LexLess(a.member, b.member))
  }

  lemma {:induction false} LexOrder(a: string, b: string, c: string)
    ensures !LexLess(a, a)
    ensures a == b || LexLess(a, b) || LexLess(b, a)
    ensures LexLess(a, b) && LexLess(b, c) ==> LexLess(a, c)
  {
    if a != "" && b != "" {
      assert a == [a[0]] + a[1..] && b == [b[0]] + b[1..];
      LexOrder(a[1..], b[1..], if c == "" then c else c[1..]);
    } else if a != "" {
      LexOrder(a[1..], b, c);
    }
  }

  /** The answer of ZRANGEBYSCORE 0 upTo LIMIT 0 limit: the first due slots of the sorted set, in order. */
  ghost predicate IsRange(index: map<Slot, int>, shard: nat, upTo: int, limit: nat, batch: seq<Slot>) {
    var due := InScoreRange(index, shard, upTo);
    && (forall i :: 0 <= i < |batch| ==> batch[i] in due)
    && (forall i, j :: 0 <= i < j < |batch| ==> batch[i] != batch[j])
    && |batch| <= limit
    && (|batch| < limit ==> forall slot :: slot in due ==> slot in batch)
    && (forall i, j :: 0 <= i < j < |batch| ==> Precedes(index, batch[i], batch[j]))
    && (forall i, slot :: 0 <= i < |batch| && slot in due && slot !in batch ==> Precedes(index, batch[i], slot))
  }

  /**
   A batch is the oldest due entries first: nothing it leaves is older than
   anything it takes, and it leaves nothing due unless it is full.
   */
  lemma BatchIsOldestDue(index: map<Slot, int>, shard: nat, upTo: int, limit: nat, batch: seq<Slot>)
    requires IsRange(index, shard, upTo, limit, batch)
    ensures |batch| <= limit
    ensures forall i :: 0 <= i < |batch| ==>
              batch[i] in index && batch[i].shard == shard && 0 <= index[batch[i]] <= upTo
    ensures forall i, j :: 0 <= i < j < |batch| ==> index[batch[i]] <= index[batch[j]]
    ensures forall slot :: slot in index && slot.shard == shard && 0 <= index[slot] <= upTo && slot !in batch ==>
              |batch| == limit && forall i :: 0 <= i < |batch| ==> index[batch[i]] <= index[slot]
  {
  }

  // ---------------------------------------------------------------- statuses

  predicate IsTerminal(status: string) {
    status == "COMPLETED" || status == "FAILED" || status == "CANCELLED"
  }

  predicate IsSuspended(status: string) {
    status == "WAITING_AGENT" || status == "WAITING_USER"
  }

  lemma SuspendedIsNotTerminal(status: string)
    requires IsSuspended(status)
    ensures !IsTerminal(status)
  {
    assert status[0] == 'W';
  }

  predicate IsSpace(c: char) {
    c == ' ' || c == '\t' || c == '\n' || c == '\r'
  }

  function UpToColon(s: string): string {
    if s == "" || s[0] == ':' then "" else [s[0]] + UpToColon(s[1..])
  }

  function Strip(s: string): string
    decreases |s|
  {
    if s == "" then ""
    else if IsSpace(s[0]) then Strip(s[1..])
    else if IsSpace(s[|s| - 1]) then Strip(s[..|s| - 1])
    else s
  }

  /** A status without its ": reason" decoration. */
  function BaseStatus(status: string): string {
    Strip(UpToColon(status))
  }

  predicate Plain(status: string) {
    && ':' !in status
    && (status != "" ==> !IsSpace(status[0]) && !IsSpace(status[|status| - 1]))
  }

  lemma {:induction false} UpToFirstColon(s: string, rest: string)
    requires ':' !in s
    ensures UpToColon(s) == s && UpToColon(s + ":" + rest) == s
  {
    if s != "" {
      UpToFirstColon(s[1..], rest);
      assert (s + ":" + rest)[1..] == s[1..] + ":" + rest;
    } else {
      assert s + ":" + rest == ":" + rest;
    }
  }

  predicate Blank(s: string) { forall c :: c in s ==> IsSpace(c) }

  lemma {:induction false} StripsInFront(before: string, rest: string)
    requires Blank(before)
    ensures Strip(before + rest) == Strip(rest)
  {
    if before != "" {
      StripsInFront(before[1..], rest);
      assert (before + rest)[1..] == before[1..] + rest;
    } else {
      assert before + rest == rest;
    }
  }

  lemma {:induction false} StripsBehind(status: string, after: string)
    requires Plain(status) && status != "" && Blank(after)
    ensures Strip(status + after) == status
  {
    if after != "" {
      var s, n := status + after, |after| - 1;
      StripsBehind(status, after[..n]);
      assert s[..|s| - 1] == status + after[..n] && s[|s| - 1] == after[n];
    } else {
      assert status + after == status;
    }
  }

  lemma StripsBlanks(before: string, status: string, after: string)
    requires Plain(status) && Blank(before) && Blank(after)
    ensures Strip(before + status + after) == status
  {
    hide Strip, Plain, Blank;
    assert before + status + after == before + (status + after);
    StripsInFront(before, status + after);
    if status != "" {
      StripsBehind(status, after);
    } else {
      StripsInFront(after, "");
      assert status + after == after + "";
      assert Strip("") == "" by { StripsNothing(); }
    }
  }

  lemma StripsNothing()
    ensures Strip("") == ""
  {
  }

  /** A status is read without the blanks around it and without what follows a colon. */
  lemma PlainStatus(before: string, status: string, after: string, reason: string)
    requires Plain(status) && Blank(before) && Blank(after)
    ensures BaseStatus(before + status + after) == status
    ensures BaseStatus(before + status + after + ":" + reason) == status
    ensures BaseStatus(status) == status
  {
    var text := before + status + after;
    forall c | c in text ensures c != ':' {}
    UpToFirstColon(text, reason);
    UpToFirstColon(status, reason);
    StripsBlanks(before, status, after);
    StripsBlanks("", status, "");
    assert "" + status + "" == status;
  }

  // ---------------------------------------------------------------- commands

  class Redis {
    var index: map<Slot, int>
    var consumed: set<string>
    var origins: map<string, int>
    var executions: map<(string, string), Execution>
    var online: set<string>
    var groups: map<string, Group>
    var results: map<(string, string), StoredResult>
    var ctrl: map<string, seq<Reply>>
    var asks: seq<Ask>
    var now: int

    ghost function State(): Db
      reads this
    {
      Db(index, consumed, origins, executions, online, groups, results, ctrl, asks, now)
    }

    method ZAdd(slot: Slot, score: int)
      modifies this`index
      ensures State() == old(State()).(index := old(index)[slot := score])
    {
      index := index[slot := score];
    }

    method ZRem(slot: Slot) returns (removed: nat)
      modifies this`index
      ensures State() == old(State()).(index := old(index) - {slot})
      ensures removed == if slot in old(index) then 1 else 0
    {
      removed := if slot in index then 1 else 0;
      index := index - {slot};
    }

    method ZRemRangeByScore(shard: nat, upTo: int) returns (removed: nat)
      modifies this`index
      ensures State() == old(State()).(index := old(index) - InScoreRange(old(index), shard, upTo))
      ensures removed == |InScoreRange(old(index), shard, upTo)|
    {
      var range := InScoreRange(index, shard, upTo);
      removed := |range|;
      index := index - range;
    }

    method ZRangeByScore(shard: nat, upTo: int, limit: nat) returns (batch: seq<Slot>)
      ensures IsRange(index, shard, upTo, limit, batch)
    {
      batch := [];
      ghost var due := InScoreRange(index, shard, upTo);
      var rest := InScoreRange(index, shard, upTo);
      while rest != {} && |batch| < limit
        invariant rest <= due && forall slot :: slot in due <==> slot in rest || slot in batch
        invariant forall i :: 0 <= i < |batch| ==> batch[i] !in rest
        invariant forall i, j :: 0 <= i < j < |batch| ==> batch[i] != batch[j]
        invariant |batch| <= limit
        invariant forall i, j :: 0 <= i < j < |batch| ==> Precedes(index, batch[i], batch[j])
        invariant forall i, slot :: 0 <= i < |batch| && slot in rest ==> Precedes(index, batch[i], slot)
        decreases rest
      {
        FirstSlot(index, rest);
        var next :| next in rest && forall slot :: slot in rest && slot != next ==> Precedes(index, next, slot);
        batch := batch + [next];
        rest := rest - {next};
      }
    }

    method MarkConsumed(member: string)
      modifies this`consumed
      ensures State() == old(State()).(consumed := old(consumed) + {member})
    {
      consumed := consumed + {member};
    }

    method ClearConsumed(member: string)
      modifies this`consumed
      ensures State() == old(State()).(consumed := old(consumed) - {member})
    {
      consumed := consumed - {member};
    }

    method SetOriginIfAbsent(member: string, deadlineMs: int)
      modifies this`origins
      ensures State() == old(State()).(origins :=
                if member in old(origins) then old(origins) else old(origins)[member := deadlineMs])
    {
      if member !in origins {
        origins := origins[member := deadlineMs];
      }
    }

    method XAdd(reply: Reply)
      modifies this`ctrl
      ensures State() == old(State()).(ctrl := Appended(old(ctrl), reply))
    {
      ctrl := Appended(ctrl, reply);
    }

    method XAddTask(ask: Ask)
      modifies this`asks
      ensures State() == old(State()).(asks := old(asks) + [ask])
    {
      asks := asks + [ask];
    }

    method HSetExecution(sessionId: string, messageId: string, execution: Execution)
      modifies this`executions
      ensures State() == old(State()).(executions := old(executions)[(sessionId, messageId) := execution])
    {
      executions := executions[(sessionId, messageId) := execution];
    }

    method HSetGroup(groupId: string, group: Group)
      modifies this`groups
      ensures State() == old(State()).(groups := old(groups)[groupId := group])
    {
      groups := groups[groupId := group];
    }

    method HSetResult(groupId: string, childMessageId: string, stored: StoredResult)
      modifies this`results
      ensures State() == old(State()).(results := old(results)[(groupId, childMessageId) := stored])
    {
      results := results[(groupId, childMessageId) := stored];
    }
  }

  /** A non-empty part of one shard has a first slot. */
  lemma {:induction false} FirstSlot(index: map<Slot, int>, slots: set<Slot>)
    requires slots != {} && slots <= index.Keys
    requires forall a, b :: a in slots && b in slots ==> a.shard == b.shard
    ensures exists first ::
              first in slots && forall slot :: slot in slots && slot != first ==> Precedes(index, first, slot)
    decreases slots
  {
    var any :| any in slots;
    var others := slots - {any};
    if others == {} {
      assert slots == {any};
    } else {
      FirstSlot(index, others);
      var low :| low in others && forall slot :: slot in others && slot != low ==> Precedes(index, low, slot);
      LexOrder(any.member, low.member, "");
      assert any != low && any == Slot(any.shard, any.member) && low == Slot(low.shard, low.member);
      assert Precedes(index, any, low) || Precedes(index, low, any);
      var first := if Precedes(index, any, low) then any else low;
      forall slot | slot in slots && slot != first
        ensures Precedes(index, first, slot)
      {
        if slot != any && slot != low {
          assert Precedes(index, low, slot);
          LexOrder(any.member, low.member, slot.member);
        }
      }
      assert first in slots;
    }
  }
}
