/** Releases the pending deliveries of one execution, highest priority first, arrival order among equals. */
module DeliveryGate {
  import opened Availability

  /** The slice one XREAD returns: up to count entries after the given position. */
  function ReadAfter(pending: seq<PendingDelivery>, lastId: nat, count: nat): seq<PendingDelivery> {
    var rest := if lastId <= |pending| then pending[lastId..] else [];
    if count <= |rest| then rest[..count] else rest
  }

  function Matching(entries: seq<PendingDelivery>, executionId: string): seq<PendingDelivery> {
    if entries == [] then []
    else
      var before, last := Matching(entries[..|entries| - 1], executionId), entries[|entries| - 1];
      if last.executionId == executionId then before + [last] else before
  }

  /** What matches is what of each part matches, in the order of arrival. */
  lemma {:induction false} MatchingInOrder(first: seq<PendingDelivery>, more: seq<PendingDelivery>, executionId: string)
    ensures Matching(first + more, executionId) == Matching(first, executionId) + Matching(more, executionId)
  {
    if more == [] {
      assert first + more == first;
    } else {
      var n, all := |more| - 1, first + more;
      MatchingInOrder(first, more[..n], executionId);
      assert all[..|all| - 1] == first + more[..n] && all[|all| - 1] == more[n];
      OneMoreMatch(all, executionId);
      OneMoreMatch(more, executionId);
    }
  }

  lemma OneMoreMatch(entries: seq<PendingDelivery>, executionId: string)
    requires entries != []
    ensures var last := entries[|entries| - 1];
      Matching(entries, executionId)
      == Matching(entries[..|entries| - 1], executionId) + if last.executionId == executionId then [last] else []
  {
  }

  function WithPriority(entries: seq<PendingDelivery>, priority: int): seq<PendingDelivery> {
    if entries == [] then []
    else (if entries[0].priority == priority then [entries[0]] else []) + WithPriority(entries[1..], priority)
  }

  predicate Descending(entries: seq<PendingDelivery>) {
    forall i, j :: 0 <= i < j < |entries| ==> entries[i].priority >= entries[j].priority
  }

  /** Insertion behind every entry of the same or a higher priority. */
  function InsertByPriority(sorted: seq<PendingDelivery>, d: PendingDelivery): seq<PendingDelivery> {
    if sorted != [] && sorted[0].priority >= d.priority
    then [sorted[0]] + InsertByPriority(sorted[1..], d)
    else [d] + sorted
  }

  function SortedByPriority(entries: seq<PendingDelivery>): seq<PendingDelivery> {
    if entries == [] then []
    else InsertByPriority(SortedByPriority(entries[..|entries| - 1]), entries[|entries| - 1])
  }

  lemma {:induction false} InsertPermutes(sorted: seq<PendingDelivery>, d: PendingDelivery)
    ensures multiset(InsertByPriority(sorted, d)) == multiset(sorted) + multiset{d}
  {
    if sorted != [] && sorted[0].priority >= d.priority {
      InsertPermutes(sorted[1..], d);
      assert sorted == [sorted[0]] + sorted[1..];
    }
  }

  lemma {:induction false} InsertDescends(sorted: seq<PendingDelivery>, d: PendingDelivery)
    requires Descending(sorted)
    ensures Descending(InsertByPriority(sorted, d))
  {
    if sorted != [] && sorted[0].priority >= d.priority {
      InsertDescends(sorted[1..], d);
      InsertPermutes(sorted[1..], d);
      var tail := InsertByPriority(sorted[1..], d);
      forall j | 0 <= j < |tail| ensures sorted[0].priority >= tail[j].priority {
        assert tail[j] in multiset(tail);
      }
    }
  }

  lemma {:induction false} InsertKeepsOrder(sorted: seq<PendingDelivery>, d: PendingDelivery, priority: int)
    requires Descending(sorted)
    ensures WithPriority(InsertByPriority(sorted, d), priority)
         == WithPriority(sorted, priority) + if d.priority == priority then [d] else []
  {
    if sorted != [] && sorted[0].priority >= d.priority {
      InsertKeepsOrder(sorted[1..], d, priority);
      assert ([sorted[0]] + InsertByPriority(sorted[1..], d))[1..] == InsertByPriority(sorted[1..], d);
    } else {
      assert ([d] + sorted)[1..] == sorted;
      if d.priority == priority {
        NoneAbove(sorted, priority, d);
      }
    }
  }

  /** Nothing of that priority follows the place where an entry of it is inserted in front. */
  lemma {:induction false} NoneAbove(sorted: seq<PendingDelivery>, priority: int, d: PendingDelivery)
    requires Descending(sorted) && (sorted == [] || sorted[0].priority < priority)
    ensures WithPriority(sorted, priority) == []
  {
    if sorted != [] {
      assert sorted[1..] == [] || sorted[1].priority < priority;
      NoneAbove(sorted[1..], priority, d);
    }
  }

  lemma {:induction false} WithPriorityAppend(entries: seq<PendingDelivery>, d: PendingDelivery, priority: int)
    ensures WithPriority(entries + [d], priority)
         == WithPriority(entries, priority) + if d.priority == priority then [d] else []
  {
    if entries == [] {
      assert entries + [d] == [d];
    } else {
      var tail, all := entries[1..], entries + [d];
      var head := if entries[0].priority == priority then [entries[0]] else [];
      var last := if d.priority == priority then [d] else [];
      WithPriorityAppend(tail, d, priority);
      assert all[0] == entries[0] && all[1..] == tail + [d];
      assert WithPriority(all, priority) == head + WithPriority(tail + [d], priority);
      assert WithPriority(entries, priority) == head + WithPriority(tail, priority);
      assert head + (WithPriority(tail, priority) + last) == (head + WithPriority(tail, priority)) + last;
    }
  }

  /** The sort is descending, a permutation, and keeps the arrival order of every priority. */
  lemma {:induction false} SortIsStable(entries: seq<PendingDelivery>, priority: int)
    ensures Descending(SortedByPriority(entries))
    ensures multiset(SortedByPriority(entries)) == multiset(entries)
    ensures WithPriority(SortedByPriority(entries), priority) == WithPriority(entries, priority)
  {
    if entries != [] {
      var before, last := entries[..|entries| - 1], entries[|entries| - 1];
      assert entries == before + [last];
      SortIsStable(before, priority);
      InsertPermutes(SortedByPriority(before), last);
      InsertDescends(SortedByPriority(before), last);
      InsertKeepsOrder(SortedByPriority(before), last, priority);
      WithPriorityAppend(before, last, priority);
    }
  }

  function AppendEach(commands: map<StreamName, seq<string>>,
                      deliveries: seq<PendingDelivery>): map<StreamName, seq<string>> {
    if deliveries == [] then commands
    else
      var before, d := AppendEach(commands, deliveries[..|deliveries| - 1]), deliveries[|deliveries| - 1];
      before[d.stream := (if d.stream in before then before[d.stream] else []) + [d.command]]
  }

  method DispatchReady(streams: Streams, executionId: string, lastId: nat, count: nat) returns (dispatched: nat)
    modifies streams`commands
    ensures var released := SortedByPriority(Matching(ReadAfter(streams.pending, lastId, count), executionId));
      streams.commands == AppendEach(old(streams.commands), released) && dispatched == |released|
  {
    var entries := ReadAfter(streams.pending, lastId, count);
    var deliveries: seq<PendingDelivery> := [];
    for i := 0 to |entries|
      invariant deliveries == Matching(entries[..i], executionId)
    {
      assert entries[..i + 1][..i] == entries[..i];
      if entries[i].executionId == executionId {
        deliveries := deliveries + [entries[i]];
      }
    }
    assert entries[..|entries|] == entries;
    var released := SortedByPriority(deliveries);
    dispatched := 0;
    for i := 0 to |released|
      invariant dispatched == i && streams.commands == AppendEach(old(streams.commands), released[..i])
    {
      assert released[..i + 1][..i] == released[..i];
      streams.XAdd(released[i].stream, released[i].command);
      dispatched := dispatched + 1;
    }
    assert released[..|released|] == released;
  }

  function On(commands: map<StreamName, seq<string>>, name: StreamName): seq<string> {
    if name in commands then commands[name] else []
  }

  function CommandsFor(deliveries: seq<PendingDelivery>, name: StreamName): seq<string> {
    if deliveries == [] then []
    else
      var before, d := CommandsFor(deliveries[..|deliveries| - 1], name), deliveries[|deliveries| - 1];
      if d.stream == name then before + [d.command] else before
  }

  /** Every stream receives exactly its own released commands, behind what it held, in the released order. */
  lemma {:induction false} EachStreamGetsItsOwn(commands: map<StreamName, seq<string>>,
                                                deliveries: seq<PendingDelivery>, name: StreamName)
    ensures On(AppendEach(commands, deliveries), name) == On(commands, name) + CommandsFor(deliveries, name)
  {
    if deliveries != [] {
      EachStreamGetsItsOwn(commands, deliveries[..|deliveries| - 1], name);
    }
  }

  // ---------------------------------------------------------------- any sequence of releases

  /** One call of the gate, made when the pending stream held its first `seen` entries. */
  datatype Release = Release(executionId: string, lastId: nat, count: nat, seen: nat)

  function ReleasedBy(pending: seq<PendingDelivery>, call: Release): seq<PendingDelivery>
    requires call.seen <= |pending|
  {
    SortedByPriority(Matching(ReadAfter(pending[..call.seen], call.lastId, call.count), call.executionId))
  }

  /** The call releases the k-th pending entry: it asks for its execution and its slice reaches it. */
  predicate Covers(pending: seq<PendingDelivery>, call: Release, k: nat) {
    k < |pending| && call.executionId == pending[k].executionId
    && call.lastId <= k < call.lastId + call.count && k < call.seen
  }

  /** Some kind of delivery: equal ones, or ones that put a command on a stream. */
  datatype Kind = Equal(d: PendingDelivery) | Placing(command: string, stream: StreamName) {
    predicate Holds(d: PendingDelivery) {
      match this
      case Equal(other) => d == other
      case Placing(command, stream) => d.command == command && d.stream == stream
    }
  }

  function HowMany(deliveries: seq<PendingDelivery>, kind: Kind): nat {
    if deliveries == [] then 0
    else
      HowMany(deliveries[..|deliveries| - 1], kind) + if kind.Holds(deliveries[|deliveries| - 1]) then 1 else 0
  }

  /** How many of the first n pending entries are of the kind and covered by the call. */
  function Covered(pending: seq<PendingDelivery>, call: Release, kind: Kind, n: nat): nat
    requires n <= |pending|
  {
    if n == 0 then 0
    else
      Covered(pending, call, kind, n - 1)
      + if Covers(pending, call, n - 1) && kind.Holds(pending[n - 1]) then 1 else 0
  }

  /** How often calls cover an entry of the kind, entry by entry and call by call. */
  function Coverings(pending: seq<PendingDelivery>, calls: seq<Release>, kind: Kind): nat {
    if calls == [] then 0
    else
      Coverings(pending, calls[..|calls| - 1], kind) + Covered(pending, calls[|calls| - 1], kind, |pending|)
  }

  /** The streams after the calls, each as DispatchReady leaves them. */
  function AfterReleases(commands: map<StreamName, seq<string>>, pending: seq<PendingDelivery>, calls: seq<Release>)
    : map<StreamName, seq<string>>
    requires forall call :: call in calls ==> call.seen <= |pending|
  {
    if calls == [] then commands
    else AppendEach(AfterReleases(commands, pending, calls[..|calls| - 1]), ReleasedBy(pending, calls[|calls| - 1]))
  }

  lemma {:induction false} HowManyJoined(a: seq<PendingDelivery>, b: seq<PendingDelivery>, kind: Kind)
    ensures HowMany(a + b, kind) == HowMany(a, kind) + HowMany(b, kind)
  {
    if b == [] {
      assert a + b == a;
    } else {
      assert (a + b)[..|a + b| - 1] == a + b[..|b| - 1];
      HowManyJoined(a, b[..|b| - 1], kind);
    }
  }

  lemma HowManyOfOne(d: PendingDelivery, kind: Kind)
    ensures HowMany([d], kind) == if kind.Holds(d) then 1 else 0
  {
    assert [d][..0] == [];
    assert HowMany([d], kind) == HowMany([d][..0], kind) + if kind.Holds(d) then 1 else 0;
  }

  lemma {:induction false} InsertCounts(sorted: seq<PendingDelivery>, d: PendingDelivery, kind: Kind)
    ensures HowMany(InsertByPriority(sorted, d), kind) == HowMany(sorted, kind) + if kind.Holds(d) then 1 else 0
  {
    HowManyOfOne(d, kind);
    if sorted != [] && sorted[0].priority >= d.priority {
      InsertCounts(sorted[1..], d, kind);
      HowManyJoined([sorted[0]], InsertByPriority(sorted[1..], d), kind);
      HowManyJoined([sorted[0]], sorted[1..], kind);
      assert sorted == [sorted[0]] + sorted[1..];
    } else {
      HowManyJoined([d], sorted, kind);
    }
  }

  lemma {:induction false} SortCounts(entries: seq<PendingDelivery>, kind: Kind)
    ensures HowMany(SortedByPriority(entries), kind) == HowMany(entries, kind)
  {
    if entries != [] {
      SortCounts(entries[..|entries| - 1], kind);
      InsertCounts(SortedByPriority(entries[..|entries| - 1]), entries[|entries| - 1], kind);
    }
  }

  function SliceStart(call: Release): nat { if call.lastId <= call.seen then call.lastId else call.seen }

  function SliceEnd(call: Release): nat {
    if call.lastId + call.count <= call.seen then call.lastId + call.count else call.seen
  }

  lemma SliceRead(pending: seq<PendingDelivery>, call: Release)
    requires call.seen <= |pending|
    ensures SliceStart(call) <= SliceEnd(call)
    ensures ReadAfter(pending[..call.seen], call.lastId, call.count) == pending[SliceStart(call)..SliceEnd(call)]
  {
    if call.lastId <= call.seen {
      assert pending[..call.seen][call.lastId..] == pending[call.lastId..call.seen];
      if call.lastId + call.count <= call.seen {
        assert pending[call.lastId..call.seen][..call.count] == pending[call.lastId..call.lastId + call.count];
      }
    } else {
      assert pending[call.seen..call.seen] == [];
    }
  }

  /** Of the first n pending entries, what the call matches in its slice is what it covers. */
  lemma {:induction false} SliceCounts(pending: seq<PendingDelivery>, call: Release, kind: Kind, n: nat)
    requires n <= call.seen <= |pending| && SliceStart(call) <= n <= SliceEnd(call)
    ensures HowMany(Matching(pending[SliceStart(call)..n], call.executionId), kind) == Covered(pending, call, kind, n)
  {
    var entries := pending[SliceStart(call)..n];
    if n > SliceStart(call) {
      assert entries[..|entries| - 1] == pending[SliceStart(call)..n - 1];
      assert entries[|entries| - 1] == pending[n - 1];
      SliceCounts(pending, call, kind, n - 1);
      MatchOneMore(entries, call.executionId, kind);
    } else {
      assert entries == [];
      NothingBefore(pending, call, kind, n);
    }
  }

  lemma MatchOneMore(entries: seq<PendingDelivery>, executionId: string, kind: Kind)
    requires entries != []
    ensures var last := entries[|entries| - 1];
      HowMany(Matching(entries, executionId), kind)
      == HowMany(Matching(entries[..|entries| - 1], executionId), kind)
         + if last.executionId == executionId && kind.Holds(last) then 1 else 0
  {
    var before, last := Matching(entries[..|entries| - 1], executionId), entries[|entries| - 1];
    assert (before + [last])[..|before|] == before;
  }

  lemma {:induction false} NothingBefore(pending: seq<PendingDelivery>, call: Release, kind: Kind, n: nat)
    requires n <= |pending| && n <= SliceStart(call)
    ensures Covered(pending, call, kind, n) == 0
  {
    if n > 0 {
      NothingBefore(pending, call, kind, n - 1);
    }
  }

  lemma {:induction false} NothingBehind(pending: seq<PendingDelivery>, call: Release, kind: Kind, n: nat)
    requires SliceStart(call) <= SliceEnd(call) <= n <= |pending|
    ensures Covered(pending, call, kind, n) == Covered(pending, call, kind, SliceEnd(call))
  {
    if n > SliceEnd(call) {
      NothingBehind(pending, call, kind, n - 1);
    }
  }

  /**
   A call releases exactly the pending entries it covers: those of its
   execution that its slice reaches, however many there are and whether or not
   they are equal. What lies behind count older entries, which nothing removes,
   is never reached.
   */
  lemma ReleasedIffRead(pending: seq<PendingDelivery>, call: Release, kind: Kind)
    requires call.seen <= |pending|
    ensures HowMany(ReleasedBy(pending, call), kind) == Covered(pending, call, kind, |pending|)
  {
    hide Matching, SortedByPriority, ReadAfter, HowMany, Covered;
    SliceRead(pending, call);
    SortCounts(Matching(ReadAfter(pending[..call.seen], call.lastId, call.count), call.executionId), kind);
    SliceCounts(pending, call, kind, SliceEnd(call));
    NothingBehind(pending, call, kind, |pending|);
  }

  lemma {:induction false} CommandCounts(deliveries: seq<PendingDelivery>, command: string, name: StreamName)
    ensures multiset(CommandsFor(deliveries, name))[command] == HowMany(deliveries, Placing(command, name))
  {
    if deliveries != [] {
      CommandCounts(deliveries[..|deliveries| - 1], command, name);
    }
  }

  /**
   Over any calls of the gate, in whatever order and over whatever slices, a
   command is put on a stream as often as calls cover a pending delivery of
   that command to that stream, summed over the deliveries.
   */
  lemma {:induction false} PlacedAsOftenAsCovered(commands: map<StreamName, seq<string>>, pending: seq<PendingDelivery>,
                                                  calls: seq<Release>, command: string, name: StreamName)
    requires forall call :: call in calls ==> call.seen <= |pending|
    ensures multiset(On(AfterReleases(commands, pending, calls), name))[command]
         == multiset(On(commands, name))[command] + Coverings(pending, calls, Placing(command, name))
  {
    hide ReleasedBy, Covered, AppendEach, CommandsFor;
    if calls != [] {
      var before, call := calls[..|calls| - 1], calls[|calls| - 1];
      PlacedAsOftenAsCovered(commands, pending, before, command, name);
      EachStreamGetsItsOwn(AfterReleases(commands, pending, before), ReleasedBy(pending, call), name);
      CommandCounts(ReleasedBy(pending, call), command, name);
      ReleasedIffRead(pending, call, Placing(command, name));
    }
  }

  /** The calls that cover one entry. */
  function CallsCovering(pending: seq<PendingDelivery>, calls: seq<Release>, k: nat): nat {
    if calls == [] then 0
    else CallsCovering(pending, calls[..|calls| - 1], k) + if Covers(pending, calls[|calls| - 1], k) then 1 else 0
  }

  /** No other pending delivery puts the same command on the same stream. */
  predicate OnlyCopy(pending: seq<PendingDelivery>, k: nat) {
    && k < |pending|
    && forall i :: 0 <= i < |pending| && i != k ==>
         pending[i].command != pending[k].command || pending[i].stream != pending[k].stream
  }

  lemma {:induction false} CoveredOnce(pending: seq<PendingDelivery>, call: Release, k: nat, n: nat)
    requires OnlyCopy(pending, k) && n <= |pending|
    ensures Covered(pending, call, Placing(pending[k].command, pending[k].stream), n)
         == if k < n && Covers(pending, call, k) then 1 else 0
  {
    if n > 0 {
      CoveredOnce(pending, call, k, n - 1);
    }
  }

  /** A delivery without a copy is placed exactly as often as calls cover it, so once exactly when exactly one does. */
  lemma {:induction false} PlacedOnceIff(commands: map<StreamName, seq<string>>, pending: seq<PendingDelivery>,
                                         calls: seq<Release>, k: nat)
    requires forall call :: call in calls ==> call.seen <= |pending|
    requires OnlyCopy(pending, k)
    ensures multiset(On(AfterReleases(commands, pending, calls), pending[k].stream))[pending[k].command]
         == multiset(On(commands, pending[k].stream))[pending[k].command] + CallsCovering(pending, calls, k)
  {
    hide Covered, Covers, AfterReleases;
    PlacedAsOftenAsCovered(commands, pending, calls, pending[k].command, pending[k].stream);
    CoveringsOnce(pending, calls, k);
  }

  lemma {:induction false} CoveringsOnce(pending: seq<PendingDelivery>, calls: seq<Release>, k: nat)
    requires OnlyCopy(pending, k)
    ensures Coverings(pending, calls, Placing(pending[k].command, pending[k].stream))
         == CallsCovering(pending, calls, k)
  {
    hide Covered, Covers;
    if calls != [] {
      CoveringsOnce(pending, calls[..|calls| - 1], k);
      CoveredOnce(pending, calls[|calls| - 1], k, |pending|);
    }
  }

  /**
   Reading the pending stream removes nothing, so a second release from the
   same position places every matching command a second time.
   */
  lemma SecondReleaseRepeats(streams: map<StreamName, seq<string>>, pending: seq<PendingDelivery>, executionId: string,
                             lastId: nat, count: nat, name: StreamName)
    ensures var released := SortedByPriority(Matching(ReadAfter(pending, lastId, count), executionId));
      On(AppendEach(AppendEach(streams, released), released), name)
      == On(streams, name) + CommandsFor(released, name) + CommandsFor(released, name)
  {
    var released := SortedByPriority(Matching(ReadAfter(pending, lastId, count), executionId));
    EachStreamGetsItsOwn(streams, released, name);
    EachStreamGetsItsOwn(AppendEach(streams, released), released, name);
  }
}
