/**
 Cascade cancellation: a breadth-first walk from one execution over the
 parent links of its session, then a mark and a command for each node found.
 */
module CascadeCancel {
  import opened Wrappers
  import opened WaitStore
  import opened ExecutionCounters

  datatype Status = NotFound | AlreadyFinished | CancelRequested(cancelled: nat)

  datatype Command = CancelCommand(workerId: string, messageId: string, executionId: string)

  type Records = map<string, Record>

  // ---------------------------------------------------------------- the task tree

  predicate IsChild(records: Records, parent: string, child: string) {
    && parent in records && child in records
    && records[child].parentMessageId != "" && records[child].parentMessageId == records[parent].messageId
  }

  ghost predicate IsPath(records: Records, path: seq<string>, from: string, to: string) {
    && path != [] && path[0] == from && path[|path| - 1] == to && from in records
    && forall i :: 0 < i < |path| ==> IsChild(records, path[i - 1], path[i])
  }

  function End(path: seq<string>): string { if path == [] then "" else path[|path| - 1] }

  ghost predicate IsRoute(records: Records, from: string, path: seq<string>) {
    IsPath(records, path, from, End(path))
  }

  /** The execution itself, its sub-tasks, theirs, and so on. */
  ghost predicate Descends(records: Records, from: string, to: string) {
    exists path :: IsPath(records, path, from, to)
  }

  /** An execution that descends from itself through at least one link. */
  ghost predicate OnCycle(records: Records, id: string) {
    exists path :: |path| > 1 && IsPath(records, path, id, id)
  }

  ghost predicate CycleBelow(records: Records, target: string) {
    exists id :: Descends(records, target, id) && OnCycle(records, id)
  }

  ghost predicate DistinctMessages(records: Records) {
    forall a, b :: a in records && b in records && records[a].messageId == records[b].messageId ==> a == b
  }

  ghost predicate NoRepeat<T>(items: seq<T>) { forall i, j :: 0 <= i < j < |items| ==> items[i] != items[j] }

  /** The session's records as one listing returns them, in whatever order. */
  ghost predicate Lists(records: Records, listing: seq<string>) {
    NoRepeat(listing) && forall id :: id in listing <==> id in records
  }

  function ChildrenOf(records: Records, listing: seq<string>, messageId: string): seq<string>
    requires forall id :: id in listing ==> id in records
  {
    if listing == [] then []
    else
      var last := listing[|listing| - 1];
      ChildrenOf(records, listing[..|listing| - 1], messageId)
      + if messageId != "" && records[last].parentMessageId == messageId then [last] else []
  }

  lemma {:induction false} ChildrenAreChildren(records: Records, listing: seq<string>, messageId: string)
    requires NoRepeat(listing) && forall id :: id in listing ==> id in records
    ensures var children := ChildrenOf(records, listing, messageId);
      && NoRepeat(children)
      && forall id :: id in children <==> id in listing && messageId != "" && records[id].parentMessageId == messageId
  {
    if listing != [] {
      var before, last := listing[..|listing| - 1], listing[|listing| - 1];
      ChildrenAreChildren(records, before, messageId);
      assert forall id :: id in listing <==> id in before || id == last;
    }
  }

  // ---------------------------------------------------------------- the walk, path by path

  /** Each id with the path it was reached by. */
  ghost predicate Spelled(ids: seq<string>, paths: seq<seq<string>>) {
    |ids| == |paths| && forall i :: 0 <= i < |ids| ==> End(paths[i]) == ids[i]
  }

  function Extended(path: seq<string>, children: seq<string>): (paths: seq<seq<string>>)
    ensures |paths| == |children| && forall i :: 0 <= i < |paths| ==> paths[i] == path + [children[i]]
  {
    seq(|children|, i requires 0 <= i < |children| => path + [children[i]])
  }

  function Walked(records: Records, listing: seq<string>, queue: seq<string>): seq<string>
    requires queue != [] && (forall id :: id in listing ==> id in records) && queue[0] in records
  {
    queue[1..] + ChildrenOf(records, listing, records[queue[0]].messageId)
  }

  function PathsWalked(records: Records, listing: seq<string>, queue: seq<seq<string>>): seq<seq<string>>
    requires queue != [] && (forall id :: id in listing ==> id in records) && End(queue[0]) in records
  {
    queue[1..] + Extended(queue[0], ChildrenOf(records, listing, records[End(queue[0])].messageId))
  }

  /** What holds of the paths behind the visited and the queued nodes between any two turns of the loop. */
  ghost predicate Walking(records: Records, target: string, visited: seq<seq<string>>, queue: seq<seq<string>>) {
    && NoRepeat(visited + queue)
    && AllRoutes(records, target, visited + queue)
    && [target] in visited + queue
    && Followed(records, visited, visited + queue) && FromVisited(visited, visited + queue)
  }

  ghost predicate AllRoutes(records: Records, target: string, paths: seq<seq<string>>) {
    forall path :: path in paths ==> IsRoute(records, target, path)
  }

  /** Every continuation of a visited path is known. */
  ghost predicate Followed(records: Records, visited: seq<seq<string>>, known: seq<seq<string>>) {
    forall path, c {:trigger path + [c]} :: path in visited && IsChild(records, End(path), c) ==> path + [c] in known
  }

  /** Every known path but the first continues a visited one. */
  ghost predicate FromVisited(visited: seq<seq<string>>, known: seq<seq<string>>) {
    forall path :: path in known && |path| > 1 ==> path[..|path| - 1] in visited
  }

  lemma RouteEnds(records: Records, from: string, path: seq<string>)
    requires IsRoute(records, from, path)
    ensures path != [] && End(path) in records && Descends(records, from, End(path))
  {
    if |path| > 1 {
      assert IsChild(records, path[|path| - 1 - 1], path[|path| - 1]);
    }
  }

  lemma RouteStep(records: Records, from: string, path: seq<string>, child: string)
    requires IsRoute(records, from, path) && IsChild(records, End(path), child)
    ensures IsRoute(records, from, path + [child]) && End(path + [child]) == child
    ensures |path + [child]| > 1 && (path + [child])[..|path + [child]| - 1] == path
  {
  }

  lemma WalkStep(records: Records, listing: seq<string>, target: string, visited: seq<seq<string>>,
                 queue: seq<seq<string>>)
    requires Lists(records, listing) && Walking(records, target, visited, queue) && queue != []
    ensures End(queue[0]) in records
    ensures Walking(records, target, visited + [queue[0]], PathsWalked(records, listing, queue))
  {
    hide IsRoute, ChildrenOf, End, NoRepeat, AllRoutes, Followed, FromVisited;
    var head := queue[0];
    HeadEnds(records, target, visited, queue);
    var more := Extended(head, ChildrenOf(records, listing, records[End(head)].messageId));
    NewPaths(records, listing, target, visited, queue);
    var before := visited + queue;
    assert visited + [head] + PathsWalked(records, listing, queue) == before + more;
    Appending(before, more);
    AllFollowed(records, target, visited, head, before, more);
  }

  lemma HeadEnds(records: Records, target: string, visited: seq<seq<string>>, queue: seq<seq<string>>)
    requires AllRoutes(records, target, visited + queue) && queue != []
    ensures End(queue[0]) in records
  {
    assert queue[0] in visited + queue;
    RouteEnds(records, target, queue[0]);
  }

  /** What visiting one more path asks of the queue. */
  lemma AllFollowed(records: Records, target: string, visited: seq<seq<string>>, head: seq<string>,
                    before: seq<seq<string>>, more: seq<seq<string>>)
    requires AllRoutes(records, target, before) && AllRoutes(records, target, more)
    requires Followed(records, visited, before) && FromVisited(visited, before)
    requires Followed(records, [head], more) && FromVisited([head], more)
    ensures AllRoutes(records, target, before + more)
    ensures Followed(records, visited + [head], before + more) && FromVisited(visited + [head], before + more)
  {
    hide IsChild, End, IsRoute;
    forall path, c | path in visited + [head] && IsChild(records, End(path), c)
      ensures path + [c] in before + more
    {
      if path !in visited {
        assert path in [head];
      }
      assert path + [c] in before || path + [c] in more;
    }
  }

  /** The head's continuations are routes nobody has queued yet: their common prefix is only now visited. */
  lemma NewPaths(records: Records, listing: seq<string>, target: string, visited: seq<seq<string>>,
                 queue: seq<seq<string>>)
    requires Lists(records, listing) && Walking(records, target, visited, queue) && queue != []
    requires End(queue[0]) in records
    ensures var more := Extended(queue[0], ChildrenOf(records, listing, records[End(queue[0])].messageId));
      && NoRepeat(more) && (forall path :: path in more ==> path !in visited + queue)
      && AllRoutes(records, target, more) && Followed(records, [queue[0]], more) && FromVisited([queue[0]], more)
  {
    hide IsRoute, ChildrenOf, End;
    var head := queue[0];
    var children := ChildrenOf(records, listing, records[End(head)].messageId);
    var more := Extended(head, children);
    ChildrenAreChildren(records, listing, records[End(head)].messageId);
    HeadNotVisited(visited, queue);
    assert head in visited + queue;
    forall path | path in more
      ensures path !in visited + queue && IsRoute(records, target, path)
      ensures |path| > 1 && path[..|path| - 1] == head
    {
      var i :| 0 <= i < |more| && more[i] == path;
      assert children[i] in children;
      RouteStep(records, target, head, children[i]);
    }
    forall i, j | 0 <= i < j < |more| ensures more[i] != more[j] {
      assert more[i][|head|] == children[i] && more[j][|head|] == children[j];
    }
    forall c | IsChild(records, End(head), c) ensures head + [c] in more {
      var i :| 0 <= i < |children| && children[i] == c;
      assert more[i] == head + [c];
    }
  }

  lemma Appending<T>(before: seq<T>, more: seq<T>)
    requires NoRepeat(before) && NoRepeat(more) && forall item :: item in more ==> item !in before
    ensures NoRepeat(before + more)
  {
    var all := before + more;
    forall i, j | 0 <= i < j < |all| ensures all[i] != all[j] {
      if j < |before| {
        assert all[i] == before[i] && all[j] == before[j];
      } else if i < |before| {
        assert all[i] == before[i] && all[j] == more[j - |before|];
        assert before[i] in before && more[j - |before|] in more;
      } else {
        assert all[i] == more[i - |before|] && all[j] == more[j - |before|];
      }
    }
  }

  lemma HeadNotVisited<T>(visited: seq<T>, queue: seq<T>)
    requires NoRepeat(visited + queue) && queue != []
    ensures queue[0] !in visited
  {
    forall i | 0 <= i < |visited| ensures visited[i] != queue[0] {
      assert (visited + queue)[i] == visited[i] && (visited + queue)[|visited|] == queue[0];
    }
  }

  /** An empty queue means every path from the target was followed. */
  lemma {:induction false} WalkDone(records: Records, target: string, visited: seq<seq<string>>, path: seq<string>)
    requires Walking(records, target, visited, []) && IsRoute(records, target, path)
    ensures path in visited
    decreases |path|
  {
    hide IsChild, NoRepeat, End;
    assert visited + [] == visited;
    if |path| == 1 {
      assert path == [target];
    } else {
      var before := path[..|path| - 1];
      RouteBefore(records, target, path);
      WalkDone(records, target, visited, before);
      assert path == before + [End(path)];
    }
  }

  lemma RouteBefore(records: Records, from: string, path: seq<string>)
    requires IsRoute(records, from, path) && |path| > 1
    ensures var before := path[..|path| - 1];
      IsRoute(records, from, before) && IsChild(records, End(before), End(path)) && path == before + [End(path)]
  {
    assert IsChild(records, path[|path| - 1 - 1], path[|path| - 1]);
  }

  lemma WalkStarts(records: Records, target: string)
    requires target in records
    ensures Walking(records, target, [], [[target]]) && Spelled([target], [[target]]) && Spelled([], [])
  {
    hide AllRoutes, Followed, FromVisited;
    assert [] + [[target]] == [[target]];
    FirstPath(records, target);
    NothingVisited(records, [[target]]);
  }

  lemma FirstPath(records: Records, target: string)
    requires target in records
    ensures AllRoutes(records, target, [[target]]) && FromVisited([], [[target]])
  {
    assert IsPath(records, [target], target, target);
  }

  lemma NothingVisited(records: Records, known: seq<seq<string>>)
    ensures Followed(records, [], known)
  {
  }

  /** The queue of nodes and the queue of their paths move together. */
  lemma SpelledStep(records: Records, listing: seq<string>, queue: seq<string>, paths: seq<seq<string>>)
    requires (forall id :: id in listing ==> id in records) && paths != [] && End(paths[0]) in records
    requires Spelled(queue, paths)
    ensures queue[0] == End(paths[0])
    ensures Spelled(Walked(records, listing, queue), PathsWalked(records, listing, paths))
  {
    hide ChildrenOf;
  }

  lemma SpelledMore(ids: seq<string>, paths: seq<seq<string>>, path: seq<string>)
    requires Spelled(ids, paths)
    ensures Spelled(ids + [End(path)], paths + [path])
  {
  }

  lemma SpelledAlike(ids: seq<string>, paths: seq<seq<string>>)
    requires Spelled(ids, paths)
    ensures ids == [] <==> paths == []
    ensures |ids| == |paths|
  {
  }

  // ---------------------------------------------------------------- what ends the walk

  lemma {:induction false} NoMoreThanKeys<T>(items: seq<T>, keys: set<T>)
    requires NoRepeat(items) && forall item :: item in items ==> item in keys
    ensures |items| <= |keys|
  {
    if items != [] {
      var last := items[|items| - 1];
      assert |keys - {last}| == |keys| - 1;
      NoMoreThanKeys(items[..|items| - 1], keys - {last});
    }
  }

  /** Off cycles a path passes each record at most once. */
  lemma RouteIsShort(records: Records, target: string, path: seq<string>)
    requires IsRoute(records, target, path) && !CycleBelow(records, target)
    ensures |path| <= |records| && forall id :: id in path ==> id in records
  {
    forall i | 0 <= i < |path|
      ensures path[i] in records && Descends(records, target, path[i])
    {
      if i > 0 { assert IsChild(records, path[i - 1], path[i]); }
      assert IsPath(records, path[..i + 1], target, path[i]);
    }
    forall i, j | 0 <= i < j < |path|
      ensures path[i] != path[j]
    {
      if path[i] == path[j] { TwiceIsCycle(records, target, path, i, j); }
    }
    NoMoreThanKeys(path, records.Keys);
  }

  lemma TwiceIsCycle(records: Records, target: string, path: seq<string>, i: nat, j: nat)
    requires IsRoute(records, target, path) && i < j < |path| && path[i] == path[j]
    requires Descends(records, target, path[i]) && path[i] in records
    ensures CycleBelow(records, target)
  {
    var round := path[i..j + 1];
    forall k | 0 < k < |round| ensures IsChild(records, round[k - 1], round[k]) {
      assert IsChild(records, path[i + k - 1], path[i + k]);
    }
    assert IsPath(records, round, path[i], path[i]);
  }

  /** All sequences of at most n of the given ids. */
  ghost function Words(ids: set<string>, n: nat): set<seq<string>> {
    if n == 0 then {[]}
    else Words(ids, n - 1) + set word, id | word in Words(ids, n - 1) && id in ids :: word + [id]
  }

  lemma {:induction false} InWords(ids: set<string>, n: nat, path: seq<string>)
    requires |path| <= n && forall id :: id in path ==> id in ids
    ensures path in Words(ids, n)
  {
    if n > 0 {
      if |path| < n {
        InWords(ids, n - 1, path);
      } else {
        InWords(ids, n - 1, path[..n - 1]);
        assert path == path[..n - 1] + [path[n - 1]];
      }
    }
  }

  ghost function MostPaths(records: Records): nat { |Words(records.Keys, |records|)| }

  lemma WalkingFits(records: Records, target: string, visited: seq<seq<string>>, queue: seq<seq<string>>)
    requires Walking(records, target, visited, queue) && !CycleBelow(records, target)
    ensures |visited| <= MostPaths(records)
  {
    hide IsRoute, CycleBelow;
    forall path | path in visited
      ensures path in Words(records.Keys, |records|)
    {
      assert path in visited + queue;
      RouteIsShort(records, target, path);
      InWords(records.Keys, |records|, path);
    }
    assert NoRepeat(visited) by {
      forall i, j | 0 <= i < j < |visited| ensures visited[i] != visited[j] {
        assert (visited + queue)[i] == visited[i] && (visited + queue)[j] == visited[j];
      }
    }
    NoMoreThanKeys(visited, Words(records.Keys, |records|));
  }

  /** The loop's own variables and the paths behind them. */
  ghost predicate Underway(records: Records, target: string, visited: seq<string>, followed: seq<seq<string>>,
                           queue: seq<string>, paths: seq<seq<string>>)
  {
    && Walking(records, target, followed, paths) && Spelled(visited, followed) && Spelled(queue, paths)
    && (forall id :: id in visited ==> id in records) && (forall id :: id in queue ==> id in records)
    && |visited| <= MostPaths(records)
  }

  lemma Begun(records: Records, target: string)
    requires target in records && !CycleBelow(records, target)
    ensures Underway(records, target, [], [], [target], [[target]])
  {
    hide Walking, CycleBelow, MostPaths;
    WalkStarts(records, target);
    WalkingFits(records, target, [], [[target]]);
  }

  /** Off cycles each turn makes one of finitely many visits. */
  lemma Turn(records: Records, listing: seq<string>, target: string, visited: seq<string>, followed: seq<seq<string>>,
             queue: seq<string>, paths: seq<seq<string>>)
    requires Lists(records, listing) && !CycleBelow(records, target) && queue != []
    requires Underway(records, target, visited, followed, queue, paths)
    ensures paths != [] && End(paths[0]) in records && queue[0] in records && |visited| < MostPaths(records)
    ensures Underway(records, target, visited + [queue[0]], followed + [paths[0]],
                     Walked(records, listing, queue), PathsWalked(records, listing, paths))
  {
    hide Walking, CycleBelow, MostPaths, Spelled, NoRepeat, ChildrenOf, End, PathsWalked;
    SpelledAlike(queue, paths);
    WalkStep(records, listing, target, followed, paths);
    SpelledStep(records, listing, queue, paths);
    SpelledMore(visited, followed, paths[0]);
    AllListed(records, listing, records[queue[0]].messageId);
    WalkingFits(records, target, followed + [paths[0]], PathsWalked(records, listing, paths));
    SpelledAlike(visited, followed);
  }

  /** The queue after some turns of the loop. */
  ghost function QueueAfter(records: Records, listing: seq<string>, queue: seq<string>, turns: nat): seq<string>
    requires (forall id :: id in listing ==> id in records) && (forall id :: id in queue ==> id in records)
    ensures forall id :: id in QueueAfter(records, listing, queue, turns) ==> id in records
    decreases turns
  {
    if turns == 0 || queue == [] then queue
    else
      AllListed(records, listing, records[queue[0]].messageId);
      QueueAfter(records, listing, Walked(records, listing, queue), turns - 1)
  }

  lemma {:induction false} AllListed(records: Records, listing: seq<string>, messageId: string)
    requires forall id :: id in listing ==> id in records
    ensures forall id :: id in ChildrenOf(records, listing, messageId) ==> id in records
  {
    if listing != [] {
      AllListed(records, listing[..|listing| - 1], messageId);
    }
  }

  /** Nodes that each have a child among them. */
  ghost predicate Endless(records: Records, nodes: set<string>) {
    forall x {:trigger HasNext(records, nodes, x)} :: x in nodes ==> HasNext(records, nodes, x)
  }

  ghost predicate HasNext(records: Records, nodes: set<string>, x: string) {
    exists c :: c in nodes && IsChild(records, x, c)
  }

  ghost predicate Meets(queue: seq<string>, nodes: set<string>) {
    exists x :: x in nodes && x in queue
  }

  /** A turn that takes one of them off the queue puts another one on it. */
  lemma EndlessStep(records: Records, listing: seq<string>, queue: seq<string>, nodes: set<string>)
    requires Lists(records, listing) && (forall id :: id in listing ==> id in records)
    requires forall id :: id in queue ==> id in records
    requires Endless(records, nodes) && Meets(queue, nodes)
    ensures Meets(Walked(records, listing, queue), nodes)
  {
    hide Lists, ChildrenOf, Walked, Endless;
    var x :| x in nodes && x in queue;
    if x == queue[0] {
      var c := NextAmong(records, nodes, x);
      ChildIsQueued(records, listing, queue, c);
    } else {
      OthersStayQueued(records, listing, queue, x);
    }
  }

  lemma NextAmong(records: Records, nodes: set<string>, x: string) returns (c: string)
    requires Endless(records, nodes) && x in nodes
    ensures c in nodes && IsChild(records, x, c)
  {
    hide IsChild;
    assert HasNext(records, nodes, x);
    c :| c in nodes && IsChild(records, x, c);
  }

  lemma ChildIsQueued(records: Records, listing: seq<string>, queue: seq<string>, c: string)
    requires Lists(records, listing) && queue != [] && IsChild(records, queue[0], c)
    ensures c in Walked(records, listing, queue)
  {
    hide ChildrenOf;
    ChildrenAreChildren(records, listing, records[queue[0]].messageId);
  }

  lemma OthersStayQueued(records: Records, listing: seq<string>, queue: seq<string>, id: string)
    requires Lists(records, listing) && queue != [] && queue[0] in records && id in queue && id != queue[0]
    ensures id in Walked(records, listing, queue)
  {
    hide ChildrenOf;
    assert id in queue[1..];
  }

  lemma {:induction false} StaysQueued(records: Records, listing: seq<string>, queue: seq<string>,
                                       nodes: set<string>, turns: nat)
    requires Lists(records, listing) && forall id :: id in queue ==> id in records
    requires Endless(records, nodes) && Meets(queue, nodes)
    ensures QueueAfter(records, listing, queue, turns) != []
    decreases turns
  {
    hide ChildrenOf, Endless, NoRepeat;
    if turns > 0 {
      assert forall id :: id in listing ==> id in records;
      AllListed(records, listing, records[queue[0]].messageId);
      EndlessStep(records, listing, queue, nodes);
      StaysQueued(records, listing, Walked(records, listing, queue), nodes, turns - 1);
    }
  }

  /** The way to a cycle and the cycle itself never end. */
  lemma CycleIsEndless(records: Records, target: string) returns (nodes: set<string>)
    requires CycleBelow(records, target)
    ensures target in nodes && Endless(records, nodes)
  {
    var id :| Descends(records, target, id) && OnCycle(records, id);
    var way :| IsPath(records, way, target, id);
    var round :| |round| > 1 && IsPath(records, round, id, id);
    nodes := (set x | x in way) + (set x | x in round);
    assert way[0] in way;
    forall x | x in nodes
      ensures HasNext(records, nodes, x)
    {
      if x in round {
        NextOnWay(records, round, id, id, x);
        if x == id { assert IsChild(records, round[1 - 1], round[1]) && round[1] in round; }
      } else {
        NextOnWay(records, way, target, id, x);
        assert id == round[0] && id in round;
      }
    }
  }

  lemma NextOnWay(records: Records, path: seq<string>, from: string, to: string, x: string)
    requires IsPath(records, path, from, to) && x in path
    ensures x == to || exists c :: c in path && IsChild(records, x, c)
  {
    var i :| 0 <= i < |path| && path[i] == x;
    if i + 1 < |path| {
      assert IsChild(records, path[i + 1 - 1], path[i + 1]) && path[i + 1] in path;
    }
  }

  /**
   The walk ends exactly when no descendant of the target descends from itself,
   however many records share a message id; otherwise the queue never runs dry.
   */
  lemma WalkEndsIff(records: Records, listing: seq<string>, target: string)
    requires Lists(records, listing) && target in records
    ensures (exists turns: nat :: QueueAfter(records, listing, [target], turns) == [])
       <==> !CycleBelow(records, target)
  {
    hide ChildrenOf, IsPath, QueueAfter, CycleBelow, Endless, Meets, Underway, NoRepeat;
    if CycleBelow(records, target) {
      var nodes := CycleIsEndless(records, target);
      TargetMeets(target, nodes);
      forall turns: nat
        ensures QueueAfter(records, listing, [target], turns) != []
      {
        StaysQueued(records, listing, [target], nodes, turns);
      }
    } else {
      Begun(records, target);
      WalkEnds(records, listing, target, [], [], [target], [[target]]);
    }
  }

  lemma TargetMeets(target: string, nodes: set<string>)
    requires target in nodes
    ensures Meets([target], nodes)
  {
    assert target in [target];
  }

  lemma {:induction false} WalkEnds(records: Records, listing: seq<string>, target: string, visited: seq<string>,
                                    followed: seq<seq<string>>, queue: seq<string>, paths: seq<seq<string>>)
    requires Lists(records, listing) && !CycleBelow(records, target) && forall id :: id in queue ==> id in records
    requires Underway(records, target, visited, followed, queue, paths)
    ensures exists turns: nat :: QueueAfter(records, listing, queue, turns) == []
    decreases MostPaths(records) - |visited|
  {
    hide Underway, MostPaths, CycleBelow, ChildrenOf, PathsWalked;
    if queue == [] {
      assert QueueAfter(records, listing, queue, 0) == [];
    } else {
      Turn(records, listing, target, visited, followed, queue, paths);
      AllListed(records, listing, records[queue[0]].messageId);
      var next := Walked(records, listing, queue);
      WalkEnds(records, listing, target, visited + [queue[0]], followed + [paths[0]],
               next, PathsWalked(records, listing, paths));
      var turns: nat :| QueueAfter(records, listing, next, turns) == [];
      assert QueueAfter(records, listing, queue, turns + 1) == [];
    }
  }

  /** With distinct message ids the only cycle a walk can meet is one through its target. */
  lemma CycleIsAtTarget(records: Records, target: string)
    requires DistinctMessages(records)
    ensures CycleBelow(records, target) <==> OnCycle(records, target)
  {
    hide DistinctMessages;
    if OnCycle(records, target) {
      var round :| |round| > 1 && IsPath(records, round, target, target);
      assert Descends(records, target, target);
    }
    if CycleBelow(records, target) {
      var id :| Descends(records, target, id) && OnCycle(records, id);
      var way :| IsPath(records, way, target, id);
      BackAlongWay(records, target, id, way);
    }
  }

  lemma {:induction false} BackAlongWay(records: Records, target: string, id: string, way: seq<string>)
    requires DistinctMessages(records) && IsPath(records, way, target, id) && OnCycle(records, id)
    ensures OnCycle(records, target)
    decreases |way|
  {
    var n := |way|;
    if n > 1 {
      var round :| |round| > 1 && IsPath(records, round, id, id);
      var m := |round|;
      assert IsChild(records, way[n - 1 - 1], way[n - 1]) && IsChild(records, round[m - 1 - 1], round[m - 1]);
      var parent := way[n - 2];
      assert parent == round[m - 2];
      var turned := [parent] + round[..m - 1];
      forall k | 0 < k < |turned| ensures IsChild(records, turned[k - 1], turned[k]) {
        if k > 1 { assert IsChild(records, round[k - 1 - 1], round[k - 1]); }
      }
      assert IsPath(records, turned, parent, parent);
      assert IsPath(records, way[..n - 1], target, parent);
      BackAlongWay(records, target, parent, way[..n - 1]);
    }
  }

  // ---------------------------------------------------------------- what the walk lists

  /** The listed ids are the ends of the paths from the target, each path once. */
  ghost predicate PathByPath(records: Records, target: string, ids: seq<string>, paths: seq<seq<string>>) {
    Spelled(ids, paths) && NoRepeat(paths) && forall path :: path in paths <==> IsRoute(records, target, path)
  }

  /** The target's descendants, each listed as often as there are paths to it. */
  ghost predicate IsTree(records: Records, target: string, tree: seq<string>) {
    (forall id :: id in tree ==> id in records) && exists paths :: PathByPath(records, target, tree, paths)
  }

  lemma TreeIsDescendants(records: Records, target: string, tree: seq<string>)
    requires IsTree(records, target, tree)
    ensures forall id :: id in tree <==> id in records && Descends(records, target, id)
  {
    hide IsChild;
    var paths :| PathByPath(records, target, tree, paths);
    forall id | id in tree ensures id in records && Descends(records, target, id) {
      var i :| 0 <= i < |tree| && tree[i] == id;
      assert paths[i] in paths;
      RouteEnds(records, target, paths[i]);
    }
    forall id | Descends(records, target, id) ensures id in tree {
      var path :| IsPath(records, path, target, id);
      assert IsRoute(records, target, path);
      var i :| 0 <= i < |paths| && paths[i] == path;
      assert tree[i] == id;
    }
  }

  /** Two descendants that share a message id and have a child in common, as a repeated send leaves them. */
  ghost predicate SharedChild(records: Records, target: string, a: string, b: string, child: string) {
    a != b && Descends(records, target, a) && Descends(records, target, b)
      && IsChild(records, a, child) && IsChild(records, b, child)
  }

  /** Off cycles every node is listed once exactly when no two descendants of the target share a child. */
  lemma ListedOnceIff(records: Records, target: string, tree: seq<string>)
    requires IsTree(records, target, tree) && !CycleBelow(records, target)
    ensures NoRepeat(tree) <==> !exists a, b, child :: SharedChild(records, target, a, b, child)
  {
    hide IsChild, IsRoute, CycleBelow, Descends;
    var paths :| PathByPath(records, target, tree, paths);
    if a, b, child :| SharedChild(records, target, a, b, child) {
      ListedTwice(records, target, tree, paths, a, b, child);
    } else {
      forall i, j | 0 <= i < j < |tree|
        ensures tree[i] != tree[j]
      {
        assert paths[i] in paths && paths[j] in paths;
        if tree[i] == tree[j] {
          OnePath(records, target, paths[i], paths[j]);
        }
      }
    }
  }

  lemma ListedTwice(records: Records, target: string, tree: seq<string>, paths: seq<seq<string>>,
                    a: string, b: string, child: string)
    requires PathByPath(records, target, tree, paths) && SharedChild(records, target, a, b, child)
    ensures !NoRepeat(tree)
  {
    var toA :| IsPath(records, toA, target, a);
    var toB :| IsPath(records, toB, target, b);
    RouteStep(records, target, toA, child);
    RouteStep(records, target, toB, child);
    var i :| 0 <= i < |paths| && paths[i] == toA + [child];
    var j :| 0 <= j < |paths| && paths[j] == toB + [child];
    assert tree[i] == child && tree[j] == child;
    assert i != j by {
      assert (toA + [child])[..|toA|] == toA && (toB + [child])[..|toB|] == toB;
    }
  }

  /** Without shared children and off cycles two paths to the same node are the same. */
  lemma {:induction false} OnePath(records: Records, target: string, p: seq<string>, q: seq<string>)
    requires IsRoute(records, target, p) && IsRoute(records, target, q) && End(p) == End(q)
    requires !CycleBelow(records, target) && !exists a, b, child :: SharedChild(records, target, a, b, child)
    ensures p == q
    decreases |p|
  {
    hide CycleBelow, SharedChild, IsChild;
    if |p| == 1 || |q| == 1 {
      BackAtTarget(records, target, p);
      BackAtTarget(records, target, q);
    } else {
      var before, other := p[..|p| - 1], q[..|q| - 1];
      var a, b := p[|p| - 2], q[|q| - 2];
      assert IsChild(records, p[|p| - 1 - 1], p[|p| - 1]) && IsChild(records, q[|q| - 1 - 1], q[|q| - 1]);
      assert IsRoute(records, target, before) && IsRoute(records, target, other);
      ParentsAgree(records, target, before, other, End(p));
      OnePath(records, target, before, other);
      assert p == before + [End(p)] && q == other + [End(q)];
    }
  }

  lemma ParentsAgree(records: Records, target: string, before: seq<string>, other: seq<string>, child: string)
    requires IsRoute(records, target, before) && IsRoute(records, target, other)
    requires IsChild(records, End(before), child) && IsChild(records, End(other), child)
    requires !exists a, b, c :: SharedChild(records, target, a, b, c)
    ensures End(before) == End(other)
  {
    assert !SharedChild(records, target, End(before), End(other), child);
  }

  lemma BackAtTarget(records: Records, target: string, path: seq<string>)
    requires IsRoute(records, target, path) && End(path) == target && !CycleBelow(records, target)
    ensures path == [target]
  {
    if |path| > 1 {
      assert Descends(records, target, target) && OnCycle(records, target);
    }
  }

  /** With distinct message ids no child is shared. */
  lemma DistinctIsOnce(records: Records, target: string, tree: seq<string>)
    requires IsTree(records, target, tree) && !CycleBelow(records, target) && DistinctMessages(records)
    ensures NoRepeat(tree)
  {
    forall a, b, child ensures !SharedChild(records, target, a, b, child) {}
    ListedOnceIff(records, target, tree);
  }

  function Live(records: Records, ids: seq<string>): (live: seq<string>)
    requires forall id :: id in ids ==> id in records
    ensures forall id :: id in live <==> id in ids && !IsTerminal(records[id].status)
  {
    if ids == [] then []
    else
      var before, last := ids[..|ids| - 1], ids[|ids| - 1];
      assert forall id :: id in ids <==> id in before || id == last;
      Live(records, before) + if IsTerminal(records[last].status) then [] else [last]
  }

  function Finished(records: Records, ids: seq<string>): (finished: seq<string>)
    requires forall id :: id in ids ==> id in records
    ensures forall id :: id in finished <==> id in ids && IsTerminal(records[id].status)
  {
    if ids == [] then []
    else
      var before, last := ids[..|ids| - 1], ids[|ids| - 1];
      assert forall id :: id in ids <==> id in before || id == last;
      Finished(records, before) + if IsTerminal(records[last].status) then [last] else []
  }

  lemma {:induction false} EachOnce(records: Records, ids: seq<string>)
    requires NoRepeat(ids) && forall id :: id in ids ==> id in records
    ensures NoRepeat(Live(records, ids)) && NoRepeat(Finished(records, ids))
  {
    hide IsTerminal;
    if ids != [] {
      var before, last := ids[..|ids| - 1], ids[|ids| - 1];
      EachOnce(records, before);
      assert last !in before;
    }
  }

  // ---------------------------------------------------------------- the client

  /** The record after the cascade has reached it: a finished one is only flagged. */
  function Cancelled(r: Record, reason: string): Record {
    if IsTerminal(r.status) then
      r.(cancelRequested := true, cancelReason := if reason != "" then reason else r.cancelReason)
    else r.(status := "CANCELLING", cancelRequested := true, cancelReason := reason)
  }

  function CommandsTo(records: Records, ids: seq<string>): seq<Command>
    requires forall id :: id in ids ==> id in records
  {
    if ids == [] then []
    else
      var last := ids[|ids| - 1];
      CommandsTo(records, ids[..|ids| - 1])
      + if records[last].workerId != "" then [CancelCommand(records[last].workerId, records[last].messageId, last)]
        else []
  }

  ghost predicate OnlyMarked(before: Records, after: Records, ids: seq<string>, reason: string) {
    && after.Keys == before.Keys
    && forall id :: id in before ==> after[id] == if id in ids then Cancelled(before[id], reason) else before[id]
  }

  /** Finished ones flagged, then live ones stopped: together every one of them cancelled. */
  lemma MarksCompose(a: Records, b: Records, c: Records, ids: seq<string>, reason: string)
    requires forall id :: id in ids ==> id in a
    requires OnlyMarked(a, b, Finished(a, ids), reason) && OnlyMarked(b, c, Live(a, ids), reason)
    ensures OnlyMarked(a, c, ids, reason)
  {
    hide Finished, Live, Cancelled;
    forall id | id in a
      ensures c[id] == if id in ids then Cancelled(a[id], reason) else a[id]
    {
      assert !(id in Finished(a, ids) && id in Live(a, ids));
    }
  }

  class GatewayClient {
    const registry: WorkerRegistry
    var sent: seq<Command>

    constructor (registry: WorkerRegistry)
      ensures this.registry == registry && sent == []
    {
      this.registry := registry;
      sent := [];
    }

    method BuildChildrenMap(listing: seq<string>) returns (childrenMap: map<string, seq<string>>)
      requires forall id :: id in listing ==> id in registry.records
      ensures forall messageId :: (if messageId in childrenMap then childrenMap[messageId] else [])
                               == ChildrenOf(registry.records, listing, messageId)
    {
      childrenMap := map[];
      for i := 0 to |listing|
        invariant forall messageId :: (if messageId in childrenMap then childrenMap[messageId] else [])
                                   == ChildrenOf(registry.records, listing[..i], messageId)
      {
        assert listing[..i + 1][..i] == listing[..i];
        var parent := registry.records[listing[i]].parentMessageId;
        if parent != "" {
          var siblings := if parent in childrenMap then childrenMap[parent] else [];
          childrenMap := childrenMap[parent := siblings + [listing[i]]];
        }
      }
      assert listing[..|listing|] == listing;
    }

    method CollectTree(target: string, listing: seq<string>)
      returns (toCancel: seq<string>, terminalAncestors: seq<string>, ghost visited: seq<string>)
      requires target in registry.records && Lists(registry.records, listing)
      requires !CycleBelow(registry.records, target)
      ensures IsTree(registry.records, target, visited)
      ensures forall id :: id in visited <==> id in registry.records && Descends(registry.records, target, id)
      ensures toCancel == Live(registry.records, visited) && terminalAncestors == Finished(registry.records, visited)
      ensures forall id :: id in toCancel <==>
                id in registry.records && Descends(registry.records, target, id)
                  && !IsTerminal(registry.records[id].status)
      ensures forall id :: id in terminalAncestors <==>
                id in registry.records && Descends(registry.records, target, id)
                  && IsTerminal(registry.records[id].status)
      ensures DistinctMessages(registry.records) ==> NoRepeat(toCancel) && NoRepeat(terminalAncestors)
    {
      hide ChildrenOf, Underway, CycleBelow, Descends, MostPaths, IsTree, NoRepeat, PathsWalked, DistinctMessages;
      ghost var records := registry.records;
      var childrenMap := BuildChildrenMap(listing);
      var queue := [target];
      toCancel, terminalAncestors, visited := [], [], [];
      ghost var followed, paths := [], [[target]];
      Begun(records, target);
      while queue != []
        invariant Underway(records, target, visited, followed, queue, paths)
        invariant forall id :: id in visited ==> id in records
        invariant toCancel == Live(records, visited) && terminalAncestors == Finished(records, visited)
        decreases MostPaths(records) - |visited|
      {
        var current := queue[0];
        Turn(records, listing, target, visited, followed, queue, paths);
        ghost var next := Walked(records, listing, queue);
        queue := queue[1..];
        if !IsTerminal(registry.records[current].status) {
          toCancel := toCancel + [current];
        } else {
          terminalAncestors := terminalAncestors + [current];
        }
        var messageId := registry.records[current].messageId;
        if messageId in childrenMap {
          queue := queue + childrenMap[messageId];
        }
        assert queue == next;
        assert (visited + [current])[..|visited|] == visited;
        visited := visited + [current];
        followed, paths := followed + [paths[0]], PathsWalked(records, listing, paths);
      }
      WalkIsTree(records, target, visited, followed, paths);
      TreeIsDescendants(records, target, visited);
      if DistinctMessages(records) {
        DistinctIsOnce(records, target, visited);
        EachOnce(records, visited);
      }
    }

    method MarkAll(ids: seq<string>, finished: bool, reason: string, now: int)
      requires forall id :: id in ids ==> id in registry.records && IsTerminal(registry.records[id].status) == finished
      modifies registry
      ensures OnlyMarked(old(registry.records), registry.records, ids, reason)
      ensures CountersAgree(old(registry.State())) ==> CountersAgree(registry.State())
    {
      hide CountersAgree, Stepped;
      ghost var records := registry.records;
      for i := 0 to |ids|
        invariant OnlyMarked(records, registry.records, ids[..i], reason)
        invariant CountersAgree(old(registry.State())) ==> CountersAgree(registry.State())
      {
        assert ids[i] in ids;
        CancelledAgain(records[ids[i]], reason);
        ghost var before := registry.State();
        if finished {
          registry.MarkCancelRequested(ids[i], reason, now);
        } else {
          registry.MarkExecutionCancelling(ids[i], reason, now);
        }
        ghost var mark := if finished then Write.MarkCancelRequested(ids[i], reason)
                          else MarkCancelling(ids[i], reason);
        Marked(before, mark, now, registry.State(), finished, reason);
      }
      assert ids[..|ids|] == ids;
    }

    method SendCommands(ids: seq<string>, ghost records: Records)
      requires forall id :: id in ids ==> id in records && id in registry.records
      requires forall id :: id in ids ==> registry.records[id].workerId == records[id].workerId
      requires forall id :: id in ids ==> registry.records[id].messageId == records[id].messageId
      modifies this`sent
      ensures sent == old(sent) + CommandsTo(records, ids)
    {
      for i := 0 to |ids|
        invariant sent == old(sent) + CommandsTo(records, ids[..i])
      {
        assert ids[..i + 1][..i] == ids[..i];
        var r := registry.records[ids[i]];
        if r.workerId != "" {
          sent := sent + [CancelCommand(r.workerId, r.messageId, ids[i])];
        }
      }
      assert ids[..|ids|] == ids;
    }

    /** target is the execution the message id leads to, if any. */
    method CancelTask(target: Option<string>, listing: seq<string>, reason: string, now: int) returns (status: Status)
      requires Lists(registry.records, listing)
      requires target.Some? ==> target.value in registry.records && !CycleBelow(registry.records, target.value)
      modifies registry, this`sent
      ensures target.None? ==> status == NotFound && sent == old(sent) && registry.records == old(registry.records)
      ensures target.Some? ==>
                exists tree ::
                  && IsTree(old(registry.records), target.value, tree)
                  && OnlyMarked(old(registry.records), registry.records, tree, reason)
                  && sent == old(sent) + CommandsTo(old(registry.records), Live(old(registry.records), tree))
                  && status == (if Live(old(registry.records), tree) == [] then AlreadyFinished
                                else CancelRequested(|Live(old(registry.records), tree)|))
      ensures CountersAgree(old(registry.State())) ==> CountersAgree(registry.State())
    {
      hide CountersAgree, Descends, CycleBelow, OnlyMarked, Live, Finished, Cancelled, CommandsTo, IsTree;
      if target.None? {
        return NotFound;
      }
      ghost var records := registry.records;
      var toCancel, terminalAncestors, tree := CollectTree(target.value, listing);
      MarkAll(terminalAncestors, true, reason, now);
      ghost var flagged := registry.records;
      MarkedFields(records, flagged, terminalAncestors, toCancel, reason);
      if toCancel == [] {
        MarkedNone(flagged, reason);
        MarksCompose(records, flagged, flagged, tree, reason);
        NoCommands(records);
        assert IsTree(records, target.value, tree);
        return AlreadyFinished;
      }
      MarkAll(toCancel, false, reason, now);
      MarksCompose(records, flagged, registry.records, tree, reason);
      MarkedFields(flagged, registry.records, toCancel, [], reason);
      SendCommands(toCancel, records);
      assert IsTree(records, target.value, tree);
      return CancelRequested(|toCancel|);
    }

    method SplitByStatus(listing: seq<string>) returns (toCancel: seq<string>, terminalNodes: seq<string>)
      requires forall id :: id in listing ==> id in registry.records
      ensures toCancel == Live(registry.records, listing) && terminalNodes == Finished(registry.records, listing)
    {
      toCancel, terminalNodes := [], [];
      for i := 0 to |listing|
        invariant toCancel == Live(registry.records, listing[..i])
        invariant terminalNodes == Finished(registry.records, listing[..i])
      {
        assert listing[..i + 1][..i] == listing[..i];
        if !IsTerminal(registry.records[listing[i]].status) {
          toCancel := toCancel + [listing[i]];
        } else {
          terminalNodes := terminalNodes + [listing[i]];
        }
      }
      assert listing[..|listing|] == listing;
    }

    method CancelSession(listing: seq<string>, reason: string, now: int) returns (status: Status)
      requires Lists(registry.records, listing)
      modifies registry, this`sent
      ensures status.NotFound? <==> old(registry.records) == map[]
      ensures forall id :: id in listing ==> id in old(registry.records)
      ensures OnlyMarked(old(registry.records), registry.records, listing, reason)
      ensures sent == old(sent) + CommandsTo(old(registry.records), Live(old(registry.records), listing))
      ensures !status.NotFound? ==> status == if Live(old(registry.records), listing) == [] then AlreadyFinished
                                         else CancelRequested(|Live(old(registry.records), listing)|)
      ensures CountersAgree(old(registry.State())) ==> CountersAgree(registry.State())
    {
      hide CountersAgree, OnlyMarked, Cancelled, CommandsTo, Live, Finished;
      ghost var records := registry.records;
      if listing == [] {
        MarkedNone(records, reason);
        NoCommands(records);
        return NotFound;
      }
      assert listing[0] in records;
      var toCancel, terminalNodes := SplitByStatus(listing);
      MarkAll(terminalNodes, true, reason, now);
      ghost var flagged := registry.records;
      MarkedFields(records, flagged, terminalNodes, toCancel, reason);
      if toCancel == [] {
        MarkedNone(flagged, reason);
        MarksCompose(records, flagged, flagged, listing, reason);
        NoCommands(records);
        return AlreadyFinished;
      }
      MarkAll(toCancel, false, reason, now);
      MarksCompose(records, flagged, registry.records, listing, reason);
      MarkedFields(flagged, registry.records, toCancel, [], reason);
      SendCommands(toCancel, records);
      return CancelRequested(|toCancel|);
    }
  }

  /** What a cascade leaves: every listed record flagged, live ones CANCELLING, finished ones in their status. */
  lemma ListedIsCancelled(before: Records, after: Records, ids: seq<string>, reason: string, id: string)
    requires OnlyMarked(before, after, ids, reason) && id in before
    ensures id in after
    ensures id in ids ==> after[id].cancelRequested && (reason != "" ==> after[id].cancelReason == reason)
    ensures id in ids ==> after[id].status == if IsTerminal(before[id].status) then before[id].status else "CANCELLING"
    ensures id !in ids ==> after[id] == before[id]
    ensures after[id].workerId == before[id].workerId && after[id].messageId == before[id].messageId
    ensures after[id].startedAt == before[id].startedAt && after[id].finishedAt == before[id].finishedAt
  {
  }

  /** A command goes out for each time a record with a worker is listed, to that worker, and no other does. */
  lemma {:induction false} CommandForEachVisit(records: Records, ids: seq<string>, id: string)
    requires (forall other :: other in ids ==> other in records) && id in records
    ensures forall command :: command in CommandsTo(records, ids) ==>
              && command.executionId in ids && records[command.executionId].workerId != ""
              && command.workerId == records[command.executionId].workerId
              && command.messageId == records[command.executionId].messageId
    ensures multiset(CommandsTo(records, ids))[CancelCommand(records[id].workerId, records[id].messageId, id)]
         == if records[id].workerId != "" then multiset(ids)[id] else 0
  {
    if ids != [] {
      var n := |ids| - 1;
      CommandForEachVisit(records, ids[..n], id);
      assert ids == ids[..n] + [ids[n]];
    }
  }

  lemma NoCommands(records: Records)
    ensures CommandsTo(records, []) == [] && Live(records, []) == []
  {
  }

  lemma MarkedNone(records: Records, reason: string)
    ensures OnlyMarked(records, records, [], reason)
  {
  }

  /** A mark changes no id and no worker, and leaves the others as they were. */
  lemma MarkedFields(before: Records, after: Records, ids: seq<string>, others: seq<string>, reason: string)
    requires OnlyMarked(before, after, ids, reason)
    ensures after.Keys == before.Keys
    ensures forall id :: id in before ==>
              after[id].workerId == before[id].workerId && after[id].messageId == before[id].messageId
    ensures forall id :: id in others && id in before && id !in ids ==> after[id] == before[id]
  {
  }

  lemma WalkIsTree(records: Records, target: string, visited: seq<string>, followed: seq<seq<string>>,
                   paths: seq<seq<string>>)
    requires Underway(records, target, visited, followed, [], paths)
    ensures IsTree(records, target, visited)
  {
    hide IsRoute, MostPaths;
    SpelledAlike([], paths);
    assert followed + [] == followed;
    forall path | IsRoute(records, target, path) ensures path in followed {
      WalkDone(records, target, followed, path);
    }
    assert PathByPath(records, target, visited, followed);
  }

  /** A record listed twice is marked as if listed once. */
  lemma CancelledAgain(r: Record, reason: string)
    ensures Cancelled(Cancelled(r, reason), reason) == Cancelled(r, reason)
    ensures IsTerminal(Cancelled(r, reason).status) == IsTerminal(r.status)
  {
  }

  lemma Marked(before: Books, mark: Write, now: int, after: Books, finished: bool, reason: string)
    requires Stepped(before, mark, now, after) && mark.id in before.records
    requires IsTerminal(before.records[mark.id].status) == finished
    requires mark == if finished then MarkCancelRequested(mark.id, reason) else MarkCancelling(mark.id, reason)
    ensures after.records == before.records[mark.id := Cancelled(before.records[mark.id], reason)]
    ensures CountersAgree(before) ==> CountersAgree(after)
  {
    hide CountersAgree, Counted, Indexed;
    if CountersAgree(before) {
      AgreementKept(before, mark, now, after);
    }
  }
}
