/**
 A named consumer of a session's data stream: it hands entries to its caller
 one at a time and commits each only after the caller's body is done with it.
 Between any two commands the consumer may crash; a new run starts at the
 checkpoint.
 */
module CheckpointedConsumer {

  datatype Phase = Reading | Processing(entry: nat) | Committing(entry: nat)

  /** One run of the iterator: where it reads on, what it has read ahead, and what the caller is busy with. */
  datatype Session = Down | Up(current: nat, batch: seq<nat>, phase: Phase)

  /**
   The stream's entries, each decodable or not, at positions 1, 2, ...; the
   stored checkpoint, 0 for none; and, run by run, the entries handed to the
   caller, with those whose body completed.
   */
  datatype State = State(stream: seq<bool>, checkpoint: nat,
                         session: Session, handed: seq<seq<nat>>, completed: set<nat>)

  datatype Event = Append(decodes: bool) | Start | Read(count: nat) | HandOver | BodyCompletes | Commit | Crash

  function Range(after: nat, upTo: nat): (entries: seq<nat>)
    requires after <= upTo
    ensures |entries| == upTo - after && forall i :: 0 <= i < |entries| ==> entries[i] == after + 1 + i
  {
    seq(upTo - after, i => after + 1 + i)
  }

  /** The positions one read covers: up to count of those behind the given one. */
  function ReadAfter(length: nat, current: nat, count: nat): seq<nat> {
    if current >= length then []
    else if length - current <= count then Range(current, length)
    else Range(current, current + count)
  }

  predicate AllDecode(stream: seq<bool>, entries: seq<nat>) {
    forall i :: 0 <= i < |entries| && 1 <= entries[i] <= |stream| ==> stream[entries[i] - 1]
  }

  lemma DecodeOneMore(stream: seq<bool>, entries: seq<nat>, entry: nat)
    requires 1 <= entry <= |stream|
    ensures AllDecode(stream, entries + [entry]) <==> AllDecode(stream, entries) && stream[entry - 1]
  {
    var more := entries + [entry];
    assert more[|entries|] == entry;
    forall i | 0 <= i < |entries| ensures more[i] == entries[i] {}
    if AllDecode(stream, more) {
      assert AllDecode(stream, entries) by {
        forall i | 0 <= i < |entries| && 1 <= entries[i] <= |stream| ensures stream[entries[i] - 1] {
          assert more[i] == entries[i];
        }
      }
    }
  }

  function WithEntry(handed: seq<seq<nat>>, entry: nat): seq<seq<nat>> {
    if handed == [] then handed else handed[|handed| - 1 := handed[|handed| - 1] + [entry]]
  }

  /** A read that meets an undecodable entry raises, and the run is over. */
  function Next(s: State, e: Event): State {
    match s.session
    case Down =>
      (match e
       case Append(decodes) => s.(stream := s.stream + [decodes])
       case Start => s.(session := Up(s.checkpoint, [], Reading), handed := s.handed + [[]])
       case _ => s)
    case Up(current, batch, phase) =>
      (match e
       case Append(decodes) => s.(stream := s.stream + [decodes])
       case Crash => s.(session := Down)
       case Read(count) =>
         if !phase.Reading? || batch != [] then s
         else
           var entries := ReadAfter(|s.stream|, current, count);
           s.(session := if AllDecode(s.stream, entries) then Up(current, entries, Reading) else Down)
       case HandOver =>
         if !phase.Reading? || batch == [] then s
         else s.(session := Up(current, batch[1..], Processing(batch[0])), handed := WithEntry(s.handed, batch[0]))
       case BodyCompletes =>
         if !phase.Processing? then s
         else s.(session := Up(current, batch, Committing(phase.entry)), completed := s.completed + {phase.entry})
       case Commit =>
         if !phase.Committing? then s
         else s.(session := Up(phase.entry, batch, Reading), checkpoint := phase.entry)
       case Start => s)
  }

  function Run(s: State, events: seq<Event>): State {
    if events == [] then s else Next(Run(s, events[..|events| - 1]), events[|events| - 1])
  }

  // ---------------------------------------------------------------- the iterator object

  class DataConsumer {
    var stream: seq<bool>
    var checkpoint: nat
    var session: Session
    ghost var handed: seq<seq<nat>>
    ghost var completed: set<nat>

    ghost function Current(): State
      reads this
    {
      State(stream, checkpoint, session, handed, completed)
    }

    /** The checkpoint is read once, when the run begins. */
    method Begin()
      requires session.Down?
      modifies this`session, this`handed
      ensures Current() == Next(old(Current()), Start)
    {
      session := Up(checkpoint, [], Reading);
      handed := handed + [[]];
    }

    method ReadDataMessages(lastId: nat, count: nat) returns (entries: seq<nat>, decoded: bool)
      ensures entries == ReadAfter(|stream|, lastId, count)
      ensures decoded <==> AllDecode(stream, entries)
    {
      entries, decoded := [], true;
      ghost var all := ReadAfter(|stream|, lastId, count);
      while lastId + |entries| < |stream| && |entries| < count
        invariant |entries| <= |all| && entries == all[..|entries|]
        invariant decoded <==> AllDecode(stream, entries)
        decreases |all| - |entries|
      {
        var entry := lastId + |entries| + 1;
        DecodeOneMore(stream, entries, entry);
        decoded := decoded && stream[entry - 1];
        entries := entries + [entry];
      }
    }

    /** The head of the loop: a read behind the current entry, which ends the run if it raises. */
    method ReadOn(count: nat)
      requires session.Up? && session.phase.Reading? && session.batch == []
      modifies this`session
      ensures Current() == Next(old(Current()), Read(count))
    {
      var entries, decoded := ReadDataMessages(session.current, count);
      session := if decoded then Up(session.current, entries, Reading) else Down;
    }

    method HandOverNext() returns (entry: nat)
      requires session.Up? && session.phase.Reading? && session.batch != []
      modifies this`session, this`handed
      ensures Current() == Next(old(Current()), HandOver)
      ensures entry == old(session.batch[0])
    {
      entry := session.batch[0];
      session := Up(session.current, session.batch[1..], Processing(entry));
      handed := WithEntry(handed, entry);
    }

    method CommitDataMessage()
      requires session.Up? && session.phase.Committing?
      modifies this`session, this`checkpoint
      ensures Current() == Next(old(Current()), Commit)
    {
      checkpoint := session.phase.entry;
      session := Up(checkpoint, session.batch, Reading);
    }
  }

  // ---------------------------------------------------------------- what holds in every run

  predicate Consecutive(entries: seq<nat>) {
    forall i :: 0 < i < |entries| ==> entries[i] == entries[i - 1] + 1
  }

  function Total(handed: seq<seq<nat>>): nat {
    if handed == [] then 0 else Total(handed[..|handed| - 1]) + |handed[|handed| - 1]|
  }

  ghost predicate HandedOver(handed: seq<seq<nat>>, entry: nat) {
    exists i :: 0 <= i < |handed| && entry in handed[i]
  }

  function Fresh(stream: seq<bool>): State { State(stream, 0, Down, [], {}) }

  /** The highest entry handed over lies at most one past the checkpoint. */
  ghost predicate Reached(s: State, highest: nat) {
    && s.checkpoint <= highest <= s.checkpoint + 1
    && (forall entry: nat :: HandedOver(s.handed, entry) <==> 1 <= entry <= highest)
  }

  /** The entry the iterator will hand over next. */
  function Position(session: Session): nat
    requires session.Up?
  {
    session.current + if session.phase.Reading? then 0 else 1
  }

  ghost predicate SessionInOrder(s: State, highest: nat) {
    s.session.Up? ==>
      && s.handed != []
      && s.session.current == s.checkpoint
      && (!s.session.phase.Reading? ==> s.session.phase.entry == s.checkpoint + 1 && highest == s.checkpoint + 1)
      && (s.session.phase.Committing? ==> s.session.phase.entry in s.completed)
      && s.session.batch == Range(Position(s.session), Position(s.session) + |s.session.batch|)
      && var last := s.handed[|s.handed| - 1];
         if last == [] then s.session.phase.Reading?
         else last[|last| - 1] == Position(s.session) && highest == Position(s.session)
  }

  /** The current run may still hand over again the one entry that was handed over but not committed. */
  ghost predicate MayRepeat(s: State, highest: nat) {
    s.session.Up? && s.handed != [] && s.handed[|s.handed| - 1] == [] && highest == s.checkpoint + 1
  }

  ghost predicate InOrder(s: State, highest: nat) {
    && Reached(s, highest) && SessionInOrder(s, highest)
    && (forall entry: nat :: 1 <= entry <= s.checkpoint ==> entry in s.completed)
    && (forall i :: 0 <= i < |s.handed| ==> Consecutive(s.handed[i]))
    && Total(s.handed) + (if MayRepeat(s, highest) then 1 else 0)
       <= highest + if s.handed == [] then 0 else |s.handed| - 1
  }

  function HighestAfter(s: State, highest: nat, e: Event): nat {
    if e.HandOver? && s.session.Up? && s.session.phase.Reading? && s.session.batch != []
    then s.session.batch[0]
    else highest
  }

  lemma HandedAppend(handed: seq<seq<nat>>, entry: nat, other: nat)
    requires handed != []
    ensures HandedOver(WithEntry(handed, entry), other) <==> HandedOver(handed, other) || other == entry
    ensures Total(WithEntry(handed, entry)) == Total(handed) + 1
  {
    var n := |handed| - 1;
    var more := WithEntry(handed, entry);
    assert more[..n] == handed[..n];
    assert more[n] == handed[n] + [entry];
    forall i | 0 <= i < |handed| && other in handed[i] ensures other in more[i] {}
    assert entry in more[n];
  }

  lemma HandedStart(handed: seq<seq<nat>>, other: nat)
    ensures HandedOver(handed + [[]], other) <==> HandedOver(handed, other)
    ensures Total(handed + [[]]) == Total(handed)
  {
    var more := handed + [[]];
    assert more[..|handed|] == handed;
    forall i | 0 <= i < |handed| ensures more[i] == handed[i] {}
  }

  lemma StartStep(s: State, highest: nat)
    requires InOrder(s, highest) && s.session.Down?
    ensures InOrder(Next(s, Start), highest)
  {
    hide HandedOver, Total;
    forall other: nat
      ensures HandedOver(s.handed + [[]], other) <==> HandedOver(s.handed, other)
    {
      HandedStart(s.handed, other);
    }
    HandedStart(s.handed, 0);
    if s.handed == [] {
      assert highest == 0 by {
        if highest > 0 { NothingHanded(s.handed, highest); }
      }
    }
  }

  lemma NothingHanded(handed: seq<seq<nat>>, entry: nat)
    requires handed == []
    ensures !HandedOver(handed, entry)
  {
  }

  lemma HandOverStep(s: State, highest: nat)
    requires InOrder(s, highest) && s.session.Up? && s.session.phase.Reading? && s.session.batch != []
    ensures InOrder(Next(s, HandOver), s.session.batch[0])
  {
    hide HandedOver, Total;
    var entry := s.session.batch[0];
    forall other: nat
      ensures HandedOver(WithEntry(s.handed, entry), other) <==> HandedOver(s.handed, other) || other == entry
    {
      HandedAppend(s.handed, entry, other);
    }
    HandedAppend(s.handed, entry, 0);
  }

  lemma Step(s: State, highest: nat, e: Event)
    requires InOrder(s, highest)
    ensures InOrder(Next(s, e), HighestAfter(s, highest, e))
    ensures HighestAfter(s, highest, e) >= highest
  {
    hide HandedOver, Total;
    if e.Start? && s.session.Down? {
      StartStep(s, highest);
    } else if e.HandOver? && s.session.Up? && s.session.phase.Reading? && s.session.batch != [] {
      HandOverStep(s, highest);
    }
  }

  lemma {:induction false} EveryRun(stream: seq<bool>, events: seq<Event>) returns (highest: nat)
    ensures InOrder(Run(Fresh(stream), events), highest)
  {
    hide Next, InOrder;
    if events == [] {
      highest := 0;
      FreshInOrder(stream);
    } else {
      var before := EveryRun(stream, events[..|events| - 1]);
      var s, e := Run(Fresh(stream), events[..|events| - 1]), events[|events| - 1];
      Step(s, before, e);
      highest := HighestAfter(s, before, e);
    }
  }

  lemma FreshInOrder(stream: seq<bool>)
    ensures InOrder(Fresh(stream), 0)
  {
  }

  /**
   At least once: whatever the crashes, every entry up to the checkpoint was
   handed over and its body completed, and each run hands entries over in
   stream order without gaps.
   */
  lemma AtLeastOnce(stream: seq<bool>, events: seq<Event>)
    ensures var s := Run(Fresh(stream), events);
      && (forall entry: nat :: 1 <= entry <= s.checkpoint ==> HandedOver(s.handed, entry) && entry in s.completed)
      && (forall i :: 0 <= i < |s.handed| ==> Consecutive(s.handed[i]))
  {
    hide Run, HandedOver;
    var highest := EveryRun(stream, events);
  }

  /**
   Bounded repeats: the entries handed over are the first few of the stream,
   and at most one is repeated per restart.
   */
  lemma RepeatsBounded(stream: seq<bool>, events: seq<Event>) returns (distinct: nat)
    ensures var s := Run(Fresh(stream), events);
      && (forall entry: nat :: HandedOver(s.handed, entry) <==> 1 <= entry <= distinct)
      && distinct <= s.checkpoint + 1
      && Total(s.handed) <= distinct + if s.handed == [] then 0 else |s.handed| - 1
  {
    hide Run, HandedOver, Total;
    distinct := EveryRun(stream, events);
  }

  // ---------------------------------------------------------------- an entry that cannot be decoded

  ghost predicate Blocked(s: State, poison: nat) {
    && s.checkpoint < poison <= |s.stream| && !s.stream[poison - 1]
    && (s.session.Up? ==> s.session == Up(s.checkpoint, [], Reading))
  }

  /**
   A read decodes its whole slice before anything of it is handed over: an
   undecodable entry within reach of the checkpoint stops every later run at
   once, and even the good entries before it are never handed over.
   */
  lemma {:induction false} PoisonBlocks(s: State, poison: nat, events: seq<Event>)
    requires Blocked(s, poison)
    requires forall e :: e in events && e.Read? ==> s.checkpoint + e.count >= poison
    ensures var end := Run(s, events);
      Blocked(end, poison) && end.checkpoint == s.checkpoint && Total(end.handed) == Total(s.handed)
  {
    hide Total;
    if events != [] {
      var before, e := events[..|events| - 1], events[|events| - 1];
      PoisonBlocks(s, poison, before);
      var mid := Run(s, before);
      if e.Start? && mid.session.Down? {
        HandedStart(mid.handed, 0);
      } else if e.Read? && mid.session.Up? {
        var entries := ReadAfter(|mid.stream|, mid.checkpoint, e.count);
        assert e in events && entries[poison - mid.checkpoint - 1] == poison;
        assert !AllDecode(mid.stream, entries);
      }
    }
  }

  // ---------------------------------------------------------------- what gets through before it

  /** The first entry behind the checkpoint that does not decode; nothing is under way. */
  ghost predicate FirstPoison(s: State, poison: nat) {
    && s.session.Down? && s.checkpoint < poison <= |s.stream| && !s.stream[poison - 1]
    && forall i :: s.checkpoint <= i < poison - 1 ==> s.stream[i]
  }

  ghost predicate ReadsWith(events: seq<Event>, count: nat) {
    forall e :: e in events && e.Read? ==> e.count == count
  }

  lemma {:induction false} RunAppend(s: State, first: seq<Event>, more: seq<Event>)
    ensures Run(s, first + more) == Run(Run(s, first), more)
  {
    if more == [] {
      assert first + more == first;
    } else {
      RunAppend(s, first, more[..|more| - 1]);
      assert (first + more)[..|first + more| - 1] == first + more[..|more| - 1];
    }
  }

  function OneEntry(): seq<Event> { [HandOver, BodyCompletes, Commit] }

  /** A run in the middle of its batch hands over, completes and commits the next entry. */
  lemma EntryGoesThrough(s: State)
    requires s.session.Up? && s.session.phase.Reading? && s.session.batch != []
    ensures var after := Run(s, OneEntry());
      && after.checkpoint == s.session.batch[0] && after.stream == s.stream
      && after.session == Up(s.session.batch[0], s.session.batch[1..], Reading)
  {
    var a := Next(s, HandOver);
    var b := Next(a, BodyCompletes);
    assert OneEntry()[..2] == [HandOver, BodyCompletes] && [HandOver, BodyCompletes][..1] == [HandOver];
    assert [HandOver][..0] == [];
    assert Run(s, [HandOver]) == a;
    assert Run(s, [HandOver, BodyCompletes]) == b;
    assert Run(s, OneEntry()) == Next(b, Commit);
  }

  /** The batch read so far can be worked off to its end. */
  lemma {:induction false} BatchGoesThrough(s: State, count: nat) returns (events: seq<Event>)
    requires s.session.Up? && s.session.phase.Reading? && s.session.current == s.checkpoint
    requires s.session.batch == Range(s.checkpoint, s.checkpoint + |s.session.batch|)
    ensures ReadsWith(events, count) && Crash !in events
    ensures var after := Run(s, events);
      && after.checkpoint == s.checkpoint + |s.session.batch| && after.stream == s.stream
      && after.session == Up(after.checkpoint, [], Reading)
    decreases |s.session.batch|
  {
    if s.session.batch == [] {
      events := [];
    } else {
      EntryGoesThrough(s);
      var next := Run(s, OneEntry());
      assert next.session.batch == Range(next.checkpoint, next.checkpoint + |next.session.batch|);
      var rest := BatchGoesThrough(next, count);
      events := OneEntry() + rest;
      RunAppend(s, OneEntry(), rest);
    }
  }

  /** A fresh run whose first read stops short of the poison reads its whole slice. */
  lemma FirstRead(s: State, poison: nat, count: nat)
    requires FirstPoison(s, poison) && s.checkpoint + count < poison
    ensures Run(s, [Start, Read(count)])
         == s.(session := Up(s.checkpoint, Range(s.checkpoint, s.checkpoint + count), Reading),
               handed := s.handed + [[]])
  {
    assert [Start, Read(count)][..1] == [Start] && [Start][..0] == [];
    var started := Next(s, Start);
    assert Run(s, [Start]) == started;
    var entries := ReadAfter(|s.stream|, s.checkpoint, count);
    assert entries == Range(s.checkpoint, s.checkpoint + count);
    assert AllDecode(s.stream, entries);
  }

  lemma CrashEnds(s: State)
    requires s.session.Up?
    ensures Run(s, [Crash]) == s.(session := Down)
  {
    assert [Crash][..0] == [];
    assert Run(s, [Crash]) == Next(Run(s, []), Crash);
  }

  /** From there every entry before the poison can be committed, restarting once for each but the last slice. */
  lemma {:induction false} EntriesGoThrough(s: State, poison: nat, count: nat) returns (events: seq<Event>)
    requires FirstPoison(s, poison) && 0 < count && s.checkpoint + count < poison
    ensures ReadsWith(events, count) && Run(s, events).checkpoint == poison - 1
    decreases poison - s.checkpoint
  {
    var begin := [Start, Read(count)];
    var reading := Run(s, begin);
    FirstRead(s, poison, count);
    if s.checkpoint + count == poison - 1 {
      var rest := BatchGoesThrough(reading, count);
      events := begin + rest;
      RunAppend(s, begin, rest);
    } else {
      EntryGoesThrough(reading);
      var committed := Run(reading, OneEntry());
      var down := Run(committed, [Crash]);
      CrashEnds(committed);
      var rest := EntriesGoThrough(down, poison, count);
      events := begin + OneEntry() + [Crash] + rest;
      RunAppend(s, begin, OneEntry());
      RunAppend(s, begin + OneEntry(), [Crash]);
      RunAppend(s, begin + OneEntry() + [Crash], rest);
    }
  }

  /**
   With a fixed read count the entries before the first undecodable one can be
   handed over and committed, all of them, exactly if a read from the
   checkpoint stops short of it; otherwise the checkpoint never moves again.
   */
  lemma PoisonIsReachedIff(s: State, poison: nat, count: nat)
    requires FirstPoison(s, poison) && count > 0 && s.checkpoint + 1 < poison
    ensures (exists events :: ReadsWith(events, count) && Run(s, events).checkpoint == poison - 1)
       <==> s.checkpoint + count < poison
    ensures (exists events :: ReadsWith(events, count) && Total(Run(s, events).handed) > Total(s.handed))
       <==> s.checkpoint + count < poison
  {
    hide Run, FirstPoison, Total;
    if s.checkpoint + count < poison {
      var events := EntriesGoThrough(s, poison, count);
      var one := OneHandedOver(s, poison, count);
      assert ReadsWith(one, count);
    } else {
      forall events | ReadsWith(events, count)
        ensures Run(s, events).checkpoint == s.checkpoint && Total(Run(s, events).handed) == Total(s.handed)
      {
        assert Blocked(s, poison) by { PoisonAhead(s, poison); }
        PoisonBlocks(s, poison, events);
      }
    }
  }

  lemma PoisonAhead(s: State, poison: nat)
    requires FirstPoison(s, poison)
    ensures Blocked(s, poison)
  {
  }

  lemma OneHandedOver(s: State, poison: nat, count: nat) returns (events: seq<Event>)
    requires FirstPoison(s, poison) && 0 < count && s.checkpoint + count < poison
    ensures ReadsWith(events, count) && Total(Run(s, events).handed) > Total(s.handed)
  {
    hide Total, Run;
    FirstRead(s, poison, count);
    var reading := Run(s, [Start, Read(count)]);
    events := [Start, Read(count)] + [HandOver];
    RunAppend(s, [Start, Read(count)], [HandOver]);
    HandedStart(s.handed, 0);
    OneHandOver(reading);
  }

  lemma OneHandOver(s: State)
    requires s.session.Up? && s.session.phase.Reading? && s.session.batch != [] && s.handed != []
    ensures Total(Run(s, [HandOver]).handed) == Total(s.handed) + 1
  {
    hide Total;
    assert [HandOver][..0] == [];
    HandedAppend(s.handed, s.session.batch[0], 0);
  }

  // ---------------------------------------------------------------- how far it gets without a crash

  /** The end of the last slice of count entries from the given position that stops short of the poison. */
  function LastSlice(start: nat, poison: nat, count: nat): (last: nat)
    requires start < poison && count > 0
    ensures start <= last
  {
    start + (poison - 1 - start) / count * count
  }

  lemma SliceBySlice(start: nat, poison: nat, count: nat)
    requires start < poison && count > 0
    ensures start + count >= poison ==> LastSlice(start, poison, count) == start
    ensures start + count < poison ==> LastSlice(start, poison, count) == LastSlice(start + count, poison, count)
    ensures LastSlice(start, poison, count) < poison <= LastSlice(start, poison, count) + count
  {
    var rest := poison - 1 - start;
    assert rest == rest / count * count + rest % count;
    if rest >= count {
      assert (rest - count) / count == rest / count - 1 by {
        DividedLess(rest, count);
      }
    }
  }

  lemma DividedLess(n: int, d: int)
    requires n >= d > 0
    ensures (n - d) / d == n / d - 1
  {
    var more := n / d - 1 - (n - d) / d;
    var rests := (n - d) % d - n % d;
    assert more * d == rests by {
      assert n == n / d * d + n % d;
      assert n - d == (n - d) / d * d + (n - d) % d;
    }
    if more >= 1 {
      Grows(more, d);
    } else if more <= -1 {
      Grows(-more, d);
    }
  }

  lemma Grows(times: int, d: int)
    requires times >= 1 && d > 0
    ensures times * d >= d
  {
  }

  /** A run reads whole slices counted from where it started, as long as it has not met the poison. */
  ghost predicate OnSlices(s: State, start: nat, poison: nat, count: nat)
    requires start < poison && count > 0
  {
    && start <= s.checkpoint < poison <= |s.stream| && !s.stream[poison - 1]
    && (forall i :: start <= i < poison - 1 ==> s.stream[i])
    && s.checkpoint <= LastSlice(start, poison, count)
    && match s.session
       case Down => s.checkpoint == start || s.checkpoint == LastSlice(start, poison, count)
       case Up(current, batch, phase) =>
         var position := Position(s.session);
         && s.handed != [] && current == s.checkpoint
         && (!phase.Reading? ==> phase.entry == current + 1)
         && batch == Range(position, position + |batch|)
         && position + |batch| < poison
         && LastSlice(position + |batch|, poison, count) == LastSlice(start, poison, count)
  }

  /** A read either ends the run at the last slice or takes in the next one. */
  lemma ReadOnSlices(s: State, start: nat, poison: nat, count: nat)
    requires start < poison && count > 0 && OnSlices(s, start, poison, count)
    ensures OnSlices(Next(s, Read(count)), start, poison, count)
  {
    if s.session.Up? && s.session.phase.Reading? && s.session.batch == [] {
      var current := s.session.current;
      var entries := ReadAfter(|s.stream|, current, count);
      SliceBySlice(current, poison, count);
      if current + count >= poison {
        assert entries[poison - current - 1] == poison;
        assert !AllDecode(s.stream, entries);
      } else {
        assert entries == Range(current, current + count);
      }
    }
  }

  lemma HandOverOnSlices(s: State, start: nat, poison: nat, count: nat, entry: nat)
    requires start < poison && count > 0 && OnSlices(s, start, poison, count) && entry > LastSlice(start, poison, count)
    ensures OnSlices(Next(s, HandOver), start, poison, count)
    ensures HandedOver(Next(s, HandOver).handed, entry) <==> HandedOver(s.handed, entry)
  {
    hide HandedOver;
    if s.session.Up? && s.session.phase.Reading? && s.session.batch != [] {
      HandedAppend(s.handed, s.session.batch[0], entry);
      assert s.session.batch[1..] == Range(s.session.batch[0], s.session.batch[0] + |s.session.batch[1..]|);
    }
  }

  lemma StepOnSlices(s: State, start: nat, poison: nat, count: nat, e: Event, entry: nat)
    requires start < poison && count > 0 && OnSlices(s, start, poison, count) && entry > LastSlice(start, poison, count)
    requires !e.Crash? && (e.Read? ==> e.count == count)
    ensures OnSlices(Next(s, e), start, poison, count)
    ensures HandedOver(Next(s, e).handed, entry) <==> HandedOver(s.handed, entry)
  {
    hide HandedOver;
    match e
    case Read(_) => ReadOnSlices(s, start, poison, count);
    case HandOver => HandOverOnSlices(s, start, poison, count, entry);
    case Start =>
      HandedStart(s.handed, entry);
      SliceBySlice(start, poison, count);
      SliceBySlice(LastSlice(start, poison, count), poison, count);
    case _ =>
  }

  lemma {:induction false} RunOnSlices(s: State, poison: nat, count: nat, events: seq<Event>, entry: nat)
    requires FirstPoison(s, poison) && count > 0 && entry > LastSlice(s.checkpoint, poison, count)
    requires ReadsWith(events, count) && Crash !in events
    ensures OnSlices(Run(s, events), s.checkpoint, poison, count)
    ensures HandedOver(Run(s, events).handed, entry) <==> HandedOver(s.handed, entry)
  {
    hide OnSlices, HandedOver, Next;
    if events == [] {
      DownOnSlices(s, poison, count);
    } else {
      var before, e := events[..|events| - 1], events[|events| - 1];
      RunOnSlices(s, poison, count, before, entry);
      assert e in events;
      StepOnSlices(Run(s, before), s.checkpoint, poison, count, e, entry);
    }
  }

  lemma DownOnSlices(s: State, poison: nat, count: nat)
    requires FirstPoison(s, poison) && count > 0
    ensures OnSlices(s, s.checkpoint, poison, count)
  {
  }

  /** Whole slices can be worked off up to the last one, where the next read ends the run. */
  lemma {:induction false} SlicesGoThrough(s: State, poison: nat, count: nat) returns (events: seq<Event>)
    requires s.checkpoint < poison <= |s.stream| && !s.stream[poison - 1] && count > 0
    requires forall i :: s.checkpoint <= i < poison - 1 ==> s.stream[i]
    requires s.session == Up(s.checkpoint, [], Reading)
    ensures ReadsWith(events, count) && Crash !in events
    ensures Run(s, events).session.Down? && Run(s, events).checkpoint == LastSlice(s.checkpoint, poison, count)
    decreases poison - s.checkpoint
  {
    SliceBySlice(s.checkpoint, poison, count);
    var entries := ReadAfter(|s.stream|, s.checkpoint, count);
    var reading := Next(s, Read(count));
    assert [Read(count)][..0] == [];
    assert Run(s, [Read(count)]) == reading;
    if s.checkpoint + count >= poison {
      assert entries[poison - s.checkpoint - 1] == poison;
      assert !AllDecode(s.stream, entries);
      events := [Read(count)];
    } else {
      assert entries == Range(s.checkpoint, s.checkpoint + count);
      var batch := BatchGoesThrough(reading, count);
      var rest := SlicesGoThrough(Run(reading, batch), poison, count);
      events := [Read(count)] + batch + rest;
      RunAppend(s, [Read(count)], batch);
      RunAppend(s, [Read(count)] + batch, rest);
    }
  }

  /**
   Without a crash and with a fixed read count, what can get through is the
   whole slices before the first undecodable entry: no run hands over or
   commits anything behind the last of them, some run commits all of them, and
   once they are committed nothing is handed over ever after, restarts and
   crashes or not.
   */
  lemma WithoutCrash(s: State, poison: nat, count: nat)
    requires FirstPoison(s, poison) && count > 0
    ensures forall events :: ReadsWith(events, count) && Crash !in events ==>
              && Run(s, events).checkpoint <= LastSlice(s.checkpoint, poison, count)
              && forall entry :: entry > LastSlice(s.checkpoint, poison, count) ==>
                   (HandedOver(Run(s, events).handed, entry) <==> HandedOver(s.handed, entry))
    ensures exists events :: ReadsWith(events, count) && Crash !in events
              && Run(s, events).checkpoint == LastSlice(s.checkpoint, poison, count)
    ensures forall events, more ::
              ReadsWith(events, count) && Crash !in events && ReadsWith(more, count)
                && Run(s, events).checkpoint == LastSlice(s.checkpoint, poison, count) ==>
                && Run(s, events + more).checkpoint == LastSlice(s.checkpoint, poison, count)
                && Total(Run(s, events + more).handed) == Total(Run(s, events).handed)
  {
    hide Run, HandedOver, Total, OnSlices, ReadsWith;
    var last := LastSlice(s.checkpoint, poison, count);
    forall events | ReadsWith(events, count) && Crash !in events
      ensures Run(s, events).checkpoint <= last
      ensures forall entry :: entry > last ==>
                (HandedOver(Run(s, events).handed, entry) <==> HandedOver(s.handed, entry))
    {
      RunOnSlices(s, poison, count, events, last + 1);
      OnlyToLast(Run(s, events), s.checkpoint, poison, count);
      forall entry | entry > last
        ensures HandedOver(Run(s, events).handed, entry) <==> HandedOver(s.handed, entry)
      {
        RunOnSlices(s, poison, count, events, entry);
      }
    }
    var through := AllSlices(s, poison, count);
    forall events, more | ReadsWith(events, count) && Crash !in events && ReadsWith(more, count)
                          && Run(s, events).checkpoint == last
      ensures Run(s, events + more).checkpoint == last
      ensures Total(Run(s, events + more).handed) == Total(Run(s, events).handed)
    {
      RunOnSlices(s, poison, count, events, last + 1);
      NothingMore(s, poison, count, events, more);
    }
  }

  lemma OnlyToLast(s: State, start: nat, poison: nat, count: nat)
    requires start < poison && count > 0 && OnSlices(s, start, poison, count)
    ensures s.checkpoint <= LastSlice(start, poison, count)
    ensures s.checkpoint == LastSlice(start, poison, count) ==> Blocked(s, poison)
  {
    if s.session.Up? {
      SliceBySlice(Position(s.session) + |s.session.batch|, poison, count);
    }
  }

  lemma AllSlices(s: State, poison: nat, count: nat) returns (events: seq<Event>)
    requires FirstPoison(s, poison) && count > 0
    ensures ReadsWith(events, count) && Crash !in events
    ensures Run(s, events).checkpoint == LastSlice(s.checkpoint, poison, count)
  {
    var started := Next(s, Start);
    assert [Start][..0] == [];
    assert Run(s, [Start]) == started;
    var rest := SlicesGoThrough(started, poison, count);
    events := [Start] + rest;
    RunAppend(s, [Start], rest);
  }

  lemma NothingMore(s: State, poison: nat, count: nat, events: seq<Event>, more: seq<Event>)
    requires s.checkpoint < poison && count > 0 && OnSlices(Run(s, events), s.checkpoint, poison, count)
    requires Run(s, events).checkpoint == LastSlice(s.checkpoint, poison, count) && ReadsWith(more, count)
    ensures Run(s, events + more).checkpoint == LastSlice(s.checkpoint, poison, count)
    ensures Total(Run(s, events + more).handed) == Total(Run(s, events).handed)
  {
    hide Run, Total, OnSlices;
    OnlyToLast(Run(s, events), s.checkpoint, poison, count);
    SliceBySlice(s.checkpoint, poison, count);
    RunAppend(s, events, more);
    PoisonBlocks(Run(s, events), poison, more);
  }

  // ---------------------------------------------------------------- no run gets past it

  ghost predicate Short(s: State, poison: nat) {
    && s.checkpoint < poison <= |s.stream| && !s.stream[poison - 1]
    && (s.session.Up? ==>
          && s.session.current < poison
          && (forall i :: 0 <= i < |s.session.batch| ==> s.session.batch[i] < poison)
          && (!s.session.phase.Reading? ==> s.session.phase.entry < poison))
  }

  lemma ReadStopsShort(stream: seq<bool>, current: nat, count: nat, poison: nat)
    requires current < poison <= |stream| && !stream[poison - 1]
    ensures var entries := ReadAfter(|stream|, current, count);
      AllDecode(stream, entries) ==> forall i :: 0 <= i < |entries| ==> entries[i] < poison
  {
    var entries := ReadAfter(|stream|, current, count);
    if |entries| >= poison - current {
      assert entries[poison - current - 1] == poison;
      assert !AllDecode(stream, entries);
    }
  }

  /** Whatever counts it reads with, no run ever commits an undecodable entry or one behind it. */
  lemma {:induction false} NeverPastPoison(s: State, poison: nat, events: seq<Event>)
    requires Short(s, poison)
    ensures Short(Run(s, events), poison)
  {
    if events != [] {
      var before, e := events[..|events| - 1], events[|events| - 1];
      NeverPastPoison(s, poison, before);
      var mid := Run(s, before);
      if e.Read? && mid.session.Up? {
        ReadStopsShort(mid.stream, mid.session.current, e.count, poison);
      }
    }
  }
}
