/**
 The registry's worker statistics, kept up to date by increments beside every
 record write: what they amount to after any run, and when that is the truth.
 */
module ExecutionCounters {
  import opened Wrappers
  import opened WaitStore

  datatype Record = Record(messageId: string, parentMessageId: string, workerId: string, status: string,
                           startedAt: int, finishedAt: int, cancelRequested: bool, cancelReason: string)

  /** Execution records, counter fields by worker, and each worker's active-execution index. */
  datatype Books = Books(records: map<string, Record>,
                         counts: map<(string, string), int>, active: map<string, set<string>>)

  datatype Write =
    | Initialize(id: string, record: Record)
    | Save(id: string, record: Record)
    | UpdateStatus(id: string, status: string, workerId: Option<string>)
    | UpdateFields(id: string, newStatus: Option<string>, workerId: Option<string>)
    | MarkCancelling(id: string, reason: string)
    | MarkCancelRequested(id: string, reason: string)
    | MarkFinished(id: string, status: string)

  function LowerChar(c: char): char { if 'A' <= c <= 'Z' then c - 'A' + 'a' else c }

  function Lower(s: string): string { if s == "" then "" else [LowerChar(s[0])] + Lower(s[1..]) }

  /** Lower-casing goes letter by letter and touches nothing but capital letters. */
  lemma {:induction false} LowerEach(s: string)
    ensures |Lower(s)| == |s|
    ensures forall i :: 0 <= i < |s| ==>
              Lower(s)[i] == if 'A' <= s[i] <= 'Z' then ((s[i] as int) + 32) as char else s[i]
  {
    if s != "" {
      LowerEach(s[1..]);
    }
  }

  function StatusCountField(status: string): string { Lower(status) + "_count" }

  function OrElse<T>(o: Option<T>, default: T): T { if o.Some? then o.value else default }

  /** Initializing and saving write whatever is there; every other write needs a record. */
  predicate Takes(records: map<string, Record>, w: Write) { w.Initialize? || w.Save? || w.id in records }

  function Found(records: map<string, Record>, id: string): Option<Record> {
    if id in records then Some(records[id]) else None
  }

  /** The record a write leaves under its id. */
  function NewRecord(records: map<string, Record>, w: Write, now: int): Record
    requires Takes(records, w)
  {
    match w
    case Initialize(_, record) => record
    case Save(_, record) => record
    case UpdateStatus(id, status, workerId) =>
      var r := records[id];
      r.(status := status, startedAt := if status == "RUNNING" && r.startedAt == 0 then now else r.startedAt,
         workerId := OrElse(workerId, r.workerId))
    case UpdateFields(id, status, workerId) =>
      var r := records[id];
      r.(status := OrElse(status, r.status), workerId := OrElse(workerId, r.workerId))
    case MarkCancelling(id, reason) =>
      records[id].(status := "CANCELLING", cancelRequested := true, cancelReason := reason)
    case MarkCancelRequested(id, reason) =>
      var r := records[id];
      r.(cancelRequested := true, cancelReason := if reason != "" then reason else r.cancelReason)
    case MarkFinished(id, status) =>
      var r := records[id];
      r.(status := status, finishedAt := if IsTerminal(status) then now else r.finishedAt)
  }

  // ---------------------------------------------------------------- the recount

  /** What one record in this status contributes to a counter field of its worker. */
  function StatusWeight(status: string, field: string): nat {
    (if field == "total_count" then 1 else 0)
    + (if field == "active_count" && !IsTerminal(status) then 1 else 0)
    + (if status != "" && field == StatusCountField(status) then 1 else 0)
  }

  function Share(r: Option<Record>, worker: string, field: string): nat {
    if r.Some? && r.value.workerId == worker then StatusWeight(r.value.status, field) else 0
  }

  function RecordsOf(records: map<string, Record>, worker: string): set<string> {
    set id | id in records && records[id].workerId == worker
  }

  function ActiveRecords(records: map<string, Record>, worker: string): set<string> {
    set id | id in records && records[id].workerId == worker && !IsTerminal(records[id].status)
  }

  /** The worker's records whose status is counted in the field. */
  function RecordsIn(records: map<string, Record>, worker: string, field: string): set<string> {
    set id | id in records && records[id].workerId == worker && records[id].status != ""
             && Lower(records[id].status) + "_count" == field
  }

  /**
   A counter field by counting records: all of the worker's in total_count, the
   unfinished in active_count, and in every field those whose status it names.
   */
  function Recount(records: map<string, Record>, worker: string, field: string): nat {
    (if field == "total_count" then |RecordsOf(records, worker)| else 0)
    + (if field == "active_count" then |ActiveRecords(records, worker)| else 0)
    + |RecordsIn(records, worker, field)|
  }

  lemma OneLess(ids: set<string>, id: string)
    ensures |ids| == |ids - {id}| + if id in ids then 1 else 0
  {
    if id !in ids {
      assert ids - {id} == ids;
    }
  }

  /** Taking one record away takes it out of each of the sets counted. */
  lemma SetsWithout(records: map<string, Record>, id: string, worker: string, field: string)
    requires id in records
    ensures RecordsOf(records - {id}, worker) == RecordsOf(records, worker) - {id}
    ensures ActiveRecords(records - {id}, worker) == ActiveRecords(records, worker) - {id}
    ensures RecordsIn(records - {id}, worker, field) == RecordsIn(records, worker, field) - {id}
  {
    hide Lower, IsTerminal;
  }

  lemma RecountWithout(records: map<string, Record>, id: string, worker: string, field: string)
    requires id in records
    ensures Recount(records, worker, field)
         == Share(Some(records[id]), worker, field) + Recount(records - {id}, worker, field)
  {
    hide Lower, IsTerminal;
    SetsWithout(records, id, worker, field);
    InEachSet(records, id, worker, field);
    hide RecordsOf, ActiveRecords, RecordsIn;
    OneLess(RecordsOf(records, worker), id);
    OneLess(ActiveRecords(records, worker), id);
    OneLess(RecordsIn(records, worker, field), id);
  }

  lemma InEachSet(records: map<string, Record>, id: string, worker: string, field: string)
    requires id in records
    ensures var own, status := records[id].workerId == worker, records[id].status;
      && (id in RecordsOf(records, worker) <==> own)
      && (id in ActiveRecords(records, worker) <==> own && !IsTerminal(status))
      && (id in RecordsIn(records, worker, field) <==> own && status != "" && Lower(status) + "_count" == field)
  {
    hide Lower, IsTerminal;
  }

  /** Writing one record moves the recount by the difference of the two shares. */
  lemma RecountWrite(records: map<string, Record>, id: string, r: Record, worker: string, field: string)
    ensures Recount(records[id := r], worker, field)
         == Recount(records, worker, field) - Share(Found(records, id), worker, field) + Share(Some(r), worker, field)
  {
    hide Recount;
    RecountWithout(records[id := r], id, worker, field);
    assert records[id := r] - {id} == records - {id};
    if id in records {
      RecountWithout(records, id, worker, field);
    } else {
      assert records - {id} == records;
    }
  }

  // ---------------------------------------------------------------- one write

  function Count(counts: map<(string, string), int>, worker: string, field: string): int {
    if (worker, field) in counts then counts[(worker, field)] else 0
  }

  function ActiveOf(active: map<string, set<string>>, worker: string): set<string> {
    if worker in active then active[worker] else {}
  }

  /** What the statistics update owes the counters: the new record's worker only, by the difference of shares. */
  ghost predicate Counted(before: map<(string, string), int>, prior: Option<Record>, written: Record,
                          after: map<(string, string), int>) {
    forall worker, field ::
      Count(after, worker, field) == Count(before, worker, field)
      + if written.workerId != "" && worker == written.workerId
        then Share(Some(written), worker, field) - Share(prior, worker, field)
        else 0
  }

  function Indexed(active: map<string, set<string>>, id: string, written: Record): map<string, set<string>> {
    if written.workerId == "" then active
    else
      active[written.workerId := if IsTerminal(written.status) then ActiveOf(active, written.workerId) - {id}
                              else ActiveOf(active, written.workerId) + {id}]
  }

  ghost predicate Stepped(before: Books, w: Write, now: int, after: Books) {
    if !Takes(before.records, w) then after == before
    else
      var written := NewRecord(before.records, w, now);
      && after.records == before.records[w.id := written]
      && (if w.Initialize? then after.counts == before.counts && after.active == before.active
          else Counted(before.counts, Found(before.records, w.id), written, after.counts)
               && after.active == Indexed(before.active, w.id, written))
  }

  class WorkerRegistry {
    var records: map<string, Record>
    var counts: map<(string, string), int>
    var active: map<string, set<string>>

    ghost function State(): Books
      reads this
    {
      Books(records, counts, active)
    }

    method HIncrBy(worker: string, field: string, amount: int)
      modifies this`counts
      ensures forall w, f ::
                Count(counts, w, f) == Count(old(counts), w, f) + if w == worker && f == field then amount else 0
    {
      counts := counts[(worker, field) := Count(counts, worker, field) + amount];
    }

    /** The counter half of the statistics update, for a record that names a worker. */
    method IncrementCounters(workerId: string, oldWorkerId: string, oldStatus: string, newStatus: string)
      modifies this`counts
      ensures forall worker, field ::
                Count(counts, worker, field)
                == Count(old(counts), worker, field)
                   + if worker != workerId then 0
                     else StatusWeight(newStatus, field) - if oldWorkerId
                       == workerId then StatusWeight(oldStatus, field) else 0
    {
      hide Count, StatusCountField, IsTerminal;
      var firstSeenByWorker := oldWorkerId != workerId;
      var oldActive := oldWorkerId == workerId && !IsTerminal(oldStatus);
      var newActive := !IsTerminal(newStatus);
      if firstSeenByWorker {
        HIncrBy(workerId, "total_count", 1);
      }
      if firstSeenByWorker || oldStatus != newStatus {
        if oldStatus != "" && oldWorkerId == workerId {
          HIncrBy(workerId, StatusCountField(oldStatus), -1);
        }
        if newStatus != "" {
          HIncrBy(workerId, StatusCountField(newStatus), 1);
        }
      }
      if !oldActive && newActive {
        HIncrBy(workerId, "active_count", 1);
      } else if oldActive && !newActive {
        HIncrBy(workerId, "active_count", -1);
      }
    }

    method UpdateWorkerExecutionStats(oldExecution: Option<Record>, id: string, newExecution: Record)
      modifies this`counts, this`active
      ensures Counted(old(counts), oldExecution, newExecution, counts)
      ensures active == Indexed(old(active), id, newExecution)
    {
      hide Count, StatusWeight, IsTerminal;
      var workerId := newExecution.workerId;
      if workerId == "" {
        return;
      }
      var oldWorkerId := if oldExecution.Some? then oldExecution.value.workerId else "";
      var oldStatus := if oldExecution.Some? then oldExecution.value.status else "";
      IncrementCounters(workerId, oldWorkerId, oldStatus, newExecution.status);
      if !IsTerminal(newExecution.status) {
        active := active[workerId := ActiveOf(active, workerId) + {id}];
      } else {
        active := active[workerId := ActiveOf(active, workerId) - {id}];
      }
    }

    method InitializeExecution(id: string, record: Record, now: int)
      modifies this`records
      ensures Stepped(old(State()), Initialize(id, record), now, State())
    {
      records := records[id := record];
    }

    method SaveExecution(id: string, record: Record, now: int)
      modifies this
      ensures Stepped(old(State()), Save(id, record), now, State())
    {
      hide Counted, Indexed;
      var oldExecution := Found(records, id);
      records := records[id := record];
      UpdateWorkerExecutionStats(oldExecution, id, record);
    }

    method UpdateExecutionStatus(id: string, status: string, workerId: Option<string>, now: int)
      modifies this
      ensures Stepped(old(State()), UpdateStatus(id, status, workerId), now, State())
    {
      hide Counted, Indexed;
      if id !in records {
        return;
      }
      var oldExecution := records[id];
      var current := oldExecution;
      current := current.(status := status);
      if status == "RUNNING" && current.startedAt == 0 {
        current := current.(startedAt := now);
      }
      if workerId.Some? {
        current := current.(workerId := workerId.value);
      }
      records := records[id := current];
      UpdateWorkerExecutionStats(Some(oldExecution), id, current);
    }

    method UpdateExecutionFields(id: string, newStatus: Option<string>, workerId: Option<string>, now: int)
      modifies this
      ensures Stepped(old(State()), UpdateFields(id, newStatus, workerId), now, State())
    {
      hide Counted, Indexed;
      if id !in records {
        return;
      }
      var oldExecution := records[id];
      var current := oldExecution;
      if newStatus.Some? {
        current := current.(status := newStatus.value);
      }
      if workerId.Some? {
        current := current.(workerId := workerId.value);
      }
      records := records[id := current];
      UpdateWorkerExecutionStats(Some(oldExecution), id, current);
    }

    method MarkExecutionCancelling(id: string, reason: string, now: int)
      modifies this
      ensures Stepped(old(State()), MarkCancelling(id, reason), now, State())
    {
      hide Counted, Indexed;
      if id !in records {
        return;
      }
      var oldExecution := records[id];
      var current := oldExecution;
      current := current.(status := "CANCELLING");
      current := current.(cancelRequested := true);
      current := current.(cancelReason := reason);
      records := records[id := current];
      UpdateWorkerExecutionStats(Some(oldExecution), id, current);
    }

    method MarkCancelRequested(id: string, reason: string, now: int)
      modifies this
      ensures Stepped(old(State()), Write.MarkCancelRequested(id, reason), now, State())
    {
      hide Counted, Indexed;
      if id !in records {
        return;
      }
      var oldExecution := records[id];
      var current := oldExecution;
      current := current.(cancelRequested := true);
      if reason != "" {
        current := current.(cancelReason := reason);
      }
      records := records[id := current];
      UpdateWorkerExecutionStats(Some(oldExecution), id, current);
    }

    method MarkExecutionFinished(id: string, status: string, now: int)
      modifies this
      ensures Stepped(old(State()), MarkFinished(id, status), now, State())
    {
      hide Counted, Indexed;
      if id !in records {
        return;
      }
      var oldExecution := records[id];
      var current := oldExecution;
      current := current.(status := status);
      if IsTerminal(status) {
        current := current.(finishedAt := now);
      }
      records := records[id := current];
      UpdateWorkerExecutionStats(Some(oldExecution), id, current);
    }
  }

  // ---------------------------------------------------------------- whole runs

  /** A write takes a record away from a worker. */
  predicate Moves(before: Books, w: Write, now: int) {
    Takes(before.records, w) && w.id in before.records && before.records[w.id].workerId != ""
    && NewRecord(before.records, w, now).workerId != before.records[w.id].workerId
  }

  /** By how much a write makes a counter of this worker run ahead of the recount. */
  function Drift(before: Books, w: Write, now: int, worker: string, field: string): int {
    if !Takes(before.records, w) then 0
    else
      var prior, written := Found(before.records, w.id), NewRecord(before.records, w, now);
      if w.Initialize? then Share(prior, worker, field) - Share(Some(written), worker, field)
      else if worker != written.workerId then Share(prior, worker, field)
      else 0
  }

  lemma StepDrift(before: Books, w: Write, now: int, after: Books, worker: string, field: string)
    requires worker != "" && Stepped(before, w, now, after)
    ensures Count(after.counts, worker, field) - Recount(after.records, worker, field)
         == Count(before.counts, worker, field) - Recount(before.records, worker, field)
           + Drift(before, w, now, worker, field)
  {
    if Takes(before.records, w) {
      RecountWrite(before.records, w.id, NewRecord(before.records, w, now), worker, field);
    }
  }

  datatype Timed = Timed(write: Write, now: int)

  ghost predicate IsRun(states: seq<Books>, writes: seq<Timed>) {
    |states| == |writes| + 1
    && forall i :: 0 <= i < |writes| ==> Stepped(states[i], writes[i].write, writes[i].now, states[i + 1])
  }

  ghost function TotalDrift(states: seq<Books>, writes: seq<Timed>, worker: string, field: string): int
    requires |states| == |writes| + 1
  {
    if writes == [] then 0
    else
      var n := |writes| - 1;
      TotalDrift(states[..n + 1], writes[..n], worker, field)
        + Drift(states[n], writes[n].write, writes[n].now, worker, field)
  }

  lemma IsRunPrefix(states: seq<Books>, writes: seq<Timed>)
    requires IsRun(states, writes) && writes != []
    ensures IsRun(states[..|writes|], writes[..|writes| - 1])
  {
    var n := |writes| - 1;
    forall i | 0 <= i < n
      ensures Stepped(states[..n + 1][i], writes[..n][i].write, writes[..n][i].now, states[..n + 1][i + 1])
    {
      assert Stepped(states[i], writes[i].write, writes[i].now, states[i + 1]);
    }
  }

  /** In every run a counter is ahead of the recount by exactly what the run's writes made it drift. */
  lemma {:induction false} CountersOverRun(states: seq<Books>, writes: seq<Timed>, worker: string, field: string)
    requires IsRun(states, writes) && worker != ""
    ensures Count(states[|writes|].counts, worker, field) - Recount(states[|writes|].records, worker, field)
         == Count(states[0].counts, worker, field) - Recount(states[0].records, worker, field)
            + TotalDrift(states, writes, worker, field)
  {
    hide Stepped, Drift, Recount, Count;
    if writes != [] {
      var n := |writes| - 1;
      IsRunPrefix(states, writes);
      CountersOverRun(states[..n + 1], writes[..n], worker, field);
      StepDrift(states[n], writes[n].write, writes[n].now, states[n + 1], worker, field);
    }
  }

  /** Nobody who initializes a record names a worker; the record may be there already. */
  predicate NamesNoWorker(w: Write) { w.Initialize? ==> w.record.workerId == "" }

  ghost predicate WritesRun(states: seq<Books>, writes: seq<Timed>) {
    IsRun(states, writes) && forall i :: 0 <= i < |writes| ==> NamesNoWorker(writes[i].write)
  }

  ghost predicate NeverMoves(states: seq<Books>, writes: seq<Timed>)
    requires |states| == |writes| + 1
  {
    forall i :: 0 <= i < |writes| ==> !Moves(states[i], writes[i].write, writes[i].now)
  }

  ghost predicate CountersAgree(b: Books) {
    forall worker, field :: worker != "" ==> Count(b.counts, worker, field) == Recount(b.records, worker, field)
  }

  lemma DriftSign(before: Books, w: Write, now: int, worker: string, field: string)
    requires worker != "" && NamesNoWorker(w)
    ensures Drift(before, w, now, worker, field) >= 0
    ensures !Moves(before, w, now) ==> Drift(before, w, now, worker, field) == 0
    ensures Moves(before, w, now) && worker == before.records[w.id].workerId ==>
              Drift(before, w, now, worker, "total_count") >= 1
  {
  }

  predicate MovesFrom(before: Books, w: Timed, worker: string) {
    Moves(before, w.write, w.now) && before.records[w.write.id].workerId == worker
  }

  /** One write that leaves the record with its worker keeps every counter true. */
  lemma AgreementKept(before: Books, w: Write, now: int, after: Books)
    requires Stepped(before, w, now, after) && NamesNoWorker(w) && !Moves(before, w, now)
    requires CountersAgree(before)
    ensures CountersAgree(after)
  {
    hide Stepped, Drift, Moves, Recount, Count;
    forall worker, field | worker != ""
      ensures Count(after.counts, worker, field) == Recount(after.records, worker, field)
    {
      StepDrift(before, w, now, after, worker, field);
      DriftSign(before, w, now, worker, field);
    }
  }

  lemma {:induction false} TotalDriftSign(states: seq<Books>, writes: seq<Timed>, worker: string, field: string)
    requires WritesRun(states, writes) && worker != ""
    ensures TotalDrift(states, writes, worker, field) >= 0
    ensures NeverMoves(states, writes) ==> TotalDrift(states, writes, worker, field) == 0
    ensures field == "total_count" && (exists i :: 0 <= i < |writes| && MovesFrom(states[i], writes[i], worker)) ==>
              TotalDrift(states, writes, worker, field) >= 1
  {
    hide Stepped, Drift, Moves;
    if writes != [] {
      var n := |writes| - 1;
      IsRunPrefix(states, writes);
      TotalDriftSign(states[..n + 1], writes[..n], worker, field);
      DriftSign(states[n], writes[n].write, writes[n].now, worker, field);
      assert forall i :: 0 <= i < n && MovesFrom(states[i], writes[i], worker) ==>
                           MovesFrom(states[..n + 1][i], writes[..n][i], worker);
    }
  }

  /** From agreement, a run ends in agreement exactly when no write in it takes a record away from a worker. */
  lemma CountersAgreeIff(states: seq<Books>, writes: seq<Timed>)
    requires WritesRun(states, writes) && CountersAgree(states[0])
    ensures CountersAgree(states[|writes|]) <==> NeverMoves(states, writes)
  {
    hide Stepped, Drift, Recount, Count, TotalDrift;
    var end := states[|writes|];
    forall worker, field | worker != ""
      ensures Count(end.counts, worker, field)
           == Recount(end.records, worker, field) + TotalDrift(states, writes, worker, field)
      ensures NeverMoves(states, writes) ==> TotalDrift(states, writes, worker, field) == 0
    {
      CountersOverRun(states, writes, worker, field);
      TotalDriftSign(states, writes, worker, field);
    }
    if i :| 0 <= i < |writes| && Moves(states[i], writes[i].write, writes[i].now) {
      var worker := states[i].records[writes[i].write.id].workerId;
      assert MovesFrom(states[i], writes[i], worker);
      TotalDriftSign(states, writes, worker, "total_count");
      assert Count(end.counts, worker, "total_count") != Recount(end.records, worker, "total_count");
    }
  }

  /** No record's status is one whose counter would be total_count or active_count. */
  predicate PlainStatuses(records: map<string, Record>) {
    forall id :: id in records && records[id].status != "" ==>
      Lower(records[id].status) != "total" && Lower(records[id].status) != "active"
  }

  /**
   What agreement says, counter by counter: the number of the worker's records,
   of its unfinished ones, and of those in each status, up to case.
   */
  lemma AgreementSays(b: Books, worker: string, status: string)
    requires CountersAgree(b) && PlainStatuses(b.records) && worker != ""
    requires status != "" && Lower(status) != "total" && Lower(status) != "active"
    ensures Count(b.counts, worker, "total_count") == |RecordsOf(b.records, worker)|
    ensures Count(b.counts, worker, "active_count") == |ActiveRecords(b.records, worker)|
    ensures Count(b.counts, worker, Lower(status) + "_count") == |InStatus(b.records, worker, status)|
  {
    hide RecordsIn, RecordsOf, ActiveRecords, Lower, Count, PlainStatuses;
    OwnFields(b.records, worker, status);
    assert Count(b.counts, worker, Lower(status) + "_count")
        == Recount(b.records, worker, Lower(status) + "_count");
  }

  function InStatus(records: map<string, Record>, worker: string, status: string): set<string> {
    set id | id in records && records[id].workerId == worker && records[id].status != ""
             && Lower(records[id].status) == Lower(status)
  }

  lemma OwnFields(records: map<string, Record>, worker: string, status: string)
    requires PlainStatuses(records) && status != "" && Lower(status) != "total" && Lower(status) != "active"
    ensures RecordsIn(records, worker, "total_count") == {} && RecordsIn(records, worker, "active_count") == {}
    ensures Lower(status) + "_count" != "total_count" && Lower(status) + "_count" != "active_count"
    ensures RecordsIn(records, worker, Lower(status) + "_count") == InStatus(records, worker, status)
  {
    hide Lower;
    assert "total_count" == "total" + "_count" && "active_count" == "active" + "_count";
    SameField("total");
    SameField("active");
    SameField(Lower(status));
  }

  lemma SameField(name: string)
    ensures forall other: string :: other + "_count" == name + "_count" <==> other == name
  {
    forall other: string | other + "_count" == name + "_count"
      ensures other == name
    {
      assert (other + "_count")[..|other|] == other && (name + "_count")[..|name|] == name;
    }
  }

  // ---------------------------------------------------------------- what the writes leave in a record

  /** The status a write asks for, if it asks for one. */
  function AskedStatus(w: Write): Option<string> {
    match w
    case Initialize(_, record) => Some(record.status)
    case Save(_, record) => Some(record.status)
    case UpdateStatus(_, status, _) => Some(status)
    case UpdateFields(_, status, _) => status
    case MarkCancelling(_, _) => Some("CANCELLING")
    case MarkCancelRequested(_, _) => None
    case MarkFinished(_, status) => Some(status)
  }

  function AskedWorker(w: Write): Option<string> {
    match w
    case Initialize(_, record) => Some(record.workerId)
    case Save(_, record) => Some(record.workerId)
    case UpdateStatus(_, _, workerId) => workerId
    case UpdateFields(_, _, workerId) => workerId
    case _ => None
  }

  /** What the latest write to the record that asks for a status, or a worker, asked for. */
  function LatestStatus(writes: seq<Timed>, id: string, initially: string): string {
    if writes == [] then initially
    else
      var last := writes[|writes| - 1].write;
      if last.id == id && AskedStatus(last).Some? then AskedStatus(last).value
      else LatestStatus(writes[..|writes| - 1], id, initially)
  }

  function LatestWorker(writes: seq<Timed>, id: string, initially: string): string {
    if writes == [] then initially
    else
      var last := writes[|writes| - 1].write;
      if last.id == id && AskedWorker(last).Some? then AskedWorker(last).value
      else LatestWorker(writes[..|writes| - 1], id, initially)
  }

  lemma AskedIsWritten(before: Books, w: Write, now: int, after: Books, id: string)
    requires Stepped(before, w, now, after) && id in before.records
    ensures id in after.records
    ensures var was, r := before.records[id], after.records[id];
      && r.status == (if w.id == id then OrElse(AskedStatus(w), was.status) else was.status)
      && r.workerId == (if w.id == id then OrElse(AskedWorker(w), was.workerId) else was.workerId)
  {
    hide Counted, Indexed;
  }

  /** In every run a record has the status and the worker last asked for it. */
  lemma {:induction false} LatestIsStored(states: seq<Books>, writes: seq<Timed>, id: string)
    requires IsRun(states, writes) && id in states[0].records
    ensures id in states[|writes|].records
    ensures var was, r := states[0].records[id], states[|writes|].records[id];
      r.status == LatestStatus(writes, id, was.status) && r.workerId == LatestWorker(writes, id, was.workerId)
  {
    hide Stepped, AskedStatus, AskedWorker;
    if writes != [] {
      var n := |writes| - 1;
      IsRunPrefix(states, writes);
      LatestIsStored(states[..n + 1], writes[..n], id);
      AskedIsWritten(states[n], writes[n].write, writes[n].now, states[n + 1], id);
    }
  }

  /**
   Updates of a stored record keep what it is: its ids, its first start once
   stamped, and a cancel request once made. A finish time is stamped exactly by
   a finish in a final status, and a request by either cancel mark.
   */
  lemma UpdatesKeep(before: Books, w: Write, now: int, after: Books)
    requires Stepped(before, w, now, after) && w.id in before.records && !w.Initialize? && !w.Save?
    ensures w.id in after.records
    ensures var was, r := before.records[w.id], after.records[w.id];
      && r.messageId == was.messageId && r.parentMessageId == was.parentMessageId
      && r.startedAt == (if was.startedAt == 0 && w.UpdateStatus? && w.status == "RUNNING" then now else was.startedAt)
      && r.finishedAt == (if w.MarkFinished? && IsTerminal(w.status) then now else was.finishedAt)
      && r.cancelRequested == (was.cancelRequested || w.MarkCancelling? || w.MarkCancelRequested?)
      && r.cancelReason == (if w.MarkCancelling? || (w.MarkCancelRequested? && w.reason != "") then w.reason
                            else was.cancelReason)
  {
    hide Counted, Indexed;
  }

  // ---------------------------------------------------------------- the active index

  ghost predicate IndexAgrees(b: Books) {
    forall worker :: worker != "" ==> ActiveOf(b.active, worker) == ActiveRecords(b.records, worker)
  }

  /** One write keeps the active indexes true exactly when it takes no active record away from a worker. */
  lemma IndexStepIff(before: Books, w: Write, now: int, after: Books)
    requires Stepped(before, w, now, after) && NamesNoWorker(w) && IndexAgrees(before)
    ensures IndexAgrees(after) <==> !(Moves(before, w, now) && !IsTerminal(before.records[w.id].status))
  {
    if Takes(before.records, w) {
      var written := NewRecord(before.records, w, now);
      if Moves(before, w, now) && !IsTerminal(before.records[w.id].status) {
        var left := before.records[w.id].workerId;
        assert ActiveOf(before.active, left) == ActiveRecords(before.records, left);
        assert w.id in ActiveOf(after.active, left) && w.id !in ActiveRecords(after.records, left);
      } else {
        forall worker | worker != ""
          ensures ActiveOf(after.active, worker) == ActiveRecords(after.records, worker)
        {
          assert forall id :: id != w.id ==>
                   (id in ActiveRecords(after.records, worker) <==> id in ActiveRecords(before.records, worker));
          assert ActiveOf(before.active, worker) == ActiveRecords(before.records, worker);
        }
      }
    }
  }

  lemma {:induction false} IndexAgreesOverRun(states: seq<Books>, writes: seq<Timed>)
    requires WritesRun(states, writes) && NeverMoves(states, writes) && IndexAgrees(states[0])
    ensures IndexAgrees(states[|writes|])
  {
    hide Stepped, Moves, IndexAgrees;
    if writes != [] {
      var n := |writes| - 1;
      IsRunPrefix(states, writes);
      assert NeverMoves(states[..n + 1], writes[..n]) by {
        forall i | 0 <= i < n
          ensures !Moves(states[..n + 1][i], writes[..n][i].write, writes[..n][i].now)
        {
          assert !Moves(states[i], writes[i].write, writes[i].now);
        }
      }
      IndexAgreesOverRun(states[..n + 1], writes[..n]);
      IndexStepIff(states[n], writes[n].write, writes[n].now, states[n + 1]);
    }
  }

  /** The worker a suspended execution is taken away from keeps counting it, in total and as active, for good. */
  ghost predicate Leaks(before: Books, id: string, after: Books)
    requires id in before.records
  {
    var left := before.records[id].workerId;
    && Count(after.counts, left, "total_count") == Recount(after.records, left, "total_count") + 1
    && Count(after.counts, left, "active_count") == Recount(after.records, left, "active_count") + 1
    && id in ActiveOf(after.active, left) && id !in ActiveRecords(after.records, left)
  }

  lemma MovingLeaks(before: Books, w: Write, now: int, after: Books)
    requires NamesNoWorker(w) && Moves(before, w, now) && IsSuspended(before.records[w.id].status)
    requires CountersAgree(before) && IndexAgrees(before) && Stepped(before, w, now, after)
    ensures Leaks(before, w.id, after)
  {
    hide Stepped, Recount, Count, StatusCountField;
    var left := before.records[w.id].workerId;
    SuspendedIsNotTerminal(before.records[w.id].status);
    StepDrift(before, w, now, after, left, "total_count");
    StepDrift(before, w, now, after, left, "active_count");
    SuspendedFields(before.records[w.id].status);
    StaleActive(before, w, now, after);
  }

  lemma StaleActive(before: Books, w: Write, now: int, after: Books)
    requires NamesNoWorker(w) && Moves(before, w, now) && !IsTerminal(before.records[w.id].status)
    requires IndexAgrees(before) && Stepped(before, w, now, after)
    ensures var left := before.records[w.id].workerId;
      w.id in ActiveOf(after.active, left) && w.id !in ActiveRecords(after.records, left)
  {
    hide Counted;
    var left := before.records[w.id].workerId;
    assert ActiveOf(before.active, left) == ActiveRecords(before.records, left);
  }

  /** It happens when another worker resumes the execution. */
  lemma ResumeElsewhereLeaks(before: Books, id: string, worker: string, now: int, after: Books)
    requires id in before.records && before.records[id].workerId != "" && before.records[id].workerId != worker
    requires IsSuspended(before.records[id].status)
    requires CountersAgree(before) && IndexAgrees(before)
    requires Stepped(before, UpdateStatus(id, "RUNNING", Some(worker)), now, after)
    ensures Leaks(before, id, after)
  {
    hide Stepped, Leaks;
    MovingLeaks(before, UpdateStatus(id, "RUNNING", Some(worker)), now, after);
  }

  /**
   And when the resumption is rejected: a RESUME is routed under the id of the
   execution it reattaches to, and the failed route is recorded by initializing
   that very id.
   */
  lemma RejectedResumeLeaks(before: Books, id: string, failed: Record, now: int, after: Books)
    requires id in before.records && before.records[id].workerId != "" && IsSuspended(before.records[id].status)
    requires failed.status == "FAILED" && failed.workerId == ""
    requires CountersAgree(before) && IndexAgrees(before)
    requires Stepped(before, Initialize(id, failed), now, after)
    ensures Leaks(before, id, after)
    ensures after.records[id].status == "FAILED"
  {
    hide Leaks;
    MovingLeaks(before, Initialize(id, failed), now, after);
  }

  lemma SuspendedFields(status: string)
    requires IsSuspended(status)
    ensures StatusCountField(status) != "total_count" && StatusCountField(status) != "active_count"
  {
    assert Lower(status) == [LowerChar(status[0])] + Lower(status[1..]);
    assert StatusCountField(status)[0] == 'w';
  }
}
