/** The scatter-gather join a reply passes once the gate has allowed it. */
module TaskGroupJoin {
  import opened WaitIndex
  import opened WaitStore

  datatype JoinOutcome = NoGroup | Discarded | StillWaiting | Aggregated

  function Join(db: Db, reply: Reply): JoinOutcome {
    var g := reply.header.taskGroupId;
    if g == "" || g !in db.groups then NoGroup
    else if db.groups[g].aborted then Discarded
    else if db.groups[g].completed + 1 < db.groups[g].total then StillWaiting
    else Aggregated
  }

  function AfterJoin(db: Db, reply: Reply): Db {
    if Join(db, reply).StillWaiting? || Join(db, reply).Aggregated? then
      var g := reply.header.taskGroupId;
      db.(results := db.results[(g, reply.header.parentMessageId) := ResultOf(reply)],
          groups := db.groups[g := db.groups[g].(completed := db.groups[g].completed + 1)])
    else db
  }

  function ResultOf(reply: Reply): StoredResult {
    StoredResult(reply.status,
                 match reply.payload case FailurePayload(code, _) => code case ResultPayload(content) => content)
  }

  function JoinedIds(results: map<(string, string), StoredResult>, g: string): set<string> {
    set key | key in results && key.0 == g :: key.1
  }

  /** All results stored for the group, by sub-task id. */
  function GroupResults(results: map<(string, string), StoredResult>, g: string): map<string, StoredResult> {
    map child | child in JoinedIds(results, g) :: results[(g, child)]
  }

  /** aggregate is the reply data an aggregated caller is resumed with. */
  method HandleReply(redis: Redis, reply: Reply) returns (outcome: JoinOutcome, aggregate: map<string, StoredResult>)
    modifies redis`groups, redis`results
    ensures aggregate == if outcome.Aggregated? then GroupResults(redis.results, reply.header.taskGroupId) else map[]
    ensures outcome == Join(old(redis.State()), reply)
    ensures redis.State() == AfterJoin(old(redis.State()), reply)
  {
    var g := reply.header.taskGroupId;
    if g == "" || g !in redis.groups {
      return NoGroup, map[];
    }
    if redis.groups[g].aborted {
      return Discarded, map[];
    }
    redis.HSetResult(g, reply.header.parentMessageId, ResultOf(reply));
    var completed := redis.groups[g].completed + 1;
    redis.HSetGroup(g, redis.groups[g].(completed := completed));
    if completed < redis.groups[g].total {
      return StillWaiting, map[];
    }
    return Aggregated, GroupResults(redis.results, g);
  }
}
