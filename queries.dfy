/**
 * The client side of the extension's statements, which the three database
 * classes share: the loops that read a result set into a Java collection, the
 * loop that binds a statistics file's entries into a `REPLACE INTO` batch, and
 * the listing of the statistics files that bootstrap still has to write.
 */
module Queries {
  import opened Base
  import opened StatsTable
  import opened QueryApi

  /** Why building a database manager failed (the exceptions its constructor lets escape). */
  datatype InitError =
    | ListingFailed              // I/O error while listing the statistics directory
    | QueryFailed(error: SqlError)  // a query threw
    | WriteFailed(error: SqlError)  // the bootstrap batch completed exceptionally

  /** Listing the world's `stats` save directory: the files, each already parsed, or an I/O error. */
  datatype Listing = Listed(files: seq<StatHandler>) | ListingIoError

  /** The parts of the game server the extension reads. */
  datatype Server = Server(stats: Listing)

  /** `getExistingUUIDs`: the stored UUIDs, each once. */
  method GetExistingUuids(qs: QueryService) returns (r: Result<seq<string>, SqlError>)
    ensures !qs.present ==> r == Failure(NoSuchTable)
    ensures qs.present ==> r.Success? || r == Failure(EngineError)
    ensures r.Success? ==> IsEnumeration(r.value, Uuids(qs.rows))
  {
    var rs := qs.SelectDistinctUuids();
    if rs.Failure? {
      return Failure(rs.error);
    }
    var resultSet := rs.value;
    var existing: seq<string> := [];
    var i := 0;
    while i < |resultSet|
      invariant 0 <= i <= |resultSet|
      invariant existing == resultSet[..i]
    {
      existing := existing + [resultSet[i]];
      i := i + 1;
    }
    assert resultSet[..i] == resultSet;
    r := Success(existing);
  }

  /** `getStatForAllPlayers`: each player's value of statistic `stat`, for exactly the players that have one. */
  method GetStatForAllPlayers(qs: QueryService, stat: string) returns (r: Result<map<string, Int32>, SqlError>)
    ensures !qs.present ==> r == Failure(NoSuchTable)
    ensures qs.present ==> r.Success? || r == Failure(EngineError)
    ensures r.Success? ==> r.value == StatColumn(qs.rows, stat)
  {
    var rs := qs.SelectStatValues(stat);
    if rs.Failure? {
      return Failure(rs.error);
    }
    var resultSet := rs.value;
    ghost var column := StatColumn(qs.rows, stat);
    var values: map<string, Int32> := map[];
    var i := 0;
    while i < |resultSet|
      invariant 0 <= i <= |resultSet|
      invariant forall j :: 0 <= j < i ==> resultSet[j].0 in values && values[resultSet[j].0] == resultSet[j].1
      invariant forall u :: u in values ==> exists j :: 0 <= j < i && resultSet[j].0 == u
    {
      values := values[resultSet[i].0 := resultSet[i].1];
      i := i + 1;
    }
    forall u | u in values ensures u in column && values[u] == column[u] {
      var j :| 0 <= j < i && resultSet[j].0 == u;
    }
    assert forall u :: u in column ==> u in values;
    assert values == column;
    r := Success(values);
  }

  /** `getPlayerTopStats`: the player's rows with their ranks, best rank first. */
  method GetPlayerTopStats(qs: QueryService, uuid: string) returns (r: Result<seq<RankedStatistic>, SqlError>)
    ensures !qs.present ==> r == Failure(NoSuchTable)
    ensures qs.present ==> r.Success? || r == Failure(EngineError)
    ensures r.Success? ==> IsEnumeration(r.value, TopStats(qs.rows, uuid)) && OrderedByRank(r.value)
  {
    var rs := qs.SelectPlayerTopStats(uuid);
    if rs.Failure? {
      return Failure(rs.error);
    }
    var resultSet := rs.value;
    var topStats: seq<RankedStatistic> := [];
    var i := 0;
    while i < |resultSet|
      invariant 0 <= i <= |resultSet|
      invariant topStats == resultSet[..i]
    {
      topStats := topStats + [RankedStatistic(resultSet[i].statName, resultSet[i].statValue, resultSet[i].rank)];
      i := i + 1;
    }
    assert resultSet[..i] == resultSet;
    r := Success(topStats);
  }

  /**
   * Binds one statistics file into the batch: the player's UUID once, then one
   * (statistic, value) row per map entry, in the map's iteration order.
   */
  method HandlerBatch(h: StatHandler) returns (batch: seq<Row>)
    ensures IsHandlerBatch(batch, h, h.statMap.Keys)
    ensures forall t :: ApplyBatch(t, batch) == t + HandlerRows(h)
  {
    var playerUuid := h.baseName;
    batch := [];
    var remaining := h.statMap.Keys;
    while remaining != {}
      invariant remaining <= h.statMap.Keys
      invariant IsHandlerBatch(batch, h, h.statMap.Keys - remaining)
      decreases remaining
    {
      var stat :| stat in remaining;
      ghost var prev := batch;
      batch := batch + [Row(playerUuid, stat, h.statMap[stat])];
      forall s | s in h.statMap.Keys - (remaining - {stat})
        ensures exists j :: 0 <= j < |batch| && batch[j].stat == s
      {
        if s == stat {
          assert batch[|prev|].stat == s;
        } else {
          assert s in h.statMap.Keys - remaining;
          var j :| 0 <= j < |prev| && prev[j].stat == s;
          assert batch[j].stat == s;
        }
      }
      remaining := remaining - {stat};
    }
    assert h.statMap.Keys - remaining == h.statMap.Keys;
    forall t ensures ApplyBatch(t, batch) == t + HandlerRows(h) {
      HandlerBatchEffect(t, batch, h);
    }
  }

  /**
   * The single-file `updatePlayerStats` of the two older classes: one
   * `REPLACE INTO` batch holding the file's rows.
   */
  method UpdateHandlerStats(qs: QueryService, h: StatHandler) returns (o: Outcome, ghost batch: seq<Row>)
    requires qs.Valid()
    modifies qs
    ensures qs.Valid() && qs.present == old(qs.present) && qs.subscriptions == old(qs.subscriptions)
    ensures !old(qs.present) ==> o == Failed(NoSuchTable)
    ensures o.Failed? ==> qs.rows == old(qs.rows)
    ensures o.Done? ==> qs.rows == old(qs.rows) + HandlerRows(h)
    ensures qs.executed == old(qs.executed) + [Statement.ReplaceBatch(batch)]
    ensures IsHandlerBatch(batch, h, h.statMap.Keys)
  {
    var rows := HandlerBatch(h);
    o := qs.ReplaceBatch(rows);
    batch := rows;
  }

  /**
   * The first part of bootstrap, shared by all three classes: list the
   * statistics files, fetch the stored UUIDs, and keep the files whose base
   * name is not among them, in listing order.
   */
  method PendingStatFiles(qs: QueryService, server: Server) returns (r: Result<seq<StatHandler>, InitError>)
    ensures server.stats.ListingIoError? ==> r == Failure(ListingFailed)
    ensures server.stats.Listed? && !qs.present ==> r == Failure(QueryFailed(NoSuchTable))
    ensures server.stats.Listed? && qs.present ==> r.Success? || r == Failure(QueryFailed(EngineError))
    ensures r.Success? ==> server.stats.Listed? && r.value == Pending(server.stats.files, Uuids(qs.rows))
  {
    if server.stats.ListingIoError? {
      return Failure(ListingFailed);
    }
    var existing := GetExistingUuids(qs);
    if existing.Failure? {
      return Failure(QueryFailed(existing.error));
    }
    var stored := set u | u in existing.value;
    assert stored == Uuids(qs.rows);
    r := Success(Pending(server.stats.files, stored));
  }

  /** The completion flags of a list of statement outcomes. */
  function DoneFlags(tasks: seq<Outcome>): seq<bool>
  {
    seq(|tasks|, i requires 0 <= i < |tasks| => tasks[i].Done?)
  }

  /**
   * The older bootstrap's `.map(this::updatePlayerStats)`: one independent
   * `REPLACE INTO` per pending file, in listing order; the table ends up
   * holding the rows of exactly the files whose statement completed.
   */
  method WriteEach(qs: QueryService, pending: seq<StatHandler>) returns (tasks: seq<Outcome>)
    requires qs.Valid()
    modifies qs
    ensures qs.Valid() && qs.present == old(qs.present) && qs.subscriptions == old(qs.subscriptions)
    ensures |tasks| == |pending|
    ensures qs.rows == UpsertAll(old(qs.rows), Succeeded(pending, DoneFlags(tasks)))
    ensures !old(qs.present) ==> forall i :: 0 <= i < |tasks| ==> tasks[i] == Failed(NoSuchTable)
    ensures |qs.executed| >= |old(qs.executed)| && qs.executed[..|old(qs.executed)|] == old(qs.executed)
    ensures OneBatchPerFile(qs.executed[|old(qs.executed)|..], pending)
    ensures forall j :: |old(qs.executed)| <= j < |qs.executed| ==> qs.executed[j].ReplaceBatch?
  {
    ghost var start := qs.rows;
    ghost var log0 := qs.executed;
    ghost var stmts: seq<Statement> := [];
    tasks := [];
    var i := 0;
    while i < |pending|
      invariant 0 <= i <= |pending| && |tasks| == i && |stmts| == i
      invariant qs.Valid() && qs.present == old(qs.present) && qs.subscriptions == old(qs.subscriptions)
      invariant qs.rows == UpsertAll(start, Succeeded(pending[..i], DoneFlags(tasks)))
      invariant !old(qs.present) ==> forall j :: 0 <= j < i ==> tasks[j] == Failed(NoSuchTable)
      invariant qs.executed == log0 + stmts
      invariant OneBatchPerFile(stmts, pending[..i])
    {
      ghost var before := qs.rows;
      var o, batch := UpdateHandlerStats(qs, pending[i]);
      WriteStep(start, pending, tasks, o, i, before, qs.rows);
      BatchLogStep(stmts, pending, i, batch);
      stmts := stmts + [Statement.ReplaceBatch(batch)];
      tasks := tasks + [o];
      i := i + 1;
    }
    assert pending[..i] == pending;
    assert qs.executed[|log0|..] == stmts;
    forall j | |log0| <= j < |qs.executed| ensures qs.executed[j].ReplaceBatch? {
      assert qs.executed[j] == stmts[j - |log0|];
    }
  }

  /** `stmts` are one `REPLACE INTO` batch per file of `files`, in order, each holding exactly that file's rows. */
  ghost predicate OneBatchPerFile(stmts: seq<Statement>, files: seq<StatHandler>)
  {
    && |stmts| == |files|
    && forall j :: 0 <= j < |stmts| ==>
         stmts[j].ReplaceBatch? && IsHandlerBatch(stmts[j].batch, files[j], files[j].statMap.Keys)
  }

  /** One more file's batch extends the log of `WriteEach`. */
  lemma BatchLogStep(stmts: seq<Statement>, pending: seq<StatHandler>, i: nat, batch: seq<Row>)
    requires i < |pending| && OneBatchPerFile(stmts, pending[..i])
    requires IsHandlerBatch(batch, pending[i], pending[i].statMap.Keys)
    ensures OneBatchPerFile(stmts + [Statement.ReplaceBatch(batch)], pending[..i + 1])
  {
    assert pending[..i + 1] == pending[..i] + [pending[i]];
  }

  /** One more file written (or not) extends the running result of `WriteEach`. */
  lemma WriteStep(start: Table, pending: seq<StatHandler>, tasks: seq<Outcome>, o: Outcome, i: nat, before: Table, after: Table)
    requires |tasks| == i < |pending|
    requires before == UpsertAll(start, Succeeded(pending[..i], DoneFlags(tasks)))
    requires o.Done? ==> after == before + HandlerRows(pending[i])
    requires o.Failed? ==> after == before
    ensures after == UpsertAll(start, Succeeded(pending[..i + 1], DoneFlags(tasks + [o])))
  {
    var prefix := Succeeded(pending[..i], DoneFlags(tasks));
    assert pending[..i + 1] == pending[..i] + [pending[i]];
    assert DoneFlags(tasks + [o]) == DoneFlags(tasks) + [o.Done?];
    SucceededSnoc(pending[..i], DoneFlags(tasks), pending[i], o.Done?);
    assert Succeeded(pending[..i + 1], DoneFlags(tasks + [o])) == prefix + (if o.Done? then [pending[i]] else []);
    if o.Done? {
      var q := prefix + [pending[i]];
      assert q[..|q| - 1] == prefix && q[|q| - 1] == pending[i];
      assert UpsertAll(start, q) == UpsertAll(start, prefix) + HandlerRows(pending[i]);
    } else {
      assert prefix + [] == prefix;
    }
  }

  lemma SucceededSnoc(hs: seq<StatHandler>, done: seq<bool>, h: StatHandler, d: bool)
    requires |hs| == |done|
    ensures Succeeded(hs + [h], done + [d]) == Succeeded(hs, done) + (if d then [h] else [])
  {
    assert (hs + [h])[..|hs|] == hs;
    assert (done + [d])[..|done|] == done;
  }
}
