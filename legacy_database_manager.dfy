/**
 * The package-root `DatabaseManager`, the earlier database class: it creates
 * the table if needed and submits one `REPLACE INTO` per pending statistics
 * file without waiting for any of them. It subscribes to no data events, and
 * it can pick a random stored statistic name.
 */
module LegacyDatabase {
  import opened Base
  import opened StatsTable
  import opened QueryApi
  import opened Queries

  class DatabaseManager {
    /** The host's query service, through which every statement runs. */
    const qs: QueryService

    /** The field assignment of the Java constructor; the rest of it is `Create`. */
    constructor (qs: QueryService)
      ensures this.qs == qs
    {
      this.qs := qs;
    }

    /**
     * `new DatabaseManager(server)`: build the manager and initialize the
     * database. `tasks` are the outcomes of the per-file writes, one per
     * pending file, in listing order; the table holds the rows of exactly the
     * files whose write completed.
     */
    static method Create(qs: QueryService, server: Server) returns (r: Result<DatabaseManager, InitError>, tasks: seq<Outcome>)
      requires qs.Valid()
      modifies qs
      ensures qs.Valid() && qs.subscriptions == old(qs.subscriptions)
      ensures r.Success? ==> fresh(r.value) && r.value.qs == qs
      ensures server.stats.ListingIoError? ==> r == Failure(ListingFailed)
      ensures r.Success? ==> (server.stats.Listed?
        && |tasks| == |Pending(server.stats.files, Uuids(old(qs.rows)))|
        && qs.rows == UpsertAll(old(qs.rows), Succeeded(Pending(server.stats.files, Uuids(old(qs.rows))), DoneFlags(tasks))))
      ensures r.Failure? ==> tasks == [] && qs.rows == old(qs.rows)
    {
      var m := new DatabaseManager(qs);
      var init := m.InitializeDatabase(server);
      if init.Failure? {
        return Failure(init.error), [];
      }
      r, tasks := Success(m), init.value;
    }

    /**
     * `initializeDatabase`: `CREATE TABLE IF NOT EXISTS` (not awaited), then
     * one write per pending file. Only listing the directory and reading the
     * stored UUIDs can throw.
     */
    method InitializeDatabase(server: Server) returns (r: Result<seq<Outcome>, InitError>)
      requires qs.Valid()
      modifies qs
      ensures qs.Valid() && qs.subscriptions == old(qs.subscriptions)
      ensures |qs.executed| > |old(qs.executed)| && qs.executed[|old(qs.executed)|] == Statement.CreateTableIfNotExists
      ensures server.stats.ListingIoError? ==> r == Failure(ListingFailed)
      ensures r.Success? ==> (server.stats.Listed?
        && |r.value| == |Pending(server.stats.files, Uuids(old(qs.rows)))|
        && qs.rows == UpsertAll(old(qs.rows), Succeeded(Pending(server.stats.files, Uuids(old(qs.rows))), DoneFlags(r.value))))
      ensures r.Failure? ==> qs.rows == old(qs.rows)
    {
      var created := qs.CreateTableIfNotExists();
      ghost var log1 := qs.executed;
      var pending := PendingStatFiles(qs, server);
      if pending.Failure? {
        return Failure(pending.error);
      }
      var tasks := WriteEach(qs, pending.value);
      assert forall j :: 0 <= j < |log1| ==> qs.executed[j] == log1[j] by {
        assert qs.executed[..|log1|] == log1;
      }
      r := Success(tasks);
    }

    /**
     * `getRandomStat`: a statistic name chosen at random among the stored
     * ones, or none when the table has no rows.
     */
    method GetRandomStat() returns (r: Result<Option<string>, SqlError>)
      ensures !qs.present ==> r == Failure(NoSuchTable)
      ensures qs.present ==> r.Success? || r == Failure(EngineError)
      ensures r.Success? ==> (r.value.None? <==> qs.rows == map[])
      ensures r.Success? && r.value.Some? ==> r.value.value in StatNames(qs.rows)
    {
      var rs := qs.SelectDistinctStatNames();
      if rs.Failure? {
        return Failure(rs.error);
      }
      var resultSet := rs.value;
      var statNames: seq<string> := [];
      var i := 0;
      while i < |resultSet|
        invariant 0 <= i <= |resultSet|
        invariant statNames == resultSet[..i]
      {
        statNames := statNames + [resultSet[i]];
        i := i + 1;
      }
      assert statNames == resultSet;
      StatNamesEmpty(qs.rows);
      if |statNames| == 0 {
        return Success(None);
      }
      assert statNames[0] in StatNames(qs.rows);
      var randomIndex :| 0 <= randomIndex < |statNames|;
      r := Success(Some(statNames[randomIndex]));
    }
  }
}
