/**
 * `QueryAPIAccessor`, the earliest database class: it asks Plan whether the
 * table exists and only then issues a plain `CREATE TABLE`; bootstrap is the
 * same per-file write as in the package-root `DatabaseManager`.
 */
module Accessor {
  import opened Base
  import opened StatsTable
  import opened QueryApi
  import opened Queries

  class QueryApiAccessor {
    /** The host's query service, through which every statement runs. */
    const qs: QueryService

    /** The field assignment of the Java constructor; the rest of it is `Create`. */
    constructor (qs: QueryService)
      ensures this.qs == qs
    {
      this.qs := qs;
    }

    /** `new QueryAPIAccessor(server)`: build the accessor and initialize the database. */
    static method Create(qs: QueryService, server: Server) returns (r: Result<QueryApiAccessor, InitError>, tasks: seq<Outcome>)
      requires qs.Valid()
      modifies qs
      ensures qs.Valid() && qs.subscriptions == old(qs.subscriptions)
      ensures r.Success? ==> fresh(r.value) && r.value.qs == qs
      ensures old(qs.present) ==> forall j :: |old(qs.executed)| <= j < |qs.executed| ==> qs.executed[j] != Statement.CreateTable
      ensures r.Success? ==> (server.stats.Listed?
        && |tasks| == |Pending(server.stats.files, Uuids(old(qs.rows)))|
        && qs.rows == UpsertAll(old(qs.rows), Succeeded(Pending(server.stats.files, Uuids(old(qs.rows))), DoneFlags(tasks))))
      ensures r.Failure? ==> tasks == [] && qs.rows == old(qs.rows)
    {
      var a := new QueryApiAccessor(qs);
      var init := a.InitializeDatabase(server);
      if init.Failure? {
        return Failure(init.error), [];
      }
      r, tasks := Success(a), init.value;
    }

    /**
     * `initializeDatabase`: `doesDBHaveTable`, a plain `CREATE TABLE` only
     * when the answer is no, then one write per pending file.
     */
    method InitializeDatabase(server: Server) returns (r: Result<seq<Outcome>, InitError>)
      requires qs.Valid()
      modifies qs
      ensures qs.Valid() && qs.subscriptions == old(qs.subscriptions)
      ensures old(qs.present) ==> forall j :: |old(qs.executed)| <= j < |qs.executed| ==> qs.executed[j] != Statement.CreateTable
      ensures !old(qs.present) && r.Success? ==>
        |qs.executed| > |old(qs.executed)| && qs.executed[|old(qs.executed)|] == Statement.CreateTable
      ensures r.Success? ==> (server.stats.Listed?
        && |r.value| == |Pending(server.stats.files, Uuids(old(qs.rows)))|
        && qs.rows == UpsertAll(old(qs.rows), Succeeded(Pending(server.stats.files, Uuids(old(qs.rows))), DoneFlags(r.value))))
      ensures r.Failure? ==> qs.rows == old(qs.rows)
    {
      var checkFailed := CreateTableUnlessPresent();
      if checkFailed.Some? {
        return Failure(QueryFailed(checkFailed.value));
      }
      ghost var log1 := qs.executed;
      var pending := PendingStatFiles(qs, server);
      if pending.Failure? {
        return Failure(pending.error);
      }
      var tasks := WriteEach(qs, pending.value);
      assert forall j :: 0 <= j < |log1| ==> qs.executed[j] == log1[j] by {
        assert qs.executed[..|log1|] == log1;
      }
      r := Success(tasks);
    }

    /**
     * The guarded schema step: ask `doesDBHaveTable`, and run a plain
     * `CREATE TABLE` (not awaited) only when the table is missing. Returns
     * the error when the question itself fails.
     */
    method CreateTableUnlessPresent() returns (r: Option<SqlError>)
      requires qs.Valid()
      modifies qs
      ensures qs.Valid() && qs.subscriptions == old(qs.subscriptions) && qs.rows == old(qs.rows)
      ensures r.Some? ==> r.value == EngineError && qs.executed == old(qs.executed)
      ensures old(qs.present) ==> qs.present && qs.executed == old(qs.executed)
      ensures !old(qs.present) && r.None? ==> qs.executed == old(qs.executed) + [Statement.CreateTable]
    {
      var hasTable := qs.HasTable();
      if hasTable.Failure? {
        return Some(hasTable.error);
      }
      if !hasTable.value {
        var created := qs.CreateTable();
      }
      r := None;
    }
  }
}
