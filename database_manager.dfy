/**
 * `database.DatabaseManager`, the current database class: it creates the
 * table if needed, loads every statistics file of a player the table does not
 * know yet in ONE batch and waits for it, and only then subscribes to Plan's
 * data-clear and player-remove events.
 */
module Database {
  import opened Base
  import opened StatsTable
  import opened QueryApi
  import opened Queries

  class DatabaseManager {
    /** The host's query service, through which every statement runs. */
    const qs: QueryService
    /** The game server whose statistics files bootstrap reads. */
    const server: Server

    /** The field assignments of the Java constructor; the rest of it is `Create`. */
    constructor (qs: QueryService, server: Server)
      ensures this.qs == qs && this.server == server
    {
      this.qs := qs;
      this.server := server;
    }

    /**
     * `new DatabaseManager(server)`: initialize the database, then subscribe
     * `clearData` and `removePlayer`. When initialization throws, no manager
     * exists and nothing is subscribed.
     */
    static method Create(qs: QueryService, server: Server) returns (r: Result<DatabaseManager, InitError>)
      requires qs.Valid()
      modifies qs
      ensures qs.Valid()
      ensures r.Success? ==> fresh(r.value) && r.value.qs == qs && r.value.server == server
      ensures r.Success? ==> qs.subscriptions == old(qs.subscriptions) + [DataClear(r.value), PlayerRemove(r.value)]
      ensures r.Failure? ==> qs.subscriptions == old(qs.subscriptions)
      ensures server.stats.ListingIoError? ==> r == Failure(ListingFailed)
      ensures r.Success? ==> qs.present && server.stats.Listed?
      ensures r.Success? ==> qs.rows == UpsertAll(old(qs.rows), Pending(server.stats.files, Uuids(old(qs.rows))))
      ensures r.Failure? ==> qs.rows == old(qs.rows)
    {
      var m := new DatabaseManager(qs, server);
      var loaded := m.InitializeDatabase();
      if loaded.Failure? {
        return Failure(loaded.error);
      }
      qs.SubscribeDataClearEvent(m);
      qs.SubscribeToPlayerRemoveEvent(m);
      r := Success(m);
    }

    /**
     * `initializeDatabase`: `CREATE TABLE IF NOT EXISTS` (its outcome is not
     * awaited), then write the pending files as one batch and wait for it.
     * On success, the number of files loaded.
     */
    method InitializeDatabase() returns (r: Result<nat, InitError>)
      requires qs.Valid()
      modifies qs
      ensures qs.Valid() && qs.subscriptions == old(qs.subscriptions)
      ensures |qs.executed| > |old(qs.executed)| && qs.executed[|old(qs.executed)|] == Statement.CreateTableIfNotExists
      ensures server.stats.ListingIoError? ==> r == Failure(ListingFailed)
      ensures r.Success? ==> qs.present && server.stats.Listed?
      ensures r.Success? ==> r.value == |Pending(server.stats.files, Uuids(old(qs.rows)))|
      ensures r.Success? ==> qs.rows == UpsertAll(old(qs.rows), Pending(server.stats.files, Uuids(old(qs.rows))))
      ensures r.Failure? ==> qs.rows == old(qs.rows)
    {
      var created := qs.CreateTableIfNotExists();
      ghost var log1 := qs.executed;
      var pending := PendingStatFiles(qs, server);
      if pending.Failure? {
        return Failure(pending.error);
      }
      var future, batch := UpdatePlayerStats(pending.value);
      assert qs.executed[..|log1|] == log1;
      assert forall j :: 0 <= j < |log1| ==> qs.executed[j] == log1[j];
      if future.None? {
        return Success(0);
      }
      if future.value.Failed? {
        return Failure(WriteFailed(future.value.error));
      }
      r := Success(|pending.value|);
    }

    /**
     * `updatePlayerStats`: nothing when `handlers` is empty; otherwise ONE
     * `REPLACE INTO` batch holding every entry of every file, file after file,
     * and its outcome.
     */
    method UpdatePlayerStats(handlers: seq<StatHandler>) returns (r: Option<Outcome>, ghost batch: seq<Row>)
      requires qs.Valid()
      modifies qs
      ensures qs.Valid() && qs.present == old(qs.present) && qs.subscriptions == old(qs.subscriptions)
      ensures r.None? <==> handlers == []
      ensures r.None? ==> qs.rows == old(qs.rows) && qs.executed == old(qs.executed)
      ensures r.Some? ==> qs.executed == old(qs.executed) + [Statement.ReplaceBatch(batch)]
      ensures r.Some? ==> forall t :: ApplyBatch(t, batch) == UpsertAll(t, handlers)
      ensures r.Some? && !old(qs.present) ==> r.value == Failed(NoSuchTable)
      ensures r.Some? && r.value.Failed? ==> qs.rows == old(qs.rows)
      ensures r == Some(Done) ==> qs.rows == UpsertAll(old(qs.rows), handlers)
    {
      if handlers == [] {
        return None, [];
      }
      var rows := BatchRows(handlers);
      batch := rows;
      var o := qs.ReplaceBatch(rows);
      r := Some(o);
    }

    /** `clearData`, run when Plan clears its data: `DROP TABLE IF EXISTS`. */
    method ClearData() returns (o: Outcome)
      requires qs.Valid()
      modifies qs
      ensures qs.Valid() && qs.subscriptions == old(qs.subscriptions)
      ensures qs.executed == old(qs.executed) + [Statement.DropTableIfExists]
      ensures o.Done? ==> !qs.present && qs.rows == map[]
      ensures o.Failed? ==> o.error == EngineError && qs.present == old(qs.present) && qs.rows == old(qs.rows)
    {
      o := qs.DropTableIfExists();
    }

    /** `removePlayer`, run when Plan removes a player: delete every row of that UUID. */
    method RemovePlayer(playerUuid: string) returns (o: Outcome)
      requires qs.Valid()
      modifies qs
      ensures qs.Valid() && qs.subscriptions == old(qs.subscriptions) && qs.present == old(qs.present)
      ensures qs.executed == old(qs.executed) + [Statement.DeletePlayer(playerUuid)]
      ensures !old(qs.present) ==> o == Failed(NoSuchTable)
      ensures o.Done? ==> qs.rows == RemovePlayerRows(old(qs.rows), playerUuid)
      ensures o.Failed? ==> qs.rows == old(qs.rows)
    {
      o := qs.DeletePlayer(playerUuid);
    }
  }

  /**
   * The batch `updatePlayerStats` binds: for each file in collection order,
   * one row per entry of its map. Running it stores every file's rows, a
   * later file's value winning over an earlier one's.
   */
  method BatchRows(handlers: seq<StatHandler>) returns (batch: seq<Row>)
    ensures forall t :: ApplyBatch(t, batch) == UpsertAll(t, handlers)
  {
    batch := [];
    var i := 0;
    while i < |handlers|
      invariant 0 <= i <= |handlers|
      invariant forall t :: ApplyBatch(t, batch) == UpsertAll(t, handlers[..i])
    {
      var entries := HandlerBatch(handlers[i]);
      forall t ensures ApplyBatch(t, batch + entries) == UpsertAll(t, handlers[..i + 1]) {
        ApplyBatchConcat(t, batch, entries);
        UpsertAllStep(t, handlers, i);
      }
      batch := batch + entries;
      i := i + 1;
    }
    assert handlers[..i] == handlers;
  }
}
