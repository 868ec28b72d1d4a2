/**
 * The plugin host's query service (Plan's QueryService) as seen by the
 * extension: it owns the database that holds the statistics table, executes
 * statements (`execute`) and queries (`query`), and lets the extension
 * subscribe to two data events.
 *
 * Every statement runs synchronously here and reports an explicit outcome.
 * Besides the errors the table's own state causes (no such table, table
 * already exists) any statement may fail inside the engine; a failed
 * statement leaves the table as it was.
 */
module QueryApi {
  import opened Base
  import opened StatsTable

  datatype SqlError = NoSuchTable | TableExists | EngineError

  /** How a statement submitted with `execute` completed: what its Future would report. */
  datatype Outcome = Done | Failed(error: SqlError)

  /** The statements the extension executes (queries are not recorded). */
  datatype Statement =
    | CreateTableIfNotExists
    | CreateTable
    | DropTableIfExists
    | DeletePlayer(uuid: string)
    | ReplaceBatch(batch: seq<Row>)

  /** A listener registered with the service: whose handler it is and for which event. */
  datatype Subscription = DataClear(handler: object) | PlayerRemove(handler: object)

  class QueryService {
    /** Whether the table `plan_ingame_player_statistics` exists. */
    var present: bool
    /** Its rows, keyed by the primary key. */
    var rows: Table
    /** The data event listeners registered so far, in registration order. */
    var subscriptions: seq<Subscription>
    /** Every statement executed so far, in execution order, whether or not it succeeded. */
    ghost var executed: seq<Statement>

    ghost predicate Valid()
      reads this
    {
      !present ==> rows == map[]
    }

    /** The database as the host opens it: with or without the table, and its rows. */
    constructor (tableExists: bool, initialRows: Table)
      requires tableExists || initialRows == map[]
      ensures Valid()
      ensures present == tableExists && rows == initialRows
      ensures subscriptions == [] && executed == []
    {
      present, rows := tableExists, initialRows;
      subscriptions := [];
      executed := [];
    }

    // ------------------------------------------------------------------------
    // execute
    // ------------------------------------------------------------------------

    /** `CREATE TABLE IF NOT EXISTS`: creates an empty table when there is none; existing rows are kept. */
    method CreateTableIfNotExists() returns (o: Outcome)
      requires Valid()
      modifies this
      ensures Valid() && subscriptions == old(subscriptions)
      ensures executed == old(executed) + [Statement.CreateTableIfNotExists]
      ensures o.Failed? ==> o.error == EngineError && present == old(present) && rows == old(rows)
      ensures o.Done? ==> present && rows == old(rows)
    {
      executed := executed + [Statement.CreateTableIfNotExists];
      var fault: bool := *;
      if fault {
        return Failed(EngineError);
      }
      present := true;
      o := Done;
    }

    /** Plain `CREATE TABLE`: fails when the table already exists. */
    method CreateTable() returns (o: Outcome)
      requires Valid()
      modifies this
      ensures Valid() && subscriptions == old(subscriptions)
      ensures executed == old(executed) + [Statement.CreateTable]
      ensures old(present) ==> o == Failed(TableExists)
      ensures o.Failed? ==> present == old(present) && rows == old(rows)
      ensures !old(present) ==> o.Done? || o == Failed(EngineError)
      ensures o.Done? ==> present && rows == map[]
    {
      executed := executed + [Statement.CreateTable];
      if present {
        return Failed(TableExists);
      }
      var fault: bool := *;
      if fault {
        return Failed(EngineError);
      }
      present := true;
      o := Done;
    }

    /** `DROP TABLE IF EXISTS`: removes the table with all its rows; an absent table is no error. */
    method DropTableIfExists() returns (o: Outcome)
      requires Valid()
      modifies this
      ensures Valid() && subscriptions == old(subscriptions)
      ensures executed == old(executed) + [Statement.DropTableIfExists]
      ensures o.Failed? ==> o.error == EngineError && present == old(present) && rows == old(rows)
      ensures o.Done? ==> !present && rows == map[]
    {
      executed := executed + [Statement.DropTableIfExists];
      var fault: bool := *;
      if fault {
        return Failed(EngineError);
      }
      present, rows := false, map[];
      o := Done;
    }

    /** `DELETE FROM ... WHERE player_uuid = ?`. */
    method DeletePlayer(uuid: string) returns (o: Outcome)
      requires Valid()
      modifies this
      ensures Valid() && subscriptions == old(subscriptions) && present == old(present)
      ensures executed == old(executed) + [Statement.DeletePlayer(uuid)]
      ensures !old(present) ==> o == Failed(NoSuchTable)
      ensures old(present) ==> o.Done? || o == Failed(EngineError)
      ensures o.Failed? ==> rows == old(rows)
      ensures o.Done? ==> rows == RemovePlayerRows(old(rows), uuid)
    {
      executed := executed + [Statement.DeletePlayer(uuid)];
      if !present {
        return Failed(NoSuchTable);
      }
      var fault: bool := *;
      if fault {
        return Failed(EngineError);
      }
      rows := RemovePlayerRows(rows, uuid);
      o := Done;
    }

    /** `REPLACE INTO ... VALUES (?, ?, ?)` with a batch of bound rows, run as one atomic unit. */
    method ReplaceBatch(batch: seq<Row>) returns (o: Outcome)
      requires Valid()
      modifies this
      ensures Valid() && subscriptions == old(subscriptions) && present == old(present)
      ensures executed == old(executed) + [Statement.ReplaceBatch(batch)]
      ensures !old(present) ==> o == Failed(NoSuchTable)
      ensures old(present) ==> o.Done? || o == Failed(EngineError)
      ensures o.Failed? ==> rows == old(rows)
      ensures o.Done? ==> rows == ApplyBatch(old(rows), batch)
    {
      executed := executed + [Statement.ReplaceBatch(batch)];
      if !present {
        return Failed(NoSuchTable);
      }
      var fault: bool := *;
      if fault {
        return Failed(EngineError);
      }
      rows := ApplyBatch(rows, batch);
      o := Done;
    }

    // ------------------------------------------------------------------------
    // query: each returns the result set in the order the engine delivers it
    // ------------------------------------------------------------------------

    /** Plan's `doesDBHaveTable` for the statistics table. */
    method HasTable() returns (r: Result<bool, SqlError>)
      ensures r.Success? ==> r.value == present
      ensures r.Failure? ==> r.error == EngineError
    {
      var fault: bool := *;
      if fault {
        return Failure(EngineError);
      }
      r := Success(present);
    }

    /** `SELECT DISTINCT player_uuid`: every stored UUID once, in no particular order. */
    method SelectDistinctUuids() returns (r: Result<seq<string>, SqlError>)
      ensures !present ==> r == Failure(NoSuchTable)
      ensures present ==> r.Success? || r == Failure(EngineError)
      ensures r.Success? ==> IsEnumeration(r.value, Uuids(rows))
    {
      if !present {
        return Failure(NoSuchTable);
      }
      var fault: bool := *;
      if fault {
        return Failure(EngineError);
      }
      var uuids := Enumerate(Uuids(rows));
      r := Success(uuids);
    }

    /** `SELECT DISTINCT stat_name`: every stored statistic name once, in no particular order. */
    method SelectDistinctStatNames() returns (r: Result<seq<string>, SqlError>)
      ensures !present ==> r == Failure(NoSuchTable)
      ensures present ==> r.Success? || r == Failure(EngineError)
      ensures r.Success? ==> IsEnumeration(r.value, StatNames(rows))
    {
      if !present {
        return Failure(NoSuchTable);
      }
      var fault: bool := *;
      if fault {
        return Failure(EngineError);
      }
      var names := Enumerate(StatNames(rows));
      r := Success(names);
    }

    /** `SELECT player_uuid, value WHERE stat_name = ?`: one (UUID, value) pair per matching row. */
    method SelectStatValues(stat: string) returns (r: Result<seq<(string, Int32)>, SqlError>)
      ensures !present ==> r == Failure(NoSuchTable)
      ensures present ==> r.Success? || r == Failure(EngineError)
      ensures r.Success? ==> ListsMap(r.value, StatColumn(rows, stat))
    {
      if !present {
        return Failure(NoSuchTable);
      }
      var fault: bool := *;
      if fault {
        return Failure(EngineError);
      }
      var column := StatColumn(rows, stat);
      var uuids := Enumerate(column.Keys);
      var pairs := seq(|uuids|, i requires 0 <= i < |uuids| => (uuids[i], column[uuids[i]]));
      forall u | u in column ensures exists i :: 0 <= i < |pairs| && pairs[i].0 == u {
        var i :| 0 <= i < |uuids| && uuids[i] == u;
        assert pairs[i].0 == u;
      }
      r := Success(pairs);
    }

    /**
     * The ranked-statistics query: rank every row within its statistic with
     * `RANK() OVER (PARTITION BY stat_name ORDER BY value DESC)`, keep the rows
     * of `uuid`, and deliver them `ORDER BY rank ASC, value DESC` (rows equal
     * in both come in no particular order).
     */
    method SelectPlayerTopStats(uuid: string) returns (r: Result<seq<RankedStatistic>, SqlError>)
      ensures !present ==> r == Failure(NoSuchTable)
      ensures present ==> r.Success? || r == Failure(EngineError)
      ensures r.Success? ==> IsEnumeration(r.value, TopStats(rows, uuid)) && OrderedByRank(r.value)
    {
      if !present {
        return Failure(NoSuchTable);
      }
      var fault: bool := *;
      if fault {
        return Failure(EngineError);
      }
      var ranked := SortByRank(TopStats(rows, uuid));
      r := Success(ranked);
    }

    // ------------------------------------------------------------------------
    // data events
    // ------------------------------------------------------------------------

    /** `subscribeDataClearEvent`. */
    method SubscribeDataClearEvent(handler: object)
      modifies this
      ensures present == old(present) && rows == old(rows) && executed == old(executed)
      ensures subscriptions == old(subscriptions) + [DataClear(handler)]
    {
      subscriptions := subscriptions + [DataClear(handler)];
    }

    /** `subscribeToPlayerRemoveEvent`. */
    method SubscribeToPlayerRemoveEvent(handler: object)
      modifies this
      ensures present == old(present) && rows == old(rows) && executed == old(executed)
      ensures subscriptions == old(subscriptions) + [PlayerRemove(handler)]
    {
      subscriptions := subscriptions + [PlayerRemove(handler)];
    }
  }

  /** A result set without ORDER BY: the elements of `s`, each once, in an order the engine picks. */
  method Enumerate<T(==)>(s: set<T>) returns (xs: seq<T>)
    ensures IsEnumeration(xs, s)
  {
    xs := [];
    var rest := s;
    while rest != {}
      invariant rest <= s
      invariant IsEnumeration(xs, s - rest)
      decreases rest
    {
      var x :| x in rest;
      xs := xs + [x];
      rest := rest - {x};
    }
  }

  /** A result set with `ORDER BY rank ASC, value DESC`: the cursor always delivers a first remaining row. */
  method SortByRank(s: set<RankedStatistic>) returns (xs: seq<RankedStatistic>)
    ensures IsEnumeration(xs, s) && OrderedByRank(xs)
  {
    xs := [];
    var rest := s;
    while rest != {}
      invariant rest <= s
      invariant IsEnumeration(xs, s - rest) && OrderedByRank(xs)
      invariant forall i, y :: 0 <= i < |xs| && y in rest ==> Before(xs[i], y)
      decreases rest
    {
      ghost var first := FirstInOrder(rest);
      var x :| x in rest && forall y :: y in rest ==> Before(x, y);
      xs := xs + [x];
      rest := rest - {x};
    }
  }
}
