/**
 * The statistics table `plan_ingame_player_statistics` as an abstract value,
 * and the meaning of every SQL statement the extension issues against it.
 *
 * The composite primary key (player_uuid, stat_name) makes the table a finite
 * map from a key to the `value` column.
 */
module StatsTable {
  import opened Base

  /** (player_uuid, stat_name): the primary key of the table. */
  type Key = (string, string)

  type Table = map<Key, Int32>

  /** One row as bound to the `REPLACE INTO ... VALUES (?, ?, ?)` statement. */
  datatype Row = Row(uuid: string, stat: string, value: Int32)
  {
    function PrimaryKey(): Key { (uuid, stat) }
  }

  /**
   * A player's statistics file as the game server loads it: the base name of
   * the file (the player's UUID) and the map from statistic name to value.
   */
  datatype StatHandler = StatHandler(baseName: string, statMap: map<string, Int32>)

  /** A row of the leaderboard query: statistic, the player's value, and the player's rank. */
  datatype RankedStatistic = RankedStatistic(statName: string, statValue: Int32, rank: nat)

  // ---------------------------------------------------------------------------
  // REPLACE INTO: a batch of rows, applied in batch order
  // ---------------------------------------------------------------------------

  /**
   * Executes a `REPLACE INTO` batch: each row deletes a row with the same
   * primary key (if any) and inserts itself, so a row overwrites the value
   * stored under its key.
   */
  function ApplyBatch(t: Table, batch: seq<Row>): Table
    decreases |batch|
  {
    if batch == [] then t
    else
      var last := batch[|batch| - 1];
      ApplyBatch(t, batch[..|batch| - 1])[last.PrimaryKey() := last.value]
  }

  /** Running two batches one after the other is running their concatenation. */
  lemma {:induction false} ApplyBatchConcat(t: Table, a: seq<Row>, b: seq<Row>)
    ensures ApplyBatch(t, a + b) == ApplyBatch(ApplyBatch(t, a), b)
    decreases |b|
  {
    if b == [] {
      assert a + b == a;
    } else {
      var ab := a + b;
      assert ab[..|ab| - 1] == a + b[..|b| - 1];
      ApplyBatchConcat(t, a, b[..|b| - 1]);
    }
  }

  /** Last write wins: the last row of a batch with a given key decides the stored value. */
  lemma {:induction false} ApplyBatchLastWins(t: Table, batch: seq<Row>, i: nat)
    requires i < |batch|
    requires forall j :: i < j < |batch| ==> batch[j].PrimaryKey() != batch[i].PrimaryKey()
    ensures batch[i].PrimaryKey() in ApplyBatch(t, batch)
    ensures ApplyBatch(t, batch)[batch[i].PrimaryKey()] == batch[i].value
    decreases |batch|
  {
    if i < |batch| - 1 {
      ApplyBatchLastWins(t, batch[..|batch| - 1], i);
    }
  }

  /** A key that no row of the batch writes keeps its old row, or stays absent. */
  lemma {:induction false} ApplyBatchUntouched(t: Table, batch: seq<Row>, k: Key)
    requires forall j :: 0 <= j < |batch| ==> batch[j].PrimaryKey() != k
    ensures k in ApplyBatch(t, batch) <==> k in t
    ensures k in t ==> ApplyBatch(t, batch)[k] == t[k]
    decreases |batch|
  {
    if batch != [] {
      ApplyBatchUntouched(t, batch[..|batch| - 1], k);
    }
  }

  /** Upserting the same key twice leaves exactly one row, holding the later value. */
  lemma UpsertTwiceKeepsLatest(t: Table, u: string, s: string, v1: Int32, v2: Int32)
    ensures ApplyBatch(t, [Row(u, s, v1), Row(u, s, v2)]) == t[(u, s) := v2]
  {
    var b := [Row(u, s, v1), Row(u, s, v2)];
    assert b[..1] == [Row(u, s, v1)];
    assert b[..1][..0] == [];
    assert ApplyBatch(t, b[..1]) == t[(u, s) := v1];
  }

  // ---------------------------------------------------------------------------
  // The rows one statistics file contributes
  // ---------------------------------------------------------------------------

  /** Every entry (s, v) of a handler's map, stored under (base name, s). */
  function HandlerRows(h: StatHandler): Table
  {
    map s | s in h.statMap.Keys :: (h.baseName, s) := h.statMap[s]
  }

  /** The file `h` writes the key `k`. */
  predicate Writes(h: StatHandler, k: Key)
  {
    h.baseName == k.0 && k.1 in h.statMap
  }

  /**
   * `batch` holds one row per statistic of `h` in `done`, in any order: the
   * batch rows bound while iterating over part of the handler's map.
   */
  predicate IsHandlerBatch(batch: seq<Row>, h: StatHandler, done: set<string>)
  {
    && done <= h.statMap.Keys
    && (forall j :: 0 <= j < |batch| ==>
          batch[j].uuid == h.baseName && batch[j].stat in done && batch[j].value == h.statMap[batch[j].stat])
    && (forall j, l :: 0 <= j < l < |batch| ==> batch[j].stat != batch[l].stat)
    && (forall s :: s in done ==> exists j :: 0 <= j < |batch| && batch[j].stat == s)
  }

  /** Whatever order the handler's entries are bound in, the batch stores exactly the handler's rows. */
  lemma HandlerBatchEffect(t: Table, batch: seq<Row>, h: StatHandler)
    requires IsHandlerBatch(batch, h, h.statMap.Keys)
    ensures ApplyBatch(t, batch) == t + HandlerRows(h)
  {
    var after := ApplyBatch(t, batch);
    var want := t + HandlerRows(h);
    forall k | k in want || k in after
      ensures k in after && k in want && after[k] == want[k]
    {
      if Writes(h, k) {
        var j :| 0 <= j < |batch| && batch[j].stat == k.1;
        assert batch[j].PrimaryKey() == k;
        ApplyBatchLastWins(t, batch, j);
      } else {
        ApplyBatchUntouched(t, batch, k);
      }
    }
    assert after == want;
  }

  // ---------------------------------------------------------------------------
  // A collection of files, upserted in collection order
  // ---------------------------------------------------------------------------

  /** The table after upserting the files `hs` one after the other. */
  function UpsertAll(t: Table, hs: seq<StatHandler>): Table
    decreases |hs|
  {
    if hs == [] then t else UpsertAll(t, hs[..|hs| - 1]) + HandlerRows(hs[|hs| - 1])
  }

  /** A key written by the collection holds the value of the LAST file that writes it. */
  lemma {:induction false} UpsertAllLastWins(t: Table, hs: seq<StatHandler>, i: nat, k: Key)
    requires i < |hs| && Writes(hs[i], k)
    requires forall j :: i < j < |hs| ==> !Writes(hs[j], k)
    ensures k in UpsertAll(t, hs) && UpsertAll(t, hs)[k] == hs[i].statMap[k.1]
    decreases |hs|
  {
    if i < |hs| - 1 {
      UpsertAllLastWins(t, hs[..|hs| - 1], i, k);
    }
  }

  /** A key no file writes is left exactly as it was: nothing else changes. */
  lemma {:induction false} UpsertAllUntouched(t: Table, hs: seq<StatHandler>, k: Key)
    requires forall j :: 0 <= j < |hs| ==> !Writes(hs[j], k)
    ensures k in UpsertAll(t, hs) <==> k in t
    ensures k in t ==> UpsertAll(t, hs)[k] == t[k]
    decreases |hs|
  {
    if hs != [] {
      UpsertAllUntouched(t, hs[..|hs| - 1], k);
    }
  }

  /** `UpsertAll` of a longer prefix adds the next file's rows on top. */
  lemma UpsertAllStep(t: Table, hs: seq<StatHandler>, i: nat)
    requires i < |hs|
    ensures UpsertAll(t, hs[..i + 1]) == UpsertAll(t, hs[..i]) + HandlerRows(hs[i])
  {
    assert hs[..i + 1][..i] == hs[..i];
  }

  // ---------------------------------------------------------------------------
  // Bootstrap reconciliation
  // ---------------------------------------------------------------------------

  /** The distinct player UUIDs that have at least one row (`SELECT DISTINCT player_uuid`). */
  function Uuids(t: Table): set<string>
  {
    set k | k in t :: k.0
  }

  /** The distinct statistic names that have at least one row (`SELECT DISTINCT stat_name`). */
  function StatNames(t: Table): set<string>
  {
    set k | k in t :: k.1
  }

  /** Some statistic name is stored exactly when some row is. */
  lemma StatNamesEmpty(t: Table)
    ensures StatNames(t) == {} <==> t == map[]
  {
    if t != map[] {
      var k :| k in t;
      assert k.1 in StatNames(t);
    }
  }

  /**
   * The statistics files that bootstrap writes: those whose base name is not
   * among the stored UUIDs, in listing order.
   */
  function Pending(files: seq<StatHandler>, stored: set<string>): (r: seq<StatHandler>)
    ensures forall h :: h in r <==> h in files && h.baseName !in stored
    ensures |r| <= |files|
    ensures IsSubsequence(r, files)
    decreases |files|
  {
    if files == [] then []
    else
      var last := files[|files| - 1];
      var front := Pending(files[..|files| - 1], stored);
      if last.baseName in stored then
        front
      else
        var r := front + [last];
        assert r[..|r| - 1] == front;
        r
  }

  /** Bootstrap never rewrites a stored player: their rows are exactly as before. */
  lemma BootstrapKeepsStoredPlayers(t: Table, files: seq<StatHandler>, stored: set<string>, k: Key)
    requires k.0 in stored
    ensures k in UpsertAll(t, Pending(files, stored)) <==> k in t
    ensures k in t ==> UpsertAll(t, Pending(files, stored))[k] == t[k]
  {
    var p := Pending(files, stored);
    forall j | 0 <= j < |p| ensures !Writes(p[j], k) {
      assert p[j] in p;
    }
    UpsertAllUntouched(t, p, k);
  }

  /** Bootstrap stores every row of a player that is not stored yet and has exactly one file. */
  lemma {:induction false} BootstrapLoadsNewPlayer(t: Table, files: seq<StatHandler>, stored: set<string>, i: nat, k: Key)
    requires i < |files| && Writes(files[i], k) && k.0 !in stored
    requires forall j :: 0 <= j < |files| && j != i ==> files[j].baseName != k.0
    ensures k in UpsertAll(t, Pending(files, stored))
    ensures UpsertAll(t, Pending(files, stored))[k] == files[i].statMap[k.1]
    decreases |files|
  {
    var n := |files|;
    var front := files[..n - 1];
    var last := files[n - 1];
    var p := Pending(front, stored);
    if i < n - 1 {
      forall j | 0 <= j < |front| && j != i ensures front[j].baseName != k.0 {
        assert front[j] == files[j];
      }
      BootstrapLoadsNewPlayer(t, front, stored, i, k);
      if last.baseName in stored {
        assert Pending(files, stored) == p;
      } else {
        assert Pending(files, stored) == p + [last];
        UpsertSnocUntouched(t, p, last, k);
      }
    } else {
      assert Pending(files, stored) == p + [last];
      UpsertSnocWrites(t, p, last, k);
    }
  }

  lemma UpsertSnocUntouched(t: Table, p: seq<StatHandler>, last: StatHandler, k: Key)
    requires !Writes(last, k)
    ensures UpsertAll(t, p + [last]) == UpsertAll(t, p) + HandlerRows(last)
    ensures k in UpsertAll(t, p + [last]) <==> k in UpsertAll(t, p)
    ensures k in UpsertAll(t, p) ==> UpsertAll(t, p + [last])[k] == UpsertAll(t, p)[k]
  {
    var q := p + [last];
    assert q[..|q| - 1] == p;
  }

  lemma UpsertSnocWrites(t: Table, p: seq<StatHandler>, last: StatHandler, k: Key)
    requires Writes(last, k)
    ensures k in UpsertAll(t, p + [last]) && UpsertAll(t, p + [last])[k] == last.statMap[k.1]
  {
    var q := p + [last];
    assert q[..|q| - 1] == p;
    assert (last.baseName, k.1) == k;
  }

  /** The files whose individual write completed normally (one outcome flag per file). */
  function Succeeded(hs: seq<StatHandler>, done: seq<bool>): (r: seq<StatHandler>)
    requires |hs| == |done|
    ensures forall h :: h in r ==> h in hs
    decreases |hs|
  {
    if hs == [] then []
    else Succeeded(hs[..|hs| - 1], done[..|done| - 1]) + (if done[|done| - 1] then [hs[|hs| - 1]] else [])
  }

  /**
   * With one independent write per pending file, whichever writes fail, a
   * stored player's rows are still exactly as before.
   */
  lemma PartialBootstrapKeepsStoredPlayers(t: Table, files: seq<StatHandler>, stored: set<string>, done: seq<bool>, k: Key)
    requires |done| == |Pending(files, stored)| && k.0 in stored
    ensures k in UpsertAll(t, Succeeded(Pending(files, stored), done)) <==> k in t
    ensures k in t ==> UpsertAll(t, Succeeded(Pending(files, stored), done))[k] == t[k]
  {
    var p := Succeeded(Pending(files, stored), done);
    forall j | 0 <= j < |p| ensures !Writes(p[j], k) {
      assert p[j] in p;
    }
    UpsertAllUntouched(t, p, k);
  }

  // ---------------------------------------------------------------------------
  // DELETE ... WHERE player_uuid = ?
  // ---------------------------------------------------------------------------

  /** The table after deleting every row of player `u`. */
  function RemovePlayerRows(t: Table, u: string): Table
  {
    map k | k in t && k.0 != u :: t[k]
  }

  /** Deletion removes exactly the player's rows and keeps every other row as it was. */
  lemma RemovePlayerExact(t: Table, u: string)
    ensures Uuids(RemovePlayerRows(t, u)) == Uuids(t) - {u}
    ensures forall k :: k in t && k.0 != u ==> k in RemovePlayerRows(t, u) && RemovePlayerRows(t, u)[k] == t[k]
  {
    var r := RemovePlayerRows(t, u);
    forall x | x in Uuids(t) - {u} ensures x in Uuids(r) {
      var k :| k in t && k.0 == x;
      assert k in r;
    }
  }

  /** Removing a player without rows is a no-op; removing twice is removing once. */
  lemma RemovePlayerIdempotent(t: Table, u: string)
    ensures u !in Uuids(t) ==> RemovePlayerRows(t, u) == t
    ensures RemovePlayerRows(RemovePlayerRows(t, u), u) == RemovePlayerRows(t, u)
  {
    if u !in Uuids(t) {
      forall k | k in t ensures k.0 != u {
        assert k.0 in Uuids(t);
      }
    }
  }

  // ---------------------------------------------------------------------------
  // SELECT player_uuid, value WHERE stat_name = ?
  // ---------------------------------------------------------------------------

  /** The value of statistic `s` for every player that has a row for it. */
  function StatColumn(t: Table, s: string): map<string, Int32>
  {
    map u | u in Uuids(t) && (u, s) in t :: t[(u, s)]
  }

  /** The per-stat lookup holds exactly the rows with stat name `s`, keyed by UUID. */
  lemma StatColumnExact(t: Table, s: string)
    ensures forall u :: u in StatColumn(t, s) <==> (u, s) in t
    ensures forall u :: u in StatColumn(t, s) ==> StatColumn(t, s)[u] == t[(u, s)]
    ensures s !in StatNames(t) ==> StatColumn(t, s) == map[]
  {
    forall u | (u, s) in t ensures u in Uuids(t) {
      var k := (u, s);
      assert k in t;
    }
  }

  // ---------------------------------------------------------------------------
  // RANK() OVER (PARTITION BY stat_name ORDER BY value DESC)
  // ---------------------------------------------------------------------------

  /** The rows of statistic `s`. */
  function Partition(t: Table, s: string): set<Key>
  {
    set k | k in t && k.1 == s
  }

  /** The rows of statistic `s` with a value strictly greater than `v`. */
  function Ahead(t: Table, s: string, v: int): set<Key>
  {
    set k | k in t && k.1 == s && t[k] > v
  }

  /**
   * Standard competition rank (the RANK window function of ISO/IEC 9075-2):
   * one plus the number of rows of the same statistic with a strictly greater value.
   */
  function Rank(t: Table, s: string, v: int): nat
  {
    1 + |Ahead(t, s, v)|
  }

  lemma {:induction false} SubsetCardinality<T>(a: set<T>, b: set<T>)
    requires a <= b
    ensures |a| <= |b|
    ensures a < b ==> |a| < |b|
    decreases |b|
  {
    if b != {} {
      var x :| x in b;
      SubsetCardinality(a - {x}, b - {x});
      if x !in a {
        assert a - {x} == a;
      } else if a < b {
        var y :| y in b && y !in a;
        assert y in b - {x} && y !in a - {x};
      }
    }
  }

  /** A rank lies between 1 and the number of rows of its statistic; tied values share it. */
  lemma RankBounds(t: Table, u: string, s: string)
    requires (u, s) in t
    ensures 1 <= Rank(t, s, t[(u, s)]) <= |Partition(t, s)|
    ensures forall w :: (w, s) in t && t[(w, s)] == t[(u, s)] ==> Rank(t, s, t[(w, s)]) == Rank(t, s, t[(u, s)])
  {
    var me: Key := (u, s);
    assert Ahead(t, s, t[me]) <= Partition(t, s) - {me};
    assert |Partition(t, s) - {me}| == |Partition(t, s)| - 1;
    SubsetCardinality(Ahead(t, s, t[me]), Partition(t, s) - {me});
  }

  /** A strictly greater value has a strictly better (smaller) rank. */
  lemma RankStrictlyMonotone(t: Table, s: string, a: string, b: string)
    requires (a, s) in t && (b, s) in t && t[(a, s)] > t[(b, s)]
    ensures Rank(t, s, t[(a, s)]) < Rank(t, s, t[(b, s)])
  {
    var ka: Key := (a, s);
    var aheadA := Ahead(t, s, t[ka]);
    var aheadB := Ahead(t, s, t[(b, s)]);
    assert aheadA <= aheadB;
    assert ka in aheadB && ka !in aheadA;
    SubsetCardinality(aheadA, aheadB);
  }

  /** Ranks are not dense: 100, 100, 50 rank 1, 1, 3. */
  lemma RankSkipsAfterTie()
    ensures var t: Table := map[("A", "score") := 100, ("B", "score") := 100, ("C", "score") := 50];
      Rank(t, "score", 100) == 1 && Rank(t, "score", 50) == 3
  {
    var t: Table := map[("A", "score") := 100, ("B", "score") := 100, ("C", "score") := 50];
    assert Ahead(t, "score", 100) == {};
    assert Ahead(t, "score", 50) == {("A", "score"), ("B", "score")};
  }

  /** The leaderboard rows of player `u`: one per stat row of `u`, with its rank. */
  function TopStats(t: Table, u: string): set<RankedStatistic>
  {
    set k | k in t && k.0 == u :: RankedStatistic(k.1, t[k], Rank(t, k.1, t[k]))
  }

  /** `ORDER BY rank ASC, value DESC`: `a` may come before `b`. */
  predicate Before(a: RankedStatistic, b: RankedStatistic)
  {
    a.rank < b.rank || (a.rank == b.rank && a.statValue >= b.statValue)
  }

  predicate OrderedByRank(xs: seq<RankedStatistic>)
  {
    forall i, j :: 0 <= i < j < |xs| ==> Before(xs[i], xs[j])
  }

  /** Every nonempty set of ranked rows has a first element in the result order. */
  lemma {:induction false} FirstInOrder(s: set<RankedStatistic>) returns (x: RankedStatistic)
    requires s != {}
    ensures x in s && forall y :: y in s ==> Before(x, y)
    decreases |s|
  {
    var z :| z in s;
    if s == {z} {
      x := z;
    } else {
      var m := FirstInOrder(s - {z});
      if Before(m, z) {
        x := m;
      } else {
        x := z;
        forall y | y in s ensures Before(z, y) {
          if y != z {
            assert y in s - {z};
          }
        }
      }
    }
  }

  /**
   * What the leaderboard query promises: each entry is one of `u`'s rows with
   * its rank, every row of `u` appears exactly once, and ranks ascend (values
   * descend within a rank).
   */
  lemma TopStatsEntries(t: Table, u: string, xs: seq<RankedStatistic>)
    requires IsEnumeration(xs, TopStats(t, u)) && OrderedByRank(xs)
    ensures forall i :: 0 <= i < |xs| ==>
      (u, xs[i].statName) in t
      && xs[i].statValue == t[(u, xs[i].statName)]
      && xs[i].rank == Rank(t, xs[i].statName, xs[i].statValue)
      && xs[i].rank >= 1
    ensures forall s :: (u, s) in t <==> exists i :: 0 <= i < |xs| && xs[i].statName == s
    ensures forall i, j :: 0 <= i < j < |xs| ==> xs[i].statName != xs[j].statName
    ensures forall i, j :: 0 <= i < j < |xs| ==>
      xs[i].rank < xs[j].rank || (xs[i].rank == xs[j].rank && xs[i].statValue >= xs[j].statValue)
  {
    forall i | 0 <= i < |xs|
      ensures (u, xs[i].statName) in t && xs[i].statValue == t[(u, xs[i].statName)]
      ensures xs[i].rank == Rank(t, xs[i].statName, xs[i].statValue)
    {
      assert xs[i] in TopStats(t, u);
    }
    forall s | (u, s) in t ensures exists i :: 0 <= i < |xs| && xs[i].statName == s {
      var k: Key := (u, s);
      var e := RankedStatistic(s, t[k], Rank(t, s, t[k]));
      assert e in TopStats(t, u);
      assert e in xs;
    }
  }
}
