# Plan in-game player statistics extension — a verified model

The extension copies every player's Minecraft statistics into one table of
the Plan analytics plugin's database, `plan_ingame_player_statistics`, with
one row per (player UUID, statistic name) and an `int` value. It keeps that
table in step with Plan's data events and serves it to Plan's web page as
JSON views.

This project models the core of that extension in Dafny and proves what it
promises:

- **The table and its statements** (`stats_table.dfy`, `query_api.dfy`,
  `schema.dfy`).
  - The table is a finite map from (uuid, stat) to a 32-bit value, plus a
    flag saying whether the table exists.
  - It lives in a `QueryService` object that stands for Plan's query
    service. Each statement the extension runs is one method on it:
    `CREATE TABLE [IF NOT EXISTS]`, `DROP TABLE IF EXISTS`,
    `DELETE … WHERE player_uuid = ?`, and the `REPLACE INTO` batch.
  - The queries are also methods on it: `SELECT DISTINCT`, the per-stat
    `SELECT`, and the `RANK()` query.
  - A result set comes back in an unspecified order, except where the query
    has `ORDER BY`.
  - Any statement may also fail inside the engine. A failed statement
    changes nothing.
- **The client code shared by the three database classes** (`queries.dfy`).
  - The result-set loops.
  - The batch of one statistics file.
  - The bootstrap filter, which keeps only files of players the table does
    not know yet.
- **The three database classes.**
  - `database/DatabaseManager.java` (`database_manager.dfy`) writes one
    batch, waits for it, and then subscribes to Plan's events.
  - The older root `DatabaseManager.java` (`legacy_database_manager.dfy`)
    writes one independent statement per file, does not wait, and has
    `getRandomStat`.
  - `QueryAPIAccessor.java` (`query_api_accessor.dfy`) checks
    `doesDBHaveTable`, then runs a plain `CREATE TABLE`.
- **`PlanHook.java`** (`plan_hook.dfy`). Its static fields become one
  object. The object covers:
  - the capability check;
  - the two callbacks, which race to supply "Plan enabled" and "server
    started";
  - the attempt to build the database manager.
- **`web/ServerIngameStatsJSONCreator.java`** (`stats_views.dfy`) covers:
  - dotted view keys and the three `extendPath` overloads, one of which
    changes the caller's list in place;
  - the fixed views and the per-item and per-mob views;
  - the lazily filled list of all views;
  - lookup by key;
  - the JSON response.

Two behaviours follow the code, not a looser description of it:

- **Ranking is SQL `RANK()`.** This is competition ranking. Tied values
  share a rank, and the next value's rank skips past the whole tie: values
  100, 100 and 50 rank 1, 1 and 3 (`StatsTable.RankSkipsAfterTie`). It is
  not dense ranking.
- **Plan's clear-data event drops the table.** Reads after it fail with
  `NoSuchTable` and do not return empty results. The
  `CREATE TABLE IF NOT EXISTS` of the next initialization recreates the
  table.

Source paths below are relative to the repository root.

## Model

| member | source | states |
|---|---|---|
| Schema.TableColumn.WithType | src/main/java/io/github/kr8gz/plan_ingame_player_statistics_extension/database/DatabaseManager.java:52-54 | the column definition is the name, one space, then the SQL type |
| Schema.WithTypeRoundTrip | src/main/java/io/github/kr8gz/plan_ingame_player_statistics_extension/database/DatabaseManager.java:52-60 | for a name without spaces (all three columns), the definition text parses back into the same name and type |
| StatsTable.ApplyBatchConcat | src/main/java/io/github/kr8gz/plan_ingame_player_statistics_extension/database/DatabaseManager.java:206-218 | running a batch equals running its first part and then the rest, so rows added file after file compose |
| StatsTable.ApplyBatchLastWins | src/main/java/io/github/kr8gz/plan_ingame_player_statistics_extension/database/DatabaseManager.java:223-226 | `REPLACE INTO`: a key ends with the value of the last row of the batch that writes it |
| StatsTable.ApplyBatchUntouched | src/main/java/io/github/kr8gz/plan_ingame_player_statistics_extension/database/DatabaseManager.java:223-226 | a key that no row of the batch writes keeps its presence and its value |
| StatsTable.UpsertTwiceKeepsLatest | src/main/java/io/github/kr8gz/plan_ingame_player_statistics_extension/database/DatabaseManager.java:223-226 | writing the same (uuid, stat) twice leaves the second value (replace, not increment) |
| StatsTable.HandlerBatchEffect | src/main/java/io/github/kr8gz/plan_ingame_player_statistics_extension/database/DatabaseManager.java:207-215 | a batch with one row per entry of a file's map, in any order, stores exactly that map under the file's base name and leaves all other rows |
| StatsTable.UpsertAllLastWins | src/main/java/io/github/kr8gz/plan_ingame_player_statistics_extension/database/DatabaseManager.java:206-218 | after several files, a key holds the value of the last file that writes it |
| StatsTable.UpsertAllUntouched | src/main/java/io/github/kr8gz/plan_ingame_player_statistics_extension/database/DatabaseManager.java:206-218 | a key that no file writes is unchanged by writing them all |
| StatsTable.StatNamesEmpty | src/main/java/io/github/kr8gz/plan_ingame_player_statistics_extension/DatabaseManager.java:248-265 | the distinct stat names are empty exactly when the table has no rows |
| StatsTable.Pending | src/main/java/io/github/kr8gz/plan_ingame_player_statistics_extension/database/DatabaseManager.java:113-119 | a file is kept exactly when it is listed and its base name is not a stored UUID; the kept files are a subsequence of the listing, so listing order is kept; never more files than listed |
| StatsTable.BootstrapKeepsStoredPlayers | src/main/java/io/github/kr8gz/plan_ingame_player_statistics_extension/database/DatabaseManager.java:110-121 | writing the pending files never adds, changes or removes a row of an already stored player |
| StatsTable.BootstrapLoadsNewPlayer | src/main/java/io/github/kr8gz/plan_ingame_player_statistics_extension/database/DatabaseManager.java:110-121 | every entry of the only file of a new player is stored with its value |
| StatsTable.Succeeded | src/main/java/io/github/kr8gz/plan_ingame_player_statistics_extension/DatabaseManager.java:82-89 | the files whose independent write completed are among the files written |
| StatsTable.PartialBootstrapKeepsStoredPlayers | src/main/java/io/github/kr8gz/plan_ingame_player_statistics_extension/DatabaseManager.java:79-90 | whichever per-file writes complete, rows of already stored players are untouched |
| StatsTable.RemovePlayerExact | src/main/java/io/github/kr8gz/plan_ingame_player_statistics_extension/database/DatabaseManager.java:158-167 | deleting a UUID removes exactly that player from the stored UUIDs and keeps every other row with its value |
| StatsTable.RemovePlayerIdempotent | src/main/java/io/github/kr8gz/plan_ingame_player_statistics_extension/database/DatabaseManager.java:158-167 | deleting a player with no rows changes nothing; deleting twice is the same as once |
| StatsTable.StatColumnExact | src/main/java/io/github/kr8gz/plan_ingame_player_statistics_extension/database/DatabaseManager.java:249-252 | the per-stat column maps u to v exactly when row (u, stat) holds v, and is empty for a stat nobody has |
| StatsTable.RankBounds | src/main/java/io/github/kr8gz/plan_ingame_player_statistics_extension/database/DatabaseManager.java:291-298 | a rank is at least 1 and at most the number of rows of that stat; tied values share a rank |
| StatsTable.RankStrictlyMonotone | src/main/java/io/github/kr8gz/plan_ingame_player_statistics_extension/database/DatabaseManager.java:293 | a strictly greater value has a strictly smaller rank (`ORDER BY value DESC`) |
| StatsTable.RankSkipsAfterTie | src/main/java/io/github/kr8gz/plan_ingame_player_statistics_extension/database/DatabaseManager.java:293 | values 100, 100, 50 rank 1, 1, 3: competition ranking |
| StatsTable.FirstInOrder | src/main/java/io/github/kr8gz/plan_ingame_player_statistics_extension/database/DatabaseManager.java:298 | every nonempty result set has a first row under `ORDER BY rank ASC, value DESC` |
| StatsTable.TopStatsEntries | src/main/java/io/github/kr8gz/plan_ingame_player_statistics_extension/database/DatabaseManager.java:291-298 | each ranked row is one of the player's own rows, with its value and its rank among all players for that stat |
| QueryApi.QueryService.constructor | src/main/java/io/github/kr8gz/plan_ingame_player_statistics_extension/database/DatabaseManager.java:92 | the service starts with the given table and no statements or subscriptions |
| QueryApi.QueryService.CreateTableIfNotExists | src/main/java/io/github/kr8gz/plan_ingame_player_statistics_extension/database/DatabaseManager.java:135-141 | on success the table exists and an existing table's rows are kept; a failure changes nothing |
| QueryApi.QueryService.CreateTable | src/main/java/io/github/kr8gz/plan_ingame_player_statistics_extension/QueryAPIAccessor.java:46-52 | a plain `CREATE TABLE` on an existing table fails with `TableExists`; on success an empty table exists |
| QueryApi.QueryService.DropTableIfExists | src/main/java/io/github/kr8gz/plan_ingame_player_statistics_extension/database/DatabaseManager.java:150-151 | on success no table and no rows, whether or not a table existed |
| QueryApi.QueryService.DeletePlayer | src/main/java/io/github/kr8gz/plan_ingame_player_statistics_extension/database/DatabaseManager.java:165-167 | fails with `NoSuchTable` when there is no table; on success exactly the player's rows are gone |
| QueryApi.QueryService.ReplaceBatch | src/main/java/io/github/kr8gz/plan_ingame_player_statistics_extension/database/DatabaseManager.java:223-226 | fails with `NoSuchTable` when there is no table; on success the rows are replaced in batch order; a failed batch changes nothing |
| QueryApi.QueryService.HasTable | src/main/java/io/github/kr8gz/plan_ingame_player_statistics_extension/QueryAPIAccessor.java:55 | `doesDBHaveTable` answers whether the table exists, or fails inside the engine |
| QueryApi.QueryService.SelectDistinctUuids | src/main/java/io/github/kr8gz/plan_ingame_player_statistics_extension/database/DatabaseManager.java:188-189 | each stored UUID exactly once; `NoSuchTable` without a table |
| QueryApi.QueryService.SelectDistinctStatNames | src/main/java/io/github/kr8gz/plan_ingame_player_statistics_extension/DatabaseManager.java:264-265 | each stored stat name exactly once; `NoSuchTable` without a table |
| QueryApi.QueryService.SelectStatValues | src/main/java/io/github/kr8gz/plan_ingame_player_statistics_extension/database/DatabaseManager.java:249-252 | one (uuid, value) row per player holding the stat, each player once |
| QueryApi.QueryService.SelectPlayerTopStats | src/main/java/io/github/kr8gz/plan_ingame_player_statistics_extension/database/DatabaseManager.java:289-298 | the player's ranked rows, each once, ordered by rank ascending and then value descending |
| QueryApi.QueryService.SubscribeDataClearEvent | src/main/java/io/github/kr8gz/plan_ingame_player_statistics_extension/database/DatabaseManager.java:97 | appends one data-clear listener and changes nothing else |
| QueryApi.QueryService.SubscribeToPlayerRemoveEvent | src/main/java/io/github/kr8gz/plan_ingame_player_statistics_extension/database/DatabaseManager.java:98 | appends one player-remove listener and changes nothing else |
| QueryApi.Enumerate | src/main/java/io/github/kr8gz/plan_ingame_player_statistics_extension/database/DatabaseManager.java:188-189 | an unordered result set lists every element of the answer exactly once |
| QueryApi.SortByRank | src/main/java/io/github/kr8gz/plan_ingame_player_statistics_extension/database/DatabaseManager.java:298 | `ORDER BY rank ASC, value DESC` lists every row once, in that order |
| Queries.GetExistingUuids | src/main/java/io/github/kr8gz/plan_ingame_player_statistics_extension/database/DatabaseManager.java:176-186 | the distinct stored UUIDs, each once; fails without a table (the same loop in all three classes) |
| Queries.GetStatForAllPlayers | src/main/java/io/github/kr8gz/plan_ingame_player_statistics_extension/database/DatabaseManager.java:235-247 | exactly { u ↦ v : row (u, stat) holds v }, empty when no player has the stat; fails without a table (the same loop in all three classes; the two older ones key the map by the raw string) |
| Queries.GetPlayerTopStats | src/main/java/io/github/kr8gz/plan_ingame_player_statistics_extension/database/DatabaseManager.java:273-287 | one entry per stat row of the player and nothing else, with its competition rank, ordered by rank ascending then value descending (the same loop in all three classes) |
| Queries.HandlerBatch | src/main/java/io/github/kr8gz/plan_ingame_player_statistics_extension/database/DatabaseManager.java:207-215 | one row per entry of the file's map, each with the file's base name, whatever order the map is iterated in; running it on any table stores exactly that map under the base name and keeps every other row |
| Queries.UpdateHandlerStats | src/main/java/io/github/kr8gz/plan_ingame_player_statistics_extension/DatabaseManager.java:154-166 | one `REPLACE INTO` batch of the file's entries; on success the file's map is stored under its base name and other rows are unchanged; on failure nothing changes (the per-file write of the two older classes) |
| Queries.PendingStatFiles | src/main/java/io/github/kr8gz/plan_ingame_player_statistics_extension/database/DatabaseManager.java:110-119 | a listing I/O error fails; otherwise the listed files whose base name is not stored, in listing order, or the UUID query's error (the same filter in all three classes) |
| Queries.WriteEach | src/main/java/io/github/kr8gz/plan_ingame_player_statistics_extension/DatabaseManager.java:82-89 | one outcome and one batch statement per pending file, in order; the table holds the rows of exactly the files whose write completed; without a table every write fails (the per-file bootstrap of the two older classes) |
| Database.DatabaseManager.constructor | src/main/java/io/github/kr8gz/plan_ingame_player_statistics_extension/database/DatabaseManager.java:92-93 | the manager keeps the query service and the server |
| Database.DatabaseManager.Create | src/main/java/io/github/kr8gz/plan_ingame_player_statistics_extension/database/DatabaseManager.java:91-99 | on success the table exists, every pending file is loaded, and exactly the two listeners are subscribed; when initialization fails nothing is subscribed and no row changed |
| Database.DatabaseManager.InitializeDatabase | src/main/java/io/github/kr8gz/plan_ingame_player_statistics_extension/database/DatabaseManager.java:107-133 | `CREATE TABLE IF NOT EXISTS` is the first statement; a listing error fails with `ListingFailed`; any failure leaves every row unchanged; on success the table exists, every pending file is stored, and the count is the number of pending files |
| Database.DatabaseManager.UpdatePlayerStats | src/main/java/io/github/kr8gz/plan_ingame_player_statistics_extension/database/DatabaseManager.java:203-221 | empty collection: no handle and no statement; otherwise one batch and a handle, even when every map is empty; on success every file's entries are stored, later files winning, other rows unchanged |
| Database.DatabaseManager.ClearData | src/main/java/io/github/kr8gz/plan_ingame_player_statistics_extension/database/DatabaseManager.java:146-151 | on success no table and no rows remain; it fails only inside the engine, never because the table is already gone |
| Database.DatabaseManager.RemovePlayer | src/main/java/io/github/kr8gz/plan_ingame_player_statistics_extension/database/DatabaseManager.java:158-167 | deletes exactly the player's rows; fails with `NoSuchTable` after a clear |
| Database.BatchRows | src/main/java/io/github/kr8gz/plan_ingame_player_statistics_extension/database/DatabaseManager.java:206-218 | the combined batch of all files has the effect of writing the files one after the other, on any table |
| LegacyDatabase.DatabaseManager.constructor | src/main/java/io/github/kr8gz/plan_ingame_player_statistics_extension/DatabaseManager.java:66 | the manager keeps the query service |
| LegacyDatabase.DatabaseManager.Create | src/main/java/io/github/kr8gz/plan_ingame_player_statistics_extension/DatabaseManager.java:65-68 | on success one write per pending file, and the table holds the rows of the files whose write completed; a listing error fails with no row changed |
| LegacyDatabase.DatabaseManager.InitializeDatabase | src/main/java/io/github/kr8gz/plan_ingame_player_statistics_extension/DatabaseManager.java:76-95 | `CREATE TABLE IF NOT EXISTS`, then the pending files' independent writes, whose outcomes are not awaited |
| LegacyDatabase.DatabaseManager.GetRandomStat | src/main/java/io/github/kr8gz/plan_ingame_player_statistics_extension/DatabaseManager.java:248-262 | empty exactly when the table has no rows; otherwise a stat name that some row has |
| Accessor.QueryApiAccessor.constructor | src/main/java/io/github/kr8gz/plan_ingame_player_statistics_extension/QueryAPIAccessor.java:42 | the accessor keeps the query service |
| Accessor.QueryApiAccessor.Create | src/main/java/io/github/kr8gz/plan_ingame_player_statistics_extension/QueryAPIAccessor.java:41-44 | as the older class, and a table that already exists is never created again |
| Accessor.QueryApiAccessor.InitializeDatabase | src/main/java/io/github/kr8gz/plan_ingame_player_statistics_extension/QueryAPIAccessor.java:54-75 | create the table only if absent, then one write per pending file; no plain `CREATE TABLE` runs when the table exists |
| Accessor.QueryApiAccessor.CreateTableUnlessPresent | src/main/java/io/github/kr8gz/plan_ingame_player_statistics_extension/QueryAPIAccessor.java:55-57 | the existence check runs first; `CREATE TABLE` runs only when the answer is "absent", and rows are unchanged |
| Hook.FirstMissingCapability | src/main/java/io/github/kr8gz/plan_ingame_player_statistics_extension/PlanHook.java:36-45 | none exactly when every capability is available; otherwise the first missing one, where checking stops |
| Hook.RequiredCapabilitiesExact | src/main/java/io/github/kr8gz/plan_ingame_player_statistics_extension/PlanHook.java:15-21 | the check passes exactly when all five named capabilities are present |
| Hook.PlanHook.constructor | src/main/java/io/github/kr8gz/plan_ingame_player_statistics_extension/PlanHook.java:25-27 | Plan not enabled, no server, no manager, no listeners |
| Hook.PlanHook.HookIntoPlan | src/main/java/io/github/kr8gz/plan_ingame_player_statistics_extension/PlanHook.java:29-34 | both listeners are registered when the capabilities are available, and none otherwise |
| Hook.PlanHook.TryRegisterPlanExtensions | src/main/java/io/github/kr8gz/plan_ingame_player_statistics_extension/PlanHook.java:47-58 | always stores the flag and the server; does nothing more unless Plan is enabled and the server is known; success stores a fresh, initialized manager; any failure keeps the previous manager; when page registration fails no statement runs, since the manager is built only after it |
| Hook.PlanHook.OnPlanEnable | src/main/java/io/github/kr8gz/plan_ingame_player_statistics_extension/PlanHook.java:31 | the new flag with the last stored server; skipped exactly when disabled or no server was seen yet |
| Hook.PlanHook.OnServerStarting | src/main/java/io/github/kr8gz/plan_ingame_player_statistics_extension/PlanHook.java:32 | the new server with the last stored flag; skipped exactly when Plan was not yet enabled |
| Hook.PlanHook.GetDatabaseManager | src/main/java/io/github/kr8gz/plan_ingame_player_statistics_extension/PlanHook.java:79-81 | the stored manager if one was built, otherwise empty |
| StatsViews.SplitJoin | src/main/java/io/github/kr8gz/plan_ingame_player_statistics_extension/web/ServerIngameStatsJSONCreator.java:24-26 | the key of a nonempty path without dots splits back into that path |
| StatsViews.JoinInjective | src/main/java/io/github/kr8gz/plan_ingame_player_statistics_extension/web/ServerIngameStatsJSONCreator.java:24-26 | two such paths have the same key exactly when they are equal |
| StatsViews.PathList.constructor | src/main/java/io/github/kr8gz/plan_ingame_player_statistics_extension/web/ServerIngameStatsJSONCreator.java:36 | a new list with the given elements |
| StatsViews.ExtendPathList | src/main/java/io/github/kr8gz/plan_ingame_player_statistics_extension/web/ServerIngameStatsJSONCreator.java:39-42 | inserts the parent at index 0 of the caller's list and returns that same list, the old elements following in order |
| StatsViews.ExtendPath | src/main/java/io/github/kr8gz/plan_ingame_player_statistics_extension/web/ServerIngameStatsJSONCreator.java:35-37 | a new list holding exactly [parent, child] |
| StatsViews.ExtendPathRegistry | src/main/java/io/github/kr8gz/plan_ingame_player_statistics_extension/web/ServerIngameStatsJSONCreator.java:29-33 | [parent, path of the object's id]; fails, naming the registry, when the object has no id |
| StatsViews.Registry.GetId | src/main/java/io/github/kr8gz/plan_ingame_player_statistics_extension/web/ServerIngameStatsJSONCreator.java:30 | an id exactly when the object is registered, and then one it is registered under |
| StatsViews.ApplicableItemStats | src/main/java/io/github/kr8gz/plan_ingame_player_statistics_extension/web/ServerIngameStatsJSONCreator.java:217-229 | five statistics of the item, plus `mined` of its block for a block item |
| StatsViews.CategoryView | src/main/java/io/github/kr8gz/plan_ingame_player_statistics_extension/web/ServerIngameStatsJSONCreator.java:74-76 | the key is `<category>.<name>` and the statistics are the given ones, in order (the plain-name constructor of every category: general, movement, interactions, items, mobs) |
| StatsViews.CategoryViewOfPath | src/main/java/io/github/kr8gz/plan_ingame_player_statistics_extension/web/ServerIngameStatsJSONCreator.java:202-204 | the category is inserted at the front of the caller's list, and the key is that whole list joined (the list-path constructors of the items and mobs categories) |
| StatsViews.SpecificItem | src/main/java/io/github/kr8gz/plan_ingame_player_statistics_extension/web/ServerIngameStatsJSONCreator.java:212-229 | key `items.specific_item.<item path>` with the item's applicable statistics; fails exactly for an unregistered item |
| StatsViews.SpecificMob | src/main/java/io/github/kr8gz/plan_ingame_player_statistics_extension/web/ServerIngameStatsJSONCreator.java:259-265 | key `mobs.specific_mob.<entity path>` with killed and killed-by; fails exactly for an unregistered type |
| StatsViews.ItemViews | src/main/java/io/github/kr8gz/plan_ingame_player_statistics_extension/web/ServerIngameStatsJSONCreator.java:231 | one view per registered item, in registry order, each with its item's key |
| StatsViews.MobViews | src/main/java/io/github/kr8gz/plan_ingame_player_statistics_extension/web/ServerIngameStatsJSONCreator.java:268 | one view per registered entity type, in registry order, each with its key |
| StatsViews.GeneralViews | src/main/java/io/github/kr8gz/plan_ingame_player_statistics_extension/web/ServerIngameStatsJSONCreator.java:78-98 | playtime, damage dealt, damage taken, kills and deaths, with 4, 3, 4 and 2 custom statistics |
| StatsViews.MovementViews | src/main/java/io/github/kr8gz/plan_ingame_player_statistics_extension/web/ServerIngameStatsJSONCreator.java:108-132 | ground, air, water, vehicle, with 5, 4, 3 and 5 custom statistics |
| StatsViews.InteractionViews | src/main/java/io/github/kr8gz/plan_ingame_player_statistics_extension/web/ServerIngameStatsJSONCreator.java:142-192 | the eight block interaction views in list order, with their custom statistic counts |
| StatsViews.MobOverviewViews | src/main/java/io/github/kr8gz/plan_ingame_player_statistics_extension/web/ServerIngameStatsJSONCreator.java:246-257 | overview, raids, villagers, with two custom statistics each |
| StatsViews.ViewCatalog.constructor | src/main/java/io/github/kr8gz/plan_ingame_player_statistics_extension/web/ServerIngameStatsJSONCreator.java:272 | the view list starts empty; the specific item and mob views are built once, one per registry entry, each with its key |
| StatsViews.ViewCatalog.GetAll | src/main/java/io/github/kr8gz/plan_ingame_player_statistics_extension/web/ServerIngameStatsJSONCreator.java:274-304 | fills the list only when it is empty, in the fixed order: 4 general, 4 movement and 8 block interaction views (each key and statistic count stated), the items overview, every specific item, the 3 mob views, every specific mob; once filled, a call returns the same list unchanged |
| StatsViews.ViewCatalog.FilledKeysFound | src/main/java/io/github/kr8gz/plan_ingame_player_statistics_extension/web/ServerIngameStatsJSONCreator.java:274-309 | in the filled list, looking up the key of any fixed view, any specific item view or any specific mob view finds a view |
| StatsViews.ViewCatalog.GetByKey | src/main/java/io/github/kr8gz/plan_ingame_player_statistics_extension/web/ServerIngameStatsJSONCreator.java:306-310 | fills the list first when it is empty, so the searched list is always the filled catalog; some listed view with that key, or empty exactly when no listed view has it |
| StatsViews.FindByKey | src/main/java/io/github/kr8gz/plan_ingame_player_statistics_extension/web/ServerIngameStatsJSONCreator.java:307-309 | a view of the list with the key, or none exactly when no view has it |
| StatsViews.ValuesObject | src/main/java/io/github/kr8gz/plan_ingame_player_statistics_extension/web/ServerIngameStatsJSONCreator.java:51-52 | the `values` object has one number member per map entry, keys distinct, covering the map |
| StatsViews.ValuesObjectRoundTrip | src/main/java/io/github/kr8gz/plan_ingame_player_statistics_extension/web/ServerIngameStatsJSONCreator.java:51-52 | reading such an object back gives exactly the map it was built from |
| StatsViews.GetJSONResponse | src/main/java/io/github/kr8gz/plan_ingame_player_statistics_extension/web/ServerIngameStatsJSONCreator.java:44-69 | BadRequest "In-game player statistics database is not yet initialized." exactly when no manager exists; with a manager, `NoSuchTable` after a clear (for a view with statistics) or an engine error propagates; on success `{"key": …, "stats": […]}` with one entry per statistic of the view, in order, each listing every stored player's value of it exactly once |

## Left out

- Asynchrony. Plan runs statements on its own threads and returns futures. The model runs each statement to completion, in call order. The older classes do not await their writes; the model reports whether each one completed but cannot show a read that overtakes a write. The newest class does not await its `CREATE TABLE IF NOT EXISTS`; the model does not look at that statement's outcome.
- SQL text. Statements and queries are operations on the table, not strings. `Schema` keeps the table and column names and their `withType` text. The `char(36)` and `varchar(255)` length limits are not enforced.
- `logInitializationProgress`: a logging timer with no effect on the data.
- Logging in general, including the capability check's error message and the exception message of a failed initialization. Failures are values (`InitError`, `Attempt`).
- File access. A listing of the stats directory is given as a value (`Listed` or `ListingIoError`). Reading a file into a `ServerStatHandler` is outside the model. `FilenameUtils.getBaseName` is given as each file's `baseName`.
- Queries.GetStatForAllPlayers: for the newest class, the map is keyed by the raw stored string. `UUID.fromString`, its normalization and its exception on a malformed UUID are not modelled. The JSON writes `UUID.toString()`, which is also not modelled.
- `java.util.Random` in `getRandomStat`: any index of the list may be chosen.
- `registerPageExtension`: resource reading and the JavaScript registration are reduced to a nondeterministic failure (`PageRegistrationFailed`).
- Plan's event dispatch, the game's lifecycle events and the capability service are not modelled; the callbacks and the data events are methods the caller invokes. Listeners of an earlier manager are never unsubscribed in the source; the model records all subscriptions but does not dispatch them.
- QueryApi.QueryService.DeletePlayer, Database.DatabaseManager.RemovePlayer and Queries.GetPlayerTopStats take the player's UUID as its string form. In the source they receive a `java.util.UUID` and bind `playerUUID.toString()`, its canonical lower-case text; that conversion is not modelled.
- StatsViews.FindByKey: no uniqueness of view keys is promised. The key of a specific item or mob uses only the path of its identifier, so two entries of different namespaces get the same key, and lookup then finds the first of them.
- The game's registries are given as sequences of entries. A defaulted registry's fallback id is not modelled. The ids of the custom statistics are written as the lower-case names of the game's constants.
- Gson serialization and the HTTP `Response`: the model stops at the JSON tree. Its object members keep insertion order.
- Statistic values are 32-bit (`Int32`). Ranks are natural numbers: a table has fewer than 2^31 rows per statistic, so no rank overflows.
- The `IllegalStateException` of `QueryService.getInstance()` before Plan is enabled is not modelled. The callbacks only build a manager once Plan is enabled.
- `DatabaseInitializationException` is the failure value `InitError`.
- `getJSONResponse` reaches the manager through a `common.PlanHook`, which is not part of this model; the model uses the package-root `PlanHook`.
- The game's `/test` command, the HTTP resolver, the player-join mixin and the older package's wiring are not part of this model.
