/**
 * The table's schema as the three database classes spell it: the table name
 * and the `TableColumn` record for each column. The statements built from
 * them are represented by `QueryApi.Statement`, not by their SQL text.
 */
module Schema {
  import opened Base

  /** A column with its SQL type. */
  datatype TableColumn = TableColumn(name: string, sqlType: string)
  {
    /** `toString`: the bare name, for use inside statements. */
    function ToString(): string
    {
      name
    }

    /** `withType`: name and type separated by one space, for column definitions. */
    function WithType(): (r: string)
      ensures |r| == |name| + 1 + |sqlType|
      ensures r[..|name|] == name && r[|name|] == ' ' && r[|name| + 1..] == sqlType
    {
      name + " " + sqlType
    }
  }

  const IngameStatsTable: string := "plan_ingame_player_statistics"
  const PlayerUuidColumn: TableColumn := TableColumn("player_uuid", "char(36)")
  const StatNameColumn: TableColumn := TableColumn("stat_name", "varchar(255)")
  const ValueColumn: TableColumn := TableColumn("value", "int")

  /** Reads a column definition back: the name up to the first space, the type after it. */
  function ParseColumnDefinition(s: string): (c: TableColumn)
  {
    var i := IndexOf(s, ' ');
    if i < |s| then TableColumn(s[..i], s[i + 1..]) else TableColumn(s, "")
  }

  /** A column name without spaces is recovered, with its type, from its `withType` text. */
  lemma WithTypeRoundTrip(c: TableColumn)
    requires forall j :: 0 <= j < |c.name| ==> c.name[j] != ' '
    ensures ParseColumnDefinition(c.WithType()) == c
  {
    var s := c.WithType();
    assert IndexOf(s, ' ') == |c.name|;
  }
}
