/**
 * `ServerIngameStatsJSONCreator`: the server-wide statistics views the web
 * page requests by key. A view has a dotted key built from its category and
 * name, and a fixed list of game statistics; its JSON response lists, for each
 * of those statistics, every stored player's value.
 */
module StatsViews {
  import opened Base
  import opened StatsTable
  import opened QueryApi
  import opened Queries
  import Database
  import Hook

  // ---------------------------------------------------------------------------
  // Keys: `String.join(".", path)`
  // ---------------------------------------------------------------------------

  /** `String.join(".", path)`. */
  function Join(path: seq<string>): string
    decreases |path|
  {
    if path == [] then ""
    else if |path| == 1 then path[0]
    else path[0] + "." + Join(path[1..])
  }

  /** Splits a key at every '.', the inverse of `Join` on components without dots. */
  function Split(s: string): seq<string>
    decreases |s|
  {
    var i := IndexOf(s, '.');
    if i == |s| then [s] else [s[..i]] + Split(s[i + 1..])
  }

  predicate NoDot(s: string)
  {
    forall j :: 0 <= j < |s| ==> s[j] != '.'
  }

  /** A nonempty path whose components have no dots is recovered from its key. */
  lemma {:induction false} SplitJoin(path: seq<string>)
    requires |path| >= 1 && forall i :: 0 <= i < |path| ==> NoDot(path[i])
    ensures Split(Join(path)) == path
    decreases |path|
  {
    var head := path[0];
    if |path| == 1 {
      assert IndexOf(head, '.') == |head|;
    } else {
      var rest := Join(path[1..]);
      var s := head + "." + rest;
      assert Join(path) == s;
      assert IndexOf(s, '.') == |head| by {
        assert s[|head|] == '.';
        assert forall j :: 0 <= j < |head| ==> s[j] == head[j];
      }
      assert s[..|head|] == head && s[|head| + 1..] == rest;
      SplitJoin(path[1..]);
      assert path == [head] + path[1..];
    }
  }

  /** Prepending a component to a nonempty path puts it and a dot before the path's key. */
  lemma JoinCons(head: string, path: seq<string>)
    requires |path| >= 1
    ensures Join([head] + path) == head + "." + Join(path)
  {
    assert ([head] + path)[1..] == path;
  }

  /** Two such paths have the same key only if they are the same path. */
  lemma JoinInjective(p: seq<string>, q: seq<string>)
    requires |p| >= 1 && forall i :: 0 <= i < |p| ==> NoDot(p[i])
    requires |q| >= 1 && forall i :: 0 <= i < |q| ==> NoDot(q[i])
    ensures Join(p) == Join(q) <==> p == q
  {
    SplitJoin(p);
    SplitJoin(q);
  }

  // ---------------------------------------------------------------------------
  // The three `extendPath` overloads
  // ---------------------------------------------------------------------------

  /** A mutable `List<String>` of path components. */
  class PathList {
    var elems: seq<string>

    constructor (elems: seq<string>)
      ensures this.elems == elems
    {
      this.elems := elems;
    }
  }

  /** `extendPath(parent, List)`: inserts `parent` at the front of the list itself and returns that same list. */
  method ExtendPathList(parent: string, path: PathList) returns (r: PathList)
    modifies path
    ensures r == path && path.elems == [parent] + old(path.elems)
  {
    path.elems := [parent] + path.elems;
    r := path;
  }

  /** `extendPath(parent, String)`: a new list holding `parent` and then `child`. */
  method ExtendPath(parent: string, child: string) returns (r: PathList)
    ensures fresh(r) && r.elems == [parent, child]
  {
    var single := new PathList([child]);
    r := ExtendPathList(parent, single);
  }

  /** A namespaced game identifier, `namespace:path`. */
  datatype Identifier = Identifier(namespace: string, path: string)

  function Minecraft(path: string): Identifier
  {
    Identifier("minecraft", path)
  }

  /** A game registry: the registry's own key and its entries with their identifiers, in registry order. */
  datatype Registry<T(==)> = Registry(key: Identifier, entries: seq<(T, Identifier)>)
  {
    /** `getId`: the identifier under which `obj` is registered, none when it is not. */
    function GetId(obj: T): (r: Option<Identifier>)
      ensures r.None? <==> forall i :: 0 <= i < |entries| ==> entries[i].0 != obj
      ensures r.Some? ==> exists i :: 0 <= i < |entries| && entries[i] == (obj, r.value)
    {
      FirstId(entries, obj)
    }
  }

  function FirstId<T(==)>(entries: seq<(T, Identifier)>, obj: T): (r: Option<Identifier>)
    ensures r.None? <==> forall i :: 0 <= i < |entries| ==> entries[i].0 != obj
    ensures r.Some? ==> exists i :: 0 <= i < |entries| && entries[i] == (obj, r.value)
    decreases |entries|
  {
    if entries == [] then None
    else if entries[0].0 == obj then Some(entries[0].1)
    else
      var r := FirstId(entries[1..], obj);
      assert r.Some? ==> exists i :: 1 <= i < |entries| && entries[i] == (obj, r.value) by {
        if r.Some? {
          var i :| 0 <= i < |entries[1..]| && entries[1..][i] == (obj, r.value);
          assert entries[i + 1] == (obj, r.value);
        }
      }
      r
  }

  datatype RegistryError = NotInRegistry(registry: Identifier)

  /**
   * `extendPath(parent, registry, object)`: the parent and the path part of
   * the object's identifier; `Objects.requireNonNull` throws when the object
   * is not registered.
   */
  method ExtendPathRegistry<T(==)>(parent: string, registry: Registry<T>, obj: T) returns (r: Result<PathList, RegistryError>)
    ensures registry.GetId(obj).None? ==> r == Failure(NotInRegistry(registry.key))
    ensures registry.GetId(obj).Some? ==> (r.Success? && fresh(r.value)
      && r.value.elems == [parent, registry.GetId(obj).value.path])
  {
    var id := registry.GetId(obj);
    if id.None? {
      return Failure(NotInRegistry(registry.key));
    }
    var p := ExtendPath(parent, id.value.path);
    r := Success(p);
  }

  // ---------------------------------------------------------------------------
  // Game statistics
  // ---------------------------------------------------------------------------

  /** A statistic: its type (custom, crafted, killed, ...) and the identifier of what it counts. */
  datatype Stat = Stat(statType: Identifier, subject: Identifier)
  {
    /** `Stat.getName()`: both identifiers with ':' written as '.', joined by ':'. */
    function Name(): string
    {
      statType.namespace + "." + statType.path + ":" + subject.namespace + "." + subject.path
    }
  }

  /** The general-purpose statistic `Stats.CUSTOM.getOrCreateStat(...)` registered under `minecraft:<name>`. */
  function Custom(name: string): Stat
  {
    Stat(Minecraft("custom"), Minecraft(name))
  }

  /** A game item; `block` is the identifier of its block when it is a `BlockItem`. */
  class Item {
    const block: Option<Identifier>

    constructor (block: Option<Identifier>)
      ensures this.block == block
    {
      this.block := block;
    }
  }

  /** A game entity type (only its identity matters here). */
  class EntityType {
    constructor ()
    {
    }
  }

  /** `SpecificItem.getApplicableStats`: crafted, used, picked up, dropped, broken, and mined for a block item. */
  function ApplicableItemStats(itemId: Identifier, block: Option<Identifier>): (r: seq<Stat>)
    ensures |r| == if block.Some? then 6 else 5
    ensures forall i :: 0 <= i < 5 ==> r[i].subject == itemId
    ensures block.Some? ==> r[5] == Stat(Minecraft("mined"), block.value)
  {
    [ Stat(Minecraft("crafted"), itemId),
      Stat(Minecraft("used"), itemId),
      Stat(Minecraft("picked_up"), itemId),
      Stat(Minecraft("dropped"), itemId),
      Stat(Minecraft("broken"), itemId) ]
    + (if block.Some? then [Stat(Minecraft("mined"), block.value)] else [])
  }

  /** The statistics of `SpecificMob`: killed and killed by. */
  function MobStats(entityId: Identifier): (r: seq<Stat>)
  {
    [Stat(Minecraft("killed"), entityId), Stat(Minecraft("killed_by"), entityId)]
  }

  // ---------------------------------------------------------------------------
  // Views and categories
  // ---------------------------------------------------------------------------

  /** One `ServerIngameStatsJSONCreator`: its key and its statistics. */
  datatype View = View(key: string, stats: seq<Stat>)

  const GeneralKey: string := "general"
  const MovementKey: string := "movement"
  const BlockInteractionsKey: string := "interactions"
  const ItemsKey: string := "items"
  const SpecificItemKey: string := "specific_item"
  const MobsKey: string := "mobs"
  const SpecificMobKey: string := "specific_mob"

  /**
   * The constructor every category has for a plain name:
   * `super(extendPath(CATEGORY_KEY, name), stats)`.
   */
  method CategoryView(category: string, name: string, stats: seq<Stat>) returns (v: View)
    ensures v.key == category + "." + name && v.stats == stats
  {
    var path := ExtendPath(category, name);
    JoinCons(category, [name]);
    v := View(Join(path.elems), stats);
  }

  /**
   * The list-path constructor of `ItemsCategory` and `MobsCategory`: the
   * category is inserted at the front of the caller's list.
   */
  method CategoryViewOfPath(category: string, path: PathList, stats: seq<Stat>) returns (v: View)
    modifies path
    ensures path.elems == [category] + old(path.elems)
    ensures v.key == Join([category] + old(path.elems)) && v.stats == stats
    ensures |old(path.elems)| >= 1 ==> v.key == category + "." + Join(old(path.elems))
  {
    var extended := ExtendPathList(category, path);
    v := View(Join(extended.elems), stats);
  }

  /** `items.specific_item.<path>`, the key of a specific item's view. */
  function ItemViewKey(path: string): string
  {
    ItemsKey + "." + SpecificItemKey + "." + path
  }

  /** `mobs.specific_mob.<path>`, the key of a specific mob's view. */
  function MobViewKey(path: string): string
  {
    MobsKey + "." + SpecificMobKey + "." + path
  }

  /** `new SpecificItem(item)`: key `items.specific_item.<item path>`; fails for an unregistered item. */
  method SpecificItem(registry: Registry<Item>, item: Item) returns (r: Result<View, RegistryError>)
    ensures registry.GetId(item).None? <==> r.Failure?
    ensures r.Success? ==> (registry.GetId(item).Some?
      && r.value.key == ItemViewKey(registry.GetId(item).value.path)
      && r.value.stats == ApplicableItemStats(registry.GetId(item).value, item.block))
  {
    var path := ExtendPathRegistry(SpecificItemKey, registry, item);
    if path.Failure? {
      return Failure(path.error);
    }
    var id := registry.GetId(item).value;
    var v := CategoryViewOfPath(ItemsKey, path.value, ApplicableItemStats(id, item.block));
    JoinCons(SpecificItemKey, [id.path]);
    r := Success(v);
  }

  /** `new SpecificMob(entityType)`: key `mobs.specific_mob.<entity path>`; fails for an unregistered type. */
  method SpecificMob(registry: Registry<EntityType>, entityType: EntityType) returns (r: Result<View, RegistryError>)
    ensures registry.GetId(entityType).None? <==> r.Failure?
    ensures r.Success? ==> (registry.GetId(entityType).Some?
      && r.value.key == MobViewKey(registry.GetId(entityType).value.path)
      && r.value.stats == MobStats(registry.GetId(entityType).value))
  {
    var path := ExtendPathRegistry(SpecificMobKey, registry, entityType);
    if path.Failure? {
      return Failure(path.error);
    }
    var id := registry.GetId(entityType).value;
    var v := CategoryViewOfPath(MobsKey, path.value, MobStats(id));
    JoinCons(SpecificMobKey, [id.path]);
    r := Success(v);
  }

  /** `SpecificItem.ITEMS`: one view per entry of the item registry, in registry order. */
  method ItemViews(registry: Registry<Item>) returns (vs: seq<View>)
    ensures |vs| == |registry.entries|
    ensures forall i :: 0 <= i < |vs| ==> (registry.GetId(registry.entries[i].0).Some?
      && vs[i].key == ItemViewKey(registry.GetId(registry.entries[i].0).value.path))
  {
    vs := [];
    var i := 0;
    while i < |registry.entries|
      invariant 0 <= i <= |registry.entries| && |vs| == i
      invariant forall j :: 0 <= j < i ==> (registry.GetId(registry.entries[j].0).Some?
        && vs[j].key == ItemViewKey(registry.GetId(registry.entries[j].0).value.path))
    {
      var v := SpecificItem(registry, registry.entries[i].0);
      vs := vs + [v.value];
      i := i + 1;
    }
  }

  /** `SpecificMob.MOBS`: one view per entry of the entity type registry, in registry order. */
  method MobViews(registry: Registry<EntityType>) returns (vs: seq<View>)
    ensures |vs| == |registry.entries|
    ensures forall i :: 0 <= i < |vs| ==> (registry.GetId(registry.entries[i].0).Some?
      && vs[i].key == MobViewKey(registry.GetId(registry.entries[i].0).value.path))
  {
    vs := [];
    var i := 0;
    while i < |registry.entries|
      invariant 0 <= i <= |registry.entries| && |vs| == i
      invariant forall j :: 0 <= j < i ==> (registry.GetId(registry.entries[j].0).Some?
        && vs[j].key == MobViewKey(registry.GetId(registry.entries[j].0).value.path))
    {
      var v := SpecificMob(registry, registry.entries[i].0);
      vs := vs + [v.value];
      i := i + 1;
    }
  }

  /** The names of the general views, in `getAll` order. */
  const GeneralNames: seq<string> := ["playtime", "damage_dealt", "damage_taken", "kills_deaths"]
  /** The names of the movement views, in `getAll` order. */
  const MovementNames: seq<string> := ["ground", "air", "water", "vehicle"]
  /** The names of the block interaction views, in `getAll` order. */
  const InteractionNames: seq<string> :=
    ["storage", "crafting", "smelting", "redstone", "music", "utility", "cauldron", "misc"]
  /** The names of the three mob views before the specific mobs. */
  const MobOverviewNames: seq<string> := ["overview", "raids", "villagers"]

  /**
   * View `i` of `views` has key `<category>.<names[i]>` and holds
   * `counts[i]` statistics, every one a general-purpose (custom) statistic.
   */
  predicate CustomViews(views: seq<View>, category: string, names: seq<string>, counts: seq<nat>)
  {
    && |views| == |names| == |counts|
    && (forall i :: 0 <= i < |views| ==> views[i].key == category + "." + names[i] && |views[i].stats| == counts[i])
    && (forall i, s :: 0 <= i < |views| && s in views[i].stats ==> s.statType == Minecraft("custom"))
  }

  /** The five consecutive pieces of a concatenation are its slices. */
  lemma SlicesOfConcat<T>(a: seq<T>, b: seq<T>, c: seq<T>, d: seq<T>, e: seq<T>, s: seq<T>)
    requires s == a + b + c + d + e
    ensures s[..|a|] == a
    ensures s[|a|..|a| + |b|] == b
    ensures s[|a| + |b|..|a| + |b| + |c|] == c
    ensures s[|a| + |b| + |c|..|a| + |b| + |c| + |d|] == d
    ensures s[|a| + |b| + |c| + |d|..] == e
  {
    assert s == a + (b + (c + (d + e)));
  }

  /** The lazily filled `ALL_VIEWS` list, and the specific item and mob views built at class initialization. */
  class ViewCatalog {
    var allViews: seq<View>
    const itemViews: seq<View>
    const mobViews: seq<View>

    /**
     * `views` is the filled `ALL_VIEWS` list: the general, movement and block
     * interaction views, the items overview, every specific item, the three
     * mob views and every specific mob, in that order.
     */
    predicate Filled(views: seq<View>)
    {
      var n := |itemViews|;
      && |views| == 20 + n + |mobViews|
      && CustomViews(views[..4], GeneralKey, GeneralNames, [4, 3, 4, 2])
      && CustomViews(views[4..8], MovementKey, MovementNames, [5, 4, 3, 5])
      && CustomViews(views[8..16], BlockInteractionsKey, InteractionNames, [4, 5, 4, 5, 3, 5, 5, 4])
      && views[16] == View(ItemsKey + "." + "overview", [Custom("drop"), Custom("enchant_item"), Custom("fish_caught")])
      && views[17..17 + n] == itemViews
      && CustomViews(views[17 + n..20 + n], MobsKey, MobOverviewNames, [2, 2, 2])
      && views[20 + n..] == mobViews
    }

    /** The list is either not filled yet or filled completely. */
    ghost predicate Valid()
      reads this
    {
      allViews == [] || Filled(allViews)
    }

    constructor (itemRegistry: Registry<Item>, mobRegistry: Registry<EntityType>)
      ensures Valid() && allViews == []
      ensures |itemViews| == |itemRegistry.entries| && |mobViews| == |mobRegistry.entries|
      ensures forall i :: 0 <= i < |itemViews| ==> (itemRegistry.GetId(itemRegistry.entries[i].0).Some?
        && itemViews[i].key == ItemViewKey(itemRegistry.GetId(itemRegistry.entries[i].0).value.path))
      ensures forall i :: 0 <= i < |mobViews| ==> (mobRegistry.GetId(mobRegistry.entries[i].0).Some?
        && mobViews[i].key == MobViewKey(mobRegistry.GetId(mobRegistry.entries[i].0).value.path))
    {
      var items := ItemViews(itemRegistry);
      var mobs := MobViews(mobRegistry);
      allViews := [];
      itemViews := items;
      mobViews := mobs;
    }

    /**
     * `getAll`: on the first call fill the list, in the fixed order (general,
     * movement, interactions, items overview, every specific item, the three
     * mob views, every specific mob); afterwards return it unchanged.
     */
    method GetAll() returns (r: seq<View>)
      requires Valid()
      modifies this
      ensures Valid() && r == allViews && Filled(allViews)
      ensures old(allViews) != [] ==> allViews == old(allViews)
    {
      if allViews == [] {
        var general := GeneralViews();
        var movement := MovementViews();
        var interactions := InteractionViews();
        var itemsOverview := CategoryView(ItemsKey, "overview",
          [Custom("drop"), Custom("enchant_item"), Custom("fish_caught")]);
        var mobOverviews := MobOverviewViews();
        var leading := general + movement + interactions;
        SlicesOfConcat(general, movement, interactions, [], [], leading);
        allViews := leading + [itemsOverview] + itemViews + mobOverviews + mobViews;
        SlicesOfConcat(leading, [itemsOverview], itemViews, mobOverviews, mobViews, allViews);
        assert allViews[..16][..4] == general;
        assert allViews[..16][4..8] == movement;
        assert allViews[..16][8..16] == interactions;
      }
      r := allViews;
    }

    /** In the filled list, the key of every fixed view and of every specific item and mob is found. */
    lemma FilledKeysFound(views: seq<View>)
      requires Filled(views)
      ensures forall j :: 0 <= j < 4 ==> FindByKey(views, GeneralKey + "." + GeneralNames[j]).Some?
      ensures forall j :: 0 <= j < 4 ==> FindByKey(views, MovementKey + "." + MovementNames[j]).Some?
      ensures forall j :: 0 <= j < 8 ==> FindByKey(views, BlockInteractionsKey + "." + InteractionNames[j]).Some?
      ensures FindByKey(views, ItemsKey + "." + "overview").Some?
      ensures forall j :: 0 <= j < 3 ==> FindByKey(views, MobsKey + "." + MobOverviewNames[j]).Some?
      ensures forall j :: 0 <= j < |itemViews| ==> FindByKey(views, itemViews[j].key).Some?
      ensures forall j :: 0 <= j < |mobViews| ==> FindByKey(views, mobViews[j].key).Some?
    {
      var n := |itemViews|;
      forall j | 0 <= j < 4 ensures FindByKey(views, GeneralKey + "." + GeneralNames[j]).Some? {
        assert views[j] == views[..4][j];
      }
      forall j | 0 <= j < 4 ensures FindByKey(views, MovementKey + "." + MovementNames[j]).Some? {
        assert views[4 + j] == views[4..8][j];
      }
      forall j | 0 <= j < 8 ensures FindByKey(views, BlockInteractionsKey + "." + InteractionNames[j]).Some? {
        assert views[8 + j] == views[8..16][j];
      }
      assert views[16].key == ItemsKey + "." + "overview";
      forall j | 0 <= j < 3 ensures FindByKey(views, MobsKey + "." + MobOverviewNames[j]).Some? {
        assert views[17 + n + j] == views[17 + n..20 + n][j];
      }
      forall j | 0 <= j < n ensures FindByKey(views, itemViews[j].key).Some? {
        assert views[17 + j] == views[17..17 + n][j];
      }
      forall j | 0 <= j < |mobViews| ensures FindByKey(views, mobViews[j].key).Some? {
        assert views[20 + n + j] == views[20 + n..][j];
      }
    }

    /** `getByKey`: a view whose key is `key`, if there is one. */
    method GetByKey(key: string) returns (r: Option<View>)
      requires Valid()
      modifies this
      ensures Valid() && Filled(allViews)
      ensures old(allViews) != [] ==> allViews == old(allViews)
      ensures r.Some? ==> r.value in allViews && r.value.key == key
      ensures r.None? <==> forall i :: 0 <= i < |allViews| ==> allViews[i].key != key
    {
      var all := GetAll();
      r := FindByKey(all, key);
    }
  }

  /** `GeneralCategory`'s views, in `getAll` order. */
  method GeneralViews() returns (vs: seq<View>)
    ensures CustomViews(vs, GeneralKey, GeneralNames, [4, 3, 4, 2])
  {
    var playtime := CategoryView(GeneralKey, "playtime",
      [Custom("play_time"), Custom("leave_game"), Custom("time_since_death"), Custom("time_since_rest")]);
    var damageDealt := CategoryView(GeneralKey, "damage_dealt",
      [Custom("damage_dealt"), Custom("damage_dealt_absorbed"), Custom("damage_dealt_resisted")]);
    var damageTaken := CategoryView(GeneralKey, "damage_taken",
      [Custom("damage_taken"), Custom("damage_blocked_by_shield"), Custom("damage_absorbed"), Custom("damage_resisted")]);
    var killsAndDeaths := CategoryView(GeneralKey, "kills_deaths", [Custom("deaths"), Custom("player_kills")]);
    vs := [playtime, damageDealt, damageTaken, killsAndDeaths];
  }

  /** `MovementCategory`'s views, in `getAll` order. */
  method MovementViews() returns (vs: seq<View>)
    ensures CustomViews(vs, MovementKey, MovementNames, [5, 4, 3, 5])
  {
    var ground := CategoryView(MovementKey, "ground",
      [Custom("walk_one_cm"), Custom("sprint_one_cm"), Custom("crouch_one_cm"), Custom("sneak_time"), Custom("jump")]);
    var air := CategoryView(MovementKey, "air",
      [Custom("aviate_one_cm"), Custom("fly_one_cm"), Custom("climb_one_cm"), Custom("fall_one_cm")]);
    var water := CategoryView(MovementKey, "water",
      [Custom("swim_one_cm"), Custom("walk_on_water_one_cm"), Custom("walk_under_water_one_cm")]);
    var byVehicle := CategoryView(MovementKey, "vehicle",
      [Custom("boat_one_cm"), Custom("minecart_one_cm"), Custom("horse_one_cm"), Custom("pig_one_cm"), Custom("strider_one_cm")]);
    vs := [ground, air, water, byVehicle];
  }

  /** `BlockInteractions`' views, in `getAll` order. */
  method InteractionViews() returns (vs: seq<View>)
    ensures CustomViews(vs, BlockInteractionsKey, InteractionNames, [4, 5, 4, 5, 3, 5, 5, 4])
  {
    var storage := CategoryView(BlockInteractionsKey, "storage",
      [Custom("open_chest"), Custom("open_enderchest"), Custom("open_shulker_box"), Custom("open_barrel")]);
    var crafting := CategoryView(BlockInteractionsKey, "crafting",
      [Custom("interact_with_crafting_table"), Custom("interact_with_smithing_table"), Custom("interact_with_stonecutter"),
       Custom("interact_with_cartography_table"), Custom("interact_with_loom")]);
    var smelting := CategoryView(BlockInteractionsKey, "smelting",
      [Custom("interact_with_furnace"), Custom("interact_with_smoker"), Custom("interact_with_blast_furnace"),
       Custom("interact_with_campfire")]);
    var redstone := CategoryView(BlockInteractionsKey, "redstone",
      [Custom("inspect_dispenser"), Custom("inspect_dropper"), Custom("inspect_hopper"), Custom("target_hit"),
       Custom("trigger_trapped_chest")]);
    var music := CategoryView(BlockInteractionsKey, "music",
      [Custom("play_record"), Custom("play_noteblock"), Custom("tune_noteblock")]);
    var utility := CategoryView(BlockInteractionsKey, "utility",
      [Custom("interact_with_anvil"), Custom("interact_with_beacon"), Custom("interact_with_brewingstand"),
       Custom("interact_with_grindstone"), Custom("interact_with_lectern")]);
    var cauldron := CategoryView(BlockInteractionsKey, "cauldron",
      [Custom("fill_cauldron"), Custom("use_cauldron"), Custom("clean_armor"), Custom("clean_banner"),
       Custom("clean_shulker_box")]);
    var misc := CategoryView(BlockInteractionsKey, "misc",
      [Custom("sleep_in_bed"), Custom("bell_ring"), Custom("eat_cake_slice"), Custom("pot_flower")]);
    vs := [storage, crafting, smelting, redstone, music, utility, cauldron, misc];
  }

  /** `MobsCategory`'s three fixed views, in `getAll` order. */
  method MobOverviewViews() returns (vs: seq<View>)
    ensures CustomViews(vs, MobsKey, MobOverviewNames, [2, 2, 2])
  {
    var overview := CategoryView(MobsKey, "overview", [Custom("mob_kills"), Custom("animals_bred")]);
    var raids := CategoryView(MobsKey, "raids", [Custom("raid_trigger"), Custom("raid_win")]);
    var villagers := CategoryView(MobsKey, "villagers",
      [Custom("talked_to_villager"), Custom("traded_with_villager")]);
    vs := [overview, raids, villagers];
  }

  /** The filter-then-`findAny` of `getByKey` on a sequential stream: the first view with that key. */
  function FindByKey(views: seq<View>, key: string): (r: Option<View>)
    ensures r.Some? ==> r.value in views && r.value.key == key
    ensures r.None? <==> forall i :: 0 <= i < |views| ==> views[i].key != key
    decreases |views|
  {
    if views == [] then None
    else if views[0].key == key then Some(views[0])
    else
      var r := FindByKey(views[1..], key);
      assert r.None? ==> forall i :: 0 <= i < |views| ==> views[i].key != key by {
        if r.None? {
          forall i | 0 <= i < |views| ensures views[i].key != key {
            if i > 0 {
              assert views[i] == views[1..][i - 1];
            }
          }
        }
      }
      r
  }

  // ---------------------------------------------------------------------------
  // The JSON response
  // ---------------------------------------------------------------------------

  /** The JSON values Gson builds here; object members keep insertion order. */
  datatype Json =
    | JString(str: string)
    | JNumber(num: int)
    | JArray(elems: seq<Json>)
    | JObject(members: seq<(string, Json)>)

  datatype ResponseError = BadRequest(message: string) | DatabaseError(error: SqlError)

  const NotInitializedMessage: string := "In-game player statistics database is not yet initialized."

  /** `j` is an object with exactly one number member per entry of `values`, in some order. */
  predicate IsValuesObject(j: Json, values: map<string, Int32>)
  {
    && j.JObject?
    && (forall i, k :: 0 <= i < k < |j.members| ==> j.members[i].0 != j.members[k].0)
    && (forall i :: 0 <= i < |j.members| ==> j.members[i].0 in values && j.members[i].1 == JNumber(values[j.members[i].0]))
    && (forall u :: u in values ==> exists i :: 0 <= i < |j.members| && j.members[i].0 == u)
  }

  /** `{"stat": <name>, "values": {<uuid>: <value>, ...}}` for every player holding the statistic. */
  predicate IsStatEntry(j: Json, stat: Stat, rows: Table)
  {
    && j.JObject? && |j.members| == 2
    && j.members[0] == ("stat", JString(stat.Name()))
    && j.members[1].0 == "values"
    && IsValuesObject(j.members[1].1, StatColumn(rows, stat.Name()))
  }

  /** `{"key": <view key>, "stats": [<one entry per statistic of the view, in order>]}`. */
  predicate IsStatsResponse(j: Json, view: View, rows: Table)
  {
    && j.JObject? && |j.members| == 2
    && j.members[0] == ("key", JString(view.key))
    && j.members[1].0 == "stats" && j.members[1].1.JArray?
    && |j.members[1].1.elems| == |view.stats|
    && forall i :: 0 <= i < |view.stats| ==> IsStatEntry(j.members[1].1.elems[i], view.stats[i], rows)
  }

  /** Reads an object of number members back into a map (a later duplicate wins). */
  function ParseValues(members: seq<(string, Json)>): map<string, int>
    decreases |members|
  {
    if members == [] then map[]
    else
      var last := members[|members| - 1];
      ParseValues(members[..|members| - 1])[last.0 := if last.1.JNumber? then last.1.num else 0]
  }

  /** Reading a values object back gives exactly the map it was built from. */
  lemma ValuesObjectRoundTrip(j: Json, values: map<string, Int32>)
    requires IsValuesObject(j, values)
    ensures ParseValues(j.members) == values
  {
    ParsePrefix(j.members, values, |j.members|);
    assert j.members[..|j.members|] == j.members;
    var parsed := ParseValues(j.members);
    assert forall u :: u in parsed <==> u in values;
    assert forall u :: u in parsed ==> parsed[u] == values[u];
  }

  lemma {:induction false} ParsePrefix(members: seq<(string, Json)>, values: map<string, Int32>, n: nat)
    requires n <= |members|
    requires forall i :: 0 <= i < |members| ==> members[i].0 in values && members[i].1 == JNumber(values[members[i].0])
    ensures forall u :: u in ParseValues(members[..n]) <==> exists i :: 0 <= i < n && members[i].0 == u
    ensures forall u :: u in ParseValues(members[..n]) ==> ParseValues(members[..n])[u] == values[u]
  {
    if n > 0 {
      ParsePrefix(members, values, n - 1);
      assert members[..n][..n - 1] == members[..n - 1];
    }
  }

  /** The `forEach` over the player map: one `addProperty(uuid, value)` per entry, in the map's iteration order. */
  method ValuesObject(values: map<string, Int32>) returns (j: Json)
    ensures IsValuesObject(j, values)
  {
    var members: seq<(string, Json)> := [];
    var remaining := values.Keys;
    while remaining != {}
      invariant remaining <= values.Keys
      invariant forall i, k :: 0 <= i < k < |members| ==> members[i].0 != members[k].0
      invariant forall i :: 0 <= i < |members| ==> members[i].0 in values.Keys - remaining && members[i].1 == JNumber(values[members[i].0])
      invariant forall u :: u in values.Keys - remaining ==> exists i :: 0 <= i < |members| && members[i].0 == u
      decreases remaining
    {
      var uuid :| uuid in remaining;
      ghost var prev := members;
      members := members + [(uuid, JNumber(values[uuid]))];
      forall u | u in values.Keys - (remaining - {uuid})
        ensures exists i :: 0 <= i < |members| && members[i].0 == u
      {
        if u == uuid {
          assert members[|prev|].0 == u;
        } else {
          assert u in values.Keys - remaining;
          var i :| 0 <= i < |prev| && prev[i].0 == u;
          assert members[i].0 == u;
        }
      }
      remaining := remaining - {uuid};
    }
    assert values.Keys - remaining == values.Keys;
    j := JObject(members);
  }

  /**
   * `getJSONResponse`: a bad request while no database manager exists;
   * otherwise one entry per statistic of the view, with every stored
   * player's value. A failing query propagates.
   */
  method GetJSONResponse(view: View, hook: Hook.PlanHook) returns (r: Result<Json, ResponseError>)
    requires hook.Valid()
    ensures hook.databaseManager.None? ==> r == Failure(BadRequest(NotInitializedMessage))
    ensures hook.databaseManager.Some? && !hook.qs.present && view.stats != [] ==> r == Failure(DatabaseError(NoSuchTable))
    ensures hook.databaseManager.Some? && hook.qs.present ==> r.Success? || r == Failure(DatabaseError(EngineError))
    ensures r.Success? ==> IsStatsResponse(r.value, view, hook.qs.rows)
  {
    var manager := hook.GetDatabaseManager();
    if manager.None? {
      return Failure(BadRequest(NotInitializedMessage));
    }
    var qs := manager.value.qs;
    var statsArray: seq<Json> := [];
    var i := 0;
    while i < |view.stats|
      invariant 0 <= i <= |view.stats| && |statsArray| == i
      invariant forall k :: 0 <= k < i ==> IsStatEntry(statsArray[k], view.stats[k], qs.rows)
      invariant !qs.present ==> i == 0
    {
      var stat := view.stats[i];
      var playerStatMap := GetStatForAllPlayers(qs, stat.Name());
      if playerStatMap.Failure? {
        return Failure(DatabaseError(playerStatMap.error));
      }
      var statValuesObject := ValuesObject(playerStatMap.value);
      var statInfoObject := JObject([("stat", JString(stat.Name())), ("values", statValuesObject)]);
      statsArray := statsArray + [statInfoObject];
      i := i + 1;
    }
    r := Success(JObject([("key", JString(view.key)), ("stats", JArray(statsArray))]));
  }
}
