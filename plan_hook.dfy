/**
 * `PlanHook`: the extension's connection to Plan. Its static fields become the
 * fields of one `PlanHook` object. Initialization needs both Plan being
 * enabled and the game server, which arrive through two different callbacks;
 * each callback stores its half and tries with the other half it last saw.
 */
module Hook {
  import opened Base
  import opened StatsTable
  import opened QueryApi
  import opened Queries
  import Database

  /** The Plan capabilities the extension needs, in the order they are checked. */
  const RequiredCapabilities: seq<string> := [
    "PAGE_EXTENSION_RESOLVERS",
    "PAGE_EXTENSION_RESOLVERS_LIST",
    "PAGE_EXTENSION_RESOURCES",
    "PAGE_EXTENSION_RESOURCES_REGISTER_DIRECT_CUSTOMIZATION",
    "QUERY_API"
  ]

  /**
   * `allMatch` over the capabilities: the index of the first one the server
   * lacks (the one whose absence is logged, checking stops there), or None
   * when all are available.
   */
  function FirstMissingCapability(caps: seq<string>, available: set<string>): (r: Option<nat>)
    ensures r.None? <==> forall i :: 0 <= i < |caps| ==> caps[i] in available
    ensures r.Some? ==> (r.value < |caps| && caps[r.value] !in available
      && forall j :: 0 <= j < r.value ==> caps[j] in available)
    decreases |caps|
  {
    if caps == [] then None
    else if caps[0] !in available then Some(0)
    else
      match FirstMissingCapability(caps[1..], available)
      case None => None
      case Some(i) => Some(i + 1)
  }

  /** `areRequiredCapabilitiesAvailable`. */
  predicate AreRequiredCapabilitiesAvailable(available: set<string>)
  {
    FirstMissingCapability(RequiredCapabilities, available).None?
  }

  /** The capability check passes exactly when all five capabilities are present. */
  lemma RequiredCapabilitiesExact(available: set<string>)
    ensures AreRequiredCapabilitiesAvailable(available) <==>
      (&& "PAGE_EXTENSION_RESOLVERS" in available
       && "PAGE_EXTENSION_RESOLVERS_LIST" in available
       && "PAGE_EXTENSION_RESOURCES" in available
       && "PAGE_EXTENSION_RESOURCES_REGISTER_DIRECT_CUSTOMIZATION" in available
       && "QUERY_API" in available)
  {
    var caps := RequiredCapabilities;
    if AreRequiredCapabilitiesAvailable(available) {
      assert caps[0] in available && caps[1] in available && caps[2] in available;
      assert caps[3] in available && caps[4] in available;
    }
  }

  /** A callback the hook registers. */
  datatype Listener = EnableListener | ServerStartingListener

  /** What one `tryRegisterPlanExtensions` call did (the Java method logs it and returns nothing). */
  datatype Attempt =
    | Skipped                              // Plan disabled or no server yet
    | PageRegistrationFailed               // reading the page extension resource threw
    | InitializationFailed(error: InitError)  // the database manager's constructor threw
    | Initialized                          // a new database manager is stored

  class PlanHook {
    /** Plan's query service (what `QueryService.getInstance()` returns). */
    const qs: QueryService
    var isPlanEnabled: bool
    var server: Option<Server>
    var databaseManager: Option<Database.DatabaseManager>
    /** The callbacks registered so far, in registration order. */
    var listeners: seq<Listener>

    ghost predicate Valid()
      reads this, qs
    {
      qs.Valid() && (databaseManager.Some? ==> databaseManager.value.qs == qs)
    }

    /** The static fields before any callback ran. */
    constructor (qs: QueryService)
      requires qs.Valid()
      ensures Valid() && this.qs == qs
      ensures !isPlanEnabled && server.None? && databaseManager.None? && listeners == []
    {
      this.qs := qs;
      isPlanEnabled := false;
      server := None;
      databaseManager := None;
      listeners := [];
    }

    /** `hookIntoPlan`: register both callbacks, only when every required capability is available. */
    method HookIntoPlan(available: set<string>)
      modifies this
      ensures isPlanEnabled == old(isPlanEnabled) && server == old(server) && databaseManager == old(databaseManager)
      ensures AreRequiredCapabilitiesAvailable(available) ==> listeners == old(listeners) + [EnableListener, ServerStartingListener]
      ensures !AreRequiredCapabilitiesAvailable(available) ==> listeners == old(listeners)
    {
      if AreRequiredCapabilitiesAvailable(available) {
        listeners := listeners + [EnableListener, ServerStartingListener];
      }
    }

    /**
     * `tryRegisterPlanExtensions`: store both arguments; when Plan is enabled
     * and the server is known, register the page extension and then build a
     * new database manager. A failure is logged and leaves the stored manager
     * as it was.
     */
    method TryRegisterPlanExtensions(enabled: bool, srv: Option<Server>) returns (a: Attempt)
      requires Valid()
      modifies this, qs
      ensures Valid()
      ensures isPlanEnabled == enabled && server == srv && listeners == old(listeners)
      ensures a == Skipped <==> !enabled || srv.None?
      ensures !a.Initialized? ==> databaseManager == old(databaseManager)
      ensures !a.Initialized? ==> qs.rows == old(qs.rows) && qs.subscriptions == old(qs.subscriptions)
      ensures a == Skipped || a == PageRegistrationFailed ==> qs.present == old(qs.present) && qs.executed == old(qs.executed)
      ensures a.Initialized? ==> (srv.Some? && srv.value.stats.Listed? && databaseManager.Some?
        && fresh(databaseManager.value) && databaseManager.value.server == srv.value
        && qs.subscriptions == old(qs.subscriptions) + [DataClear(databaseManager.value), PlayerRemove(databaseManager.value)]
        && qs.rows == UpsertAll(old(qs.rows), Pending(srv.value.stats.files, Uuids(old(qs.rows)))))
    {
      isPlanEnabled := enabled;
      server := srv;
      if !enabled || srv.None? {
        return Skipped;
      }
      var resourceReadFailed: bool := *;
      if resourceReadFailed {
        return PageRegistrationFailed;
      }
      var created := Database.DatabaseManager.Create(qs, srv.value);
      if created.Failure? {
        return InitializationFailed(created.error);
      }
      databaseManager := Some(created.value);
      a := Initialized;
    }

    /** The enable listener: the flag comes from Plan, the server is the last one stored. */
    method OnPlanEnable(enabled: bool) returns (a: Attempt)
      requires Valid()
      modifies this, qs
      ensures Valid() && isPlanEnabled == enabled && server == old(server) && listeners == old(listeners)
      ensures a == Skipped <==> !enabled || old(server).None?
      ensures a == Skipped || a == PageRegistrationFailed ==> qs.present == old(qs.present) && qs.executed == old(qs.executed)
      ensures !a.Initialized? ==> databaseManager == old(databaseManager) && qs.rows == old(qs.rows)
      ensures a.Initialized? ==> (old(server).Some? && old(server).value.stats.Listed?
        && databaseManager.Some? && fresh(databaseManager.value)
        && databaseManager.value.server == old(server).value
        && qs.rows == UpsertAll(old(qs.rows), Pending(old(server).value.stats.files, Uuids(old(qs.rows)))))
    {
      a := TryRegisterPlanExtensions(enabled, server);
    }

    /** The server-starting listener: the server comes from the event, the flag is the last one stored. */
    method OnServerStarting(srv: Server) returns (a: Attempt)
      requires Valid()
      modifies this, qs
      ensures Valid() && isPlanEnabled == old(isPlanEnabled) && server == Some(srv) && listeners == old(listeners)
      ensures a == Skipped <==> !old(isPlanEnabled)
      ensures a == Skipped || a == PageRegistrationFailed ==> qs.present == old(qs.present) && qs.executed == old(qs.executed)
      ensures !a.Initialized? ==> databaseManager == old(databaseManager) && qs.rows == old(qs.rows)
      ensures a.Initialized? ==> (srv.stats.Listed? && databaseManager.Some? && fresh(databaseManager.value)
        && databaseManager.value.server == srv
        && qs.rows == UpsertAll(old(qs.rows), Pending(srv.stats.files, Uuids(old(qs.rows)))))
    {
      a := TryRegisterPlanExtensions(isPlanEnabled, Some(srv));
    }

    /** `getDatabaseManager`: the stored manager, if any initialization has succeeded. */
    method GetDatabaseManager() returns (r: Option<Database.DatabaseManager>)
      requires Valid()
      ensures r == databaseManager
      ensures r.Some? ==> r.value.qs == qs
    {
      r := databaseManager;
    }
  }
}
