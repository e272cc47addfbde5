/** What a sync writes and when it asks for a reload, said of the manifest and the rows alone: which keys
    it writes, what it leaves in the row's own fields, and that no change of the store goes unannounced. */
module RouteVerdicts {
  import opened Options
  import opened CanonicalJson
  import opened RouteManifest
  import opened RouteStore
  import opened RouteDiff
  import opened RouteSync

  // ---- Which keys are written ---------------------------------------------------------------------

  ghost predicate InYaml(yaml: seq<Route>, key: string) { exists i :: 0 <= i < |yaml| && RouteKeyOf(yaml[i]) == key }

  lemma {:induction false} YamlKeysExact(yaml: seq<Route>, key: string)
    ensures key in YamlKeys(yaml) <==> InYaml(yaml, key)
  {
    if yaml != [] {
      var n := |yaml| - 1;
      YamlKeysExact(yaml[..n], key);
      if InYaml(yaml[..n], key) {
        var i :| 0 <= i < n && RouteKeyOf(yaml[..n][i]) == key;
        assert RouteKeyOf(yaml[i]) == key;
      }
      if InYaml(yaml, key) {
        var i :| 0 <= i < |yaml| && RouteKeyOf(yaml[i]) == key;
        assert i < n ==> yaml[..n][i] == yaml[i];
      }
    }
  }

  /** A row under the key belongs to somebody else, an owner that is the empty string not counting. */
  ghost predicate Claimed(st: Store, service: string, key: string) {
    exists id :: id in st.rows && st.rows[id].routeKey == Some(key)
      && st.rows[id].owner != Some(service) && st.rows[id].owner != Some("")
  }

  /** The row does not show the route: it is off without the user having said so, or a field the user did
      not override reads differently. */
  ghost predicate Differs(r: Route, row: Row) {
    || (row.enabled == Some(false) && Enabled !in Overrides(row))
    || exists f :: Content(f) !in Overrides(row) && !ReadsSame(f, Get(r, f), Get(row.content, f))
  }

  /** Nobody else holds the key, and the service's row under it, if any, is unlocked and differs. */
  ghost predicate WantsWrite(st: Store, yaml: seq<Route>, service: string, r: Route, key: string) {
    && !InYaml(yaml, key) && !Claimed(st, service, key)
    && forall id :: id in st.rows && Holds(st.rows[id], service, key) ==>
         st.rows[id].modified != Some(true) && Differs(r, st.rows[id])
  }

  lemma MergedReads(r: Route, ex: Doc, f: RouteField)
    requires WellFormedRoute(ex.row.content)
    ensures ReadsSame(f, Get(Merged(r, Some(ex)), f), Get(ex.row.content, f))
      <==> Content(f) in Overrides(ex.row) || ReadsSame(f, Get(r, f), Get(ex.row.content, f))
  {
    var stored := Get(ex.row.content, f);
    if Content(f) in Overrides(ex.row) { CanonicalDecides(stored, stored); }
  }

  lemma MergedWellFormed(r: Route, ex: Doc)
    requires WellFormedRoute(r) && WellFormedRoute(ex.row.content)
    ensures WellFormedRoute(Merged(r, Some(ex)))
  {
  }

  /** The verdict on an unlocked row nobody else lays claim to. */
  lemma HeldWritesIff(service: string, r: Route, ex: Doc, holder: Option<string>)
    requires WellFormedRoute(r) && WellFormedRoute(ex.row.content) && !IsLocked(ex.row)
    requires holder.Some? ==> holder.value == "" || holder.value == service
    ensures Judge(service, r, Some(ex), holder).Write? <==> Differs(r, ex.row)
  {
    MergedWellFormed(r, ex);
    RouteContentDecides(Merged(r, Some(ex)), ex.row.content);
    forall f
      ensures ReadsSame(f, Get(Merged(r, Some(ex)), f), Get(ex.row.content, f))
        <==> Content(f) in Overrides(ex.row) || ReadsSame(f, Get(r, f), Get(ex.row.content, f))
    {
      MergedReads(r, ex, f);
    }
    assert NewEnabled(Some(ex)) != IsEnabled(ex.row) <==> ex.row.enabled == Some(false) && Enabled !in Overrides(ex.row);
  }

  function VerdictAt(st: Store, yaml: seq<Route>, service: string, routes: seq<Route>, key: string): Verdict
    requires key in ValidKeys(routes)
  {
    VerdictOn(service, routes, Index(FindByOwner(st, service)), ReservedKeys(st, yaml, service, routes), key)
  }

  lemma ReservedIff(st: Store, yaml: seq<Route>, service: string, routes: seq<Route>, key: string)
    requires ValidStore(st) && OrdinaryService(service) && key in ValidKeys(routes)
    ensures VerdictAt(st, yaml, service, routes, key).Reserved? <==> InYaml(yaml, key) || Claimed(st, service, key)
  {
    ReservedExact(st, yaml, service, routes);
    YamlKeysExact(yaml, key);
    var holder := At(ReservedKeys(st, yaml, service, routes), key);
    assert HolderExact(st, yaml, service, key, holder);
    if key !in YamlKeys(yaml) { ClaimedIff(st, yaml, service, key, holder); }
  }

  lemma ClaimedIff(st: Store, yaml: seq<Route>, service: string, key: string, holder: Option<string>)
    requires ValidStore(st) && OrdinaryService(service) && key !in YamlKeys(yaml)
    requires HolderExact(st, yaml, service, key, holder)
    ensures holder.Some? && holder.value != "" && holder.value != service <==> Claimed(st, service, key)
  {
    if Claimed(st, service, key) {
      var id :| id in st.rows && st.rows[id].routeKey == Some(key)
        && st.rows[id].owner != Some(service) && st.rows[id].owner != Some("");
      assert OwnerName(st.rows[id]) != service;
    }
  }

  /** A sync writes a key exactly when the manifest's first valid route for it wants it. */
  lemma WritesIff(st: Store, yaml: seq<Route>, service: string, routes: seq<Route>, key: string)
    requires ValidStore(st) && OrdinaryService(service) && key in ValidKeys(routes)
    requires WellFormedRoute(FirstRoute(routes, key)) && forall id :: id in st.rows ==> WellFormedRoute(st.rows[id].content)
    ensures VerdictAt(st, yaml, service, routes, key).Write?
      <==> WantsWrite(st, yaml, service, FirstRoute(routes, key), key)
  {
    ReservedIff(st, yaml, service, routes, key);
    IndexExact(st, service, key);
    var r, ex := FirstRoute(routes, key), At(Index(FindByOwner(st, service)), key);
    var holder := At(ReservedKeys(st, yaml, service, routes), key);
    if !VerdictAt(st, yaml, service, routes, key).Reserved? && ex.Some? {
      OnlyHolder(st, service, key, ex.value.id);
      if !IsLocked(ex.value.row) { HeldWritesIff(service, r, ex.value, holder); }
    }
  }

  lemma OnlyHolder(st: Store, service: string, key: string, id: nat)
    requires ValidStore(st) && id in st.rows && Holds(st.rows[id], service, key)
    ensures forall i :: i in st.rows && Holds(st.rows[i], service, key) ==> i == id
  {
  }

  // ---- What a sync leaves -------------------------------------------------------------------------

  /** In the row it holds for a key of the manifest: owner, key and overrides as they were, enabled as the
      user overrode it and on otherwise; and a row it writes is the service's and unlocked. */
  lemma SyncedRow(yaml: seq<Route>, service: string, routes: seq<Route>, id: nat, row: Row, key: string)
    requires key in ValidKeys(routes) && !InYaml(yaml, key) && key != "" && Holds(row, service, key) && !IsLocked(row)
    ensures var after := RowAfter(yaml, service, routes, id, row);
      && after.owner == row.owner && after.routeKey == row.routeKey && Overrides(after) == Overrides(row)
      && (after.enabled != Some(false) <==> (Enabled in Overrides(row) ==> row.enabled != Some(false)))
      && (after != row ==> after.source == Some(Microservice) && after.modified == Some(false))
  {
    YamlKeysExact(yaml, key);
  }

  /** A row a sync creates is the manifest's route, on, the service's, unlocked and without overrides. */
  lemma CreatedRow(st: Store, yaml: seq<Route>, service: string, routes: seq<Route>, id: nat)
    requires ValidStore(st) && OrdinaryService(service)
    requires id in HandleStore(st, yaml, service, routes).0.rows && id !in st.rows
    ensures var row := HandleStore(st, yaml, service, routes).0.rows[id];
      && row.routeKey.Some? && row.routeKey.value in ValidKeys(routes) && !InYaml(yaml, row.routeKey.value)
      && (forall i :: i in st.rows ==> st.rows[i].routeKey != row.routeKey)
      && row == Row(FirstRoute(routes, row.routeKey.value), Some(true), Some(service), row.routeKey, Some(Microservice),
                    Some(false), Some([]))
  {
    HandleEffect(st, yaml, service, routes);
    var row := HandleStore(st, yaml, service, routes).0.rows[id];
    assert Created(st, yaml, service, routes, row);
    YamlKeysExact(yaml, row.routeKey.value);
  }

  // ---- The reload ---------------------------------------------------------------------------------

  /** An enabled row of the service under a key no valid route of the manifest has. */
  ghost predicate HasStale(st: Store, service: string, routes: seq<Route>) {
    exists id :: id in st.rows && st.rows[id].owner == Some(service) && st.rows[id].enabled != Some(false)
      && st.rows[id].routeKey.Some? && st.rows[id].routeKey.value != "" && st.rows[id].routeKey.value !in ValidKeys(routes)
  }

  ghost predicate HasWrite(st: Store, yaml: seq<Route>, service: string, routes: seq<Route>) {
    exists k :: k in ValidKeys(routes) && VerdictAt(st, yaml, service, routes, k).Write?
  }

  lemma UpsertsIff(st: Store, yaml: seq<Route>, service: string, routes: seq<Route>)
    ensures DiffAgainst(st, yaml, service, routes).upserts != [] <==> HasWrite(st, yaml, service, routes)
  {
    var index, reserved := Index(FindByOwner(st, service)), ReservedKeys(st, yaml, service, routes);
    DiffDecidesEachKey(service, routes, index, reserved);
    var d := IncomingDiff(service, routes, index, reserved);
    if d.upserts != [] { assert d.upserts[0] in d.upserts; }
    forall k | k in ValidKeys(routes) && VerdictAt(st, yaml, service, routes, k).Write? ensures d.upserts != [] {
      assert Recorded(d, k, VerdictOn(service, routes, index, reserved, k));
    }
  }

  lemma DisablesIff(st: Store, yaml: seq<Route>, service: string, routes: seq<Route>)
    requires ValidStore(st)
    ensures DiffAgainst(st, yaml, service, routes).disables != [] <==> HasStale(st, service, routes)
  {
    DisablesExact(st, yaml, service, routes);
    var disables := DiffAgainst(st, yaml, service, routes).disables;
    if disables != [] { assert disables[0] in disables; }
  }

  /** A sync broadcasts a reload exactly when some key of the manifest is written or some row it lost is
      switched off. */
  lemma ReloadsIff(st: Store, yaml: seq<Route>, service: string, routes: seq<Route>)
    requires ValidStore(st)
    ensures HandleStore(st, yaml, service, routes).1
      <==> service != "" && (HasWrite(st, yaml, service, routes) || HasStale(st, service, routes))
  {
    UpsertsIff(st, yaml, service, routes);
    DisablesIff(st, yaml, service, routes);
  }

  /** The same, on the manifest and the rows alone. */
  lemma ReloadsExactly(st: Store, yaml: seq<Route>, service: string, routes: seq<Route>)
    requires ValidStore(st) && OrdinaryService(service)
    requires forall id :: id in st.rows ==> WellFormedRoute(st.rows[id].content)
    requires forall i :: 0 <= i < |routes| ==> WellFormedRoute(routes[i])
    ensures HandleStore(st, yaml, service, routes).1
      <==> || (exists k :: k in ValidKeys(routes) && WantsWrite(st, yaml, service, FirstRoute(routes, k), k))
           || HasStale(st, service, routes)
  {
    ReloadsIff(st, yaml, service, routes);
    forall k | k in ValidKeys(routes)
      ensures VerdictAt(st, yaml, service, routes, k).Write? <==> WantsWrite(st, yaml, service, FirstRoute(routes, k), k)
    {
      WritesIff(st, yaml, service, routes, k);
    }
  }

  /** No change of the store goes unannounced. */
  lemma ChangeReloads(st: Store, yaml: seq<Route>, service: string, routes: seq<Route>)
    requires ValidStore(st) && HandleStore(st, yaml, service, routes).0 != st
    ensures HandleStore(st, yaml, service, routes).1
  {
  }
}
