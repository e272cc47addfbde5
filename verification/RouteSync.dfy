/** `RouteSyncService.handle`: one manifest reconciled with the shared store, run without interference.
    `HandleStore` is what a whole run writes; `HandleEffect` says what that does to every row. */
module RouteSync {
  import opened Options
  import opened RouteManifest
  import opened RouteStore
  import opened RouteDiff

  // ---- Reserved keys --------------------------------------------------------------------------

  /** Every key of the YAML configuration, held by 'yaml'. */
  function YamlKeys(yaml: seq<Route>): (keys: map<string, string>)
    ensures forall k :: k in keys ==> keys[k] == "yaml"
  {
    if yaml == [] then map[] else YamlKeys(yaml[..|yaml| - 1])[RouteKeyOf(yaml[|yaml| - 1]) := "yaml"]
  }

  /** YAML keys, then the keys of the manifest held by someone else in the store. */
  function ReservedKeys(st: Store, yaml: seq<Route>, service: string, routes: seq<Route>): map<string, string> {
    if routes == [] then YamlKeys(yaml)
    else
      var n := |routes| - 1;
      ReserveOne(st, service, RouteKeyOf(routes[n]), ReservedKeys(st, yaml, service, routes[..n]))
  }

  function ReserveOne(st: Store, service: string, key: string, reserved: map<string, string>): map<string, string> {
    if key in reserved then reserved
    else
      var other := FindOwned(FindByRouteKey(st, key), service, false);
      if other.Some? then reserved[key := OwnerName(other.value.row)] else reserved
  }

  // ---- The apply loop ---------------------------------------------------------------------------

  /** One upsert, with the reconciliation of a lost insert race. */
  function ApplyUpsert(st: Store, service: string, u: Upsert): (r: Store)
    requires ValidStore(st)
    ensures ValidStore(r)
  {
    var (written, outcome) :=
      if u.existingId.Some? then UpdateRow(st, u.existingId.value, u.model) else InsertRow(st, u.model);
    if outcome.Conflict? then
      var mine := FindOwned(FindByRouteKey(written, u.routeKey), service, true);
      if mine.Some? then UpdateRow(written, mine.value.id, u.model).0 else written
    else written
  }

  function ApplyUpserts(st: Store, service: string, upserts: seq<Upsert>): (r: Store)
    requires ValidStore(st)
    ensures ValidStore(r)
  {
    if upserts == [] then st
    else ApplyUpsert(ApplyUpserts(st, service, upserts[..|upserts| - 1]), service, upserts[|upserts| - 1])
  }

  const SWITCH_OFF := EMPTY_PATCH.(enabled := Some(false))

  function ApplyDisables(st: Store, disables: seq<Disable>): (r: Store)
    requires ValidStore(st)
    ensures ValidStore(r)
  {
    if disables == [] then st
    else UpdateRow(ApplyDisables(st, disables[..|disables| - 1]), disables[|disables| - 1].id, SWITCH_OFF).0
  }

  function DiffAgainst(st: Store, yaml: seq<Route>, service: string, routes: seq<Route>): Diff {
    DiffOf(service, routes, FindByOwner(st, service), ReservedKeys(st, yaml, service, routes))
  }

  /** The store after a whole `handle`, and whether it broadcast a reload. */
  function HandleStore(st: Store, yaml: seq<Route>, service: string, routes: seq<Route>): (r: (Store, bool))
    requires ValidStore(st)
    ensures ValidStore(r.0)
  {
    if service == "" then (st, false)
    else
      var diff := DiffAgainst(st, yaml, service, routes);
      (ApplyDisables(ApplyUpserts(st, service, diff.upserts), diff.disables), diff.changed)
  }

  /** The service object: the store it writes and the reload broadcasts it sent. */
  class RouteSyncService {
    var paths: Store
    var reloads: nat
    const yaml: seq<Route>

    constructor (yaml: seq<Route>, paths: Store)
      requires ValidStore(paths)
      ensures this.yaml == yaml && this.paths == paths && reloads == 0
    {
      this.yaml, this.paths, this.reloads := yaml, paths, 0;
    }

    method ApplyOne(service: string, u: Upsert)
      requires ValidStore(paths)
      modifies this`paths
      ensures paths == ApplyUpsert(old(paths), service, u)
    {
      var outcome: Outcome;
      if u.existingId.Some? {
        var r := UpdateRow(paths, u.existingId.value, u.model);
        paths, outcome := r.0, r.1;
      } else {
        var r := InsertRow(paths, u.model);
        paths, outcome := r.0, r.1;
      }
      if outcome.Conflict? {
        var mine := FindOwned(FindByRouteKey(paths, u.routeKey), service, true);
        if mine.Some? {
          paths := UpdateRow(paths, mine.value.id, u.model).0;
        }
      }
    }

    /** The first half of `handle`: keys of the static file, then keys enabled under another owner. */
    method ReservedFor(service: string, routes: seq<Route>) returns (reserved: map<string, string>)
      requires ValidStore(paths)
      ensures reserved == ReservedKeys(paths, yaml, service, routes)
    {
      reserved := map[];
      for i := 0 to |yaml|
        invariant reserved == YamlKeys(yaml[..i])
      {
        assert yaml[..i + 1][..i] == yaml[..i];
        reserved := reserved[RouteKeyOf(yaml[i]) := "yaml"];
      }
      assert yaml[..|yaml|] == yaml;
      for i := 0 to |routes|
        invariant reserved == ReservedKeys(paths, yaml, service, routes[..i])
      {
        assert routes[..i + 1][..i] == routes[..i];
        var key := RouteKeyOf(routes[i]);
        if key in reserved { continue; }
        var other := FindOwned(FindByRouteKey(paths, key), service, false);
        if other.Some? {
          reserved := reserved[key := OwnerName(other.value.row)];
        }
      }
      assert routes[..|routes|] == routes;
    }

    /** The apply loop. */
    method ApplyAll(service: string, upserts: seq<Upsert>)
      requires ValidStore(paths)
      modifies this`paths
      ensures ValidStore(paths) && paths == ApplyUpserts(old(paths), service, upserts)
    {
      for i := 0 to |upserts|
        invariant ValidStore(paths) && paths == ApplyUpserts(old(paths), service, upserts[..i])
      {
        assert upserts[..i + 1][..i] == upserts[..i];
        ApplyOne(service, upserts[i]);
      }
      assert upserts[..|upserts|] == upserts;
    }

    /** The loop over the service's stale rows. */
    method DisableAll(disables: seq<Disable>)
      requires ValidStore(paths)
      modifies this`paths
      ensures ValidStore(paths) && paths == ApplyDisables(old(paths), disables)
    {
      for i := 0 to |disables|
        invariant ValidStore(paths) && paths == ApplyDisables(old(paths), disables[..i])
      {
        assert disables[..i + 1][..i] == disables[..i];
        paths := UpdateRow(paths, disables[i].id, SWITCH_OFF).0;
      }
      assert disables[..|disables|] == disables;
    }

    method Handle(service: string, routes: seq<Route>)
      requires ValidStore(paths)
      modifies this
      ensures ValidStore(paths)
      ensures (paths, reloads > old(reloads)) == HandleStore(old(paths), yaml, service, routes)
      ensures old(reloads) <= reloads <= old(reloads) + 1
      ensures paths != old(paths) ==> reloads == old(reloads) + 1
    {
      if service == "" { return; }
      var existing := FindByOwner(paths, service);
      var reserved := ReservedFor(service, routes);
      var diff := DiffRoutes(service, routes, existing, reserved);
      ApplyAll(service, diff.upserts);
      DisableAll(diff.disables);
      if diff.changed {
        reloads := reloads + 1;
      }
    }
  }

  // ---- What the reads return ----------------------------------------------------------------------

  /** Service ids that are neither empty nor one of the two reserved owner names. */
  predicate OrdinaryService(service: string) {
    service != "" && service != "yaml" && service != "manual"
  }

  predicate Holds(row: Row, service: string, key: string) {
    row.owner == Some(service) && row.routeKey == Some(key)
  }

  /** The row of `service` with this key, as `existingByKey` finds it. */
  lemma IndexExact(st: Store, service: string, key: string)
    requires ValidStore(st) && key != ""
    ensures var ex := At(Index(FindByOwner(st, service)), key);
      && (ex.Some? ==> ex.value.id in st.rows && st.rows[ex.value.id] == ex.value.row && Holds(ex.value.row, service, key))
      && (ex.None? ==> forall id :: id in st.rows ==> !Holds(st.rows[id], service, key))
  {
    var docs := FindByOwner(st, service);
    IndexKeys(docs);
    if At(Index(docs), key).None? {
      forall id | id in st.rows ensures !Holds(st.rows[id], service, key) {
        assert Doc(id, st.rows[id]) in docs <==> st.rows[id].owner == Some(service);
      }
    }
  }

  /** The holder the reserve scan finds for a key of the manifest. */
  ghost predicate HolderExact(st: Store, yaml: seq<Route>, service: string, key: string, holder: Option<string>) {
    if key in YamlKeys(yaml) then holder == Some("yaml")
    else if holder.Some? then
      exists id :: id in st.rows && st.rows[id].routeKey == Some(key) && OwnerName(st.rows[id]) == holder.value != service
    else
      forall id :: id in st.rows && st.rows[id].routeKey == Some(key) ==> OwnerName(st.rows[id]) == service
  }

  ghost predicate ReservationsExact(st: Store, yaml: seq<Route>, service: string, reserved: map<string, string>) {
    && (forall k :: k in YamlKeys(yaml) ==> k in reserved)
    && (forall k :: k in reserved ==> HolderExact(st, yaml, service, k, At(reserved, k)))
  }

  /** Every key of the manifest is reserved exactly as the YAML configuration and the store say. */
  lemma {:induction false} ReservedExact(st: Store, yaml: seq<Route>, service: string, routes: seq<Route>)
    requires ValidStore(st)
    ensures var reserved := ReservedKeys(st, yaml, service, routes);
      && ReservationsExact(st, yaml, service, reserved)
      && forall k :: k in ValidKeys(routes) ==> HolderExact(st, yaml, service, k, At(reserved, k))
  {
    if routes != [] {
      var n := |routes| - 1;
      var before, r := routes[..n], routes[n];
      assert routes == before + [r];
      ReservedExact(st, yaml, service, before);
      ValidKeysStep(before, r);
      var reserved := ReservedKeys(st, yaml, service, before);
      ReserveOneExact(st, yaml, service, RouteKeyOf(r), reserved);
      forall k | k in ValidKeys(before) && k != RouteKeyOf(r)
        ensures At(ReserveOne(st, service, RouteKeyOf(r), reserved), k) == At(reserved, k)
      {
      }
    }
  }

  lemma ReserveOneExact(st: Store, yaml: seq<Route>, service: string, key: string, before: map<string, string>)
    requires ValidStore(st) && ReservationsExact(st, yaml, service, before)
    ensures var after := ReserveOne(st, service, key, before);
      && ReservationsExact(st, yaml, service, after)
      && HolderExact(st, yaml, service, key, At(after, key))
  {
    var docs := FindByRouteKey(st, key);
    var after := ReserveOne(st, service, key, before);
    if key !in before {
      var other := FindOwned(docs, service, false);
      if other.Some? {
        assert st.rows[other.value.id] == other.value.row;
      } else {
        forall id | id in st.rows && st.rows[id].routeKey == Some(key) ensures OwnerName(st.rows[id]) == service {
          assert Doc(id, st.rows[id]) in docs;
        }
      }
      assert HolderExact(st, yaml, service, key, At(after, key));
    }
    forall k | k in after ensures HolderExact(st, yaml, service, k, At(after, k)) {
      if k != key { assert At(after, k) == At(before, k); }
    }
  }

  // ---- What the writes do -------------------------------------------------------------------------

  /** An upsert that fits the store it was computed from. */
  ghost predicate WellPlaced(st: Store, service: string, u: Upsert) {
    && u.model.routeKey == Some(u.routeKey)
    && u.model.owner == Some(service)
    && match u.existingId
       case Some(id) => id in st.rows && Holds(st.rows[id], service, u.routeKey)
       case None => forall id :: id in st.rows && st.rows[id].routeKey == Some(u.routeKey) ==>
                      OwnerName(st.rows[id]) != service
  }

  predicate DistinctKeys(upserts: seq<Upsert>) {
    forall i, j :: 0 <= i < j < |upserts| ==> upserts[i].routeKey != upserts[j].routeKey
  }

  predicate IsFree(st: Store, key: string) { !Taken(st, Some(key), None) }

  ghost predicate UpsertsApplied(st: Store, upserts: seq<Upsert>, after: Store) {
    && (forall id :: id in st.rows ==> id in after.rows)
    && st.nextId <= after.nextId
    && (forall id, u :: id in st.rows && u in upserts && u.existingId == Some(id) ==>
          after.rows[id] == Merge(st.rows[id], u.model))
    && (forall id :: id in st.rows && (forall u :: u in upserts ==> u.existingId != Some(id)) ==>
          after.rows[id] == st.rows[id])
    && (forall id :: id in after.rows && id !in st.rows ==> CreatedBy(st, upserts, after.rows[id]))
    && (forall u :: u in upserts && u.existingId.None? && IsFree(st, u.routeKey) ==> Present(after, u.model))
  }

  ghost predicate CreatedBy(st: Store, upserts: seq<Upsert>, row: Row) {
    exists u :: u in upserts && u.existingId.None? && IsFree(st, u.routeKey) && row == u.model
  }

  ghost predicate Present(st: Store, row: Row) {
    exists id :: id in st.rows && st.rows[id] == row
  }

  lemma {:induction false} UpsertsEffect(st: Store, service: string, upserts: seq<Upsert>)
    requires ValidStore(st) && DistinctKeys(upserts)
    requires forall u :: u in upserts ==> WellPlaced(st, service, u)
    ensures UpsertsApplied(st, upserts, ApplyUpserts(st, service, upserts))
  {
    if upserts != [] {
      var n := |upserts| - 1;
      var before, u := upserts[..n], upserts[n];
      assert upserts == before + [u];
      UpsertsEffect(st, service, before);
      UpsertEffect(st, service, before, ApplyUpserts(st, service, before), u);
    }
  }

  lemma UpsertEffect(st: Store, service: string, before: seq<Upsert>, mid: Store, u: Upsert)
    requires ValidStore(st) && ValidStore(mid) && UpsertsApplied(st, before, mid)
    requires forall v :: v in before ==> WellPlaced(st, service, v) && v.routeKey != u.routeKey
    requires WellPlaced(st, service, u)
    ensures UpsertsApplied(st, before + [u], ApplyUpsert(mid, service, u))
  {
    var after := ApplyUpsert(mid, service, u);
    if u.existingId.Some? {
      UpdateInPlace(st, service, before, mid, u);
    } else {
      InsertOrYield(st, service, before, mid, u);
    }
  }

  lemma UpdateInPlace(st: Store, service: string, before: seq<Upsert>, mid: Store, u: Upsert)
    requires ValidStore(st) && ValidStore(mid) && UpsertsApplied(st, before, mid)
    requires forall v :: v in before ==> WellPlaced(st, service, v) && v.routeKey != u.routeKey
    requires WellPlaced(st, service, u) && u.existingId.Some?
    requires forall id :: id in st.rows && st.rows[id].routeKey == Some(u.routeKey) ==> mid.rows[id] == st.rows[id]
    ensures UpsertsApplied(st, before + [u], ApplyUpsert(mid, service, u))
  {
    var id := u.existingId.value;
    var row := Merge(mid.rows[id], u.model);
    assert row.routeKey == mid.rows[id].routeKey;
    assert !Taken(mid, row.routeKey, Some(id));
    var after := ApplyUpsert(mid, service, u);
    assert after == mid.(rows := mid.rows[id := row]);
    forall i | i in after.rows && i !in st.rows ensures CreatedBy(st, before + [u], after.rows[i]) {
      assert CreatedBy(st, before, mid.rows[i]);
      var v :| v in before && v.existingId.None? && IsFree(st, v.routeKey) && mid.rows[i] == v.model;
      assert v in before + [u];
    }
    forall v | v in before + [u] && v.existingId.None? && IsFree(st, v.routeKey) ensures Present(after, v.model) {
      assert v in before && Present(mid, v.model);
      var i :| i in mid.rows && mid.rows[i] == v.model;
      assert i != id;
      assert after.rows[i] == v.model;
    }
    forall i, v | i in st.rows && v in before + [u] && v.existingId == Some(i)
      ensures after.rows[i] == Merge(st.rows[i], v.model)
    {
      if v in before { assert i != id; }
    }
    forall i | i in st.rows && (forall v :: v in before + [u] ==> v.existingId != Some(i))
      ensures after.rows[i] == st.rows[i]
    {
      assert u in before + [u];
      assert forall v :: v in before ==> v in before + [u];
    }
  }

  lemma InsertOrYield(st: Store, service: string, before: seq<Upsert>, mid: Store, u: Upsert)
    requires ValidStore(st) && ValidStore(mid) && UpsertsApplied(st, before, mid)
    requires WellPlaced(st, service, u) && u.existingId.None?
    requires forall id :: id in mid.rows && mid.rows[id].routeKey == Some(u.routeKey) ==>
      id in st.rows && st.rows[id] == mid.rows[id]
    requires forall id :: id in st.rows && st.rows[id].routeKey == Some(u.routeKey) ==> mid.rows[id] == st.rows[id]
    ensures UpsertsApplied(st, before + [u], ApplyUpsert(mid, service, u))
  {
    var after := ApplyUpsert(mid, service, u);
    assert Taken(mid, Some(u.routeKey), None) <==> Taken(st, Some(u.routeKey), None);
    if IsFree(st, u.routeKey) {
      assert after == Store(mid.rows[mid.nextId := u.model], mid.nextId + 1);
      assert after.rows[mid.nextId] == u.model;
    } else {
      // Another owner holds the key: the race is lost and the winner is left alone.
      var mine := FindOwned(FindByRouteKey(mid, u.routeKey), service, true);
      assert mine.None?;
      assert after == mid;
    }
    MoreUpserts(st, before, mid, u, after);
  }

  lemma MoreUpserts(st: Store, before: seq<Upsert>, mid: Store, u: Upsert, after: Store)
    requires ValidStore(st) && ValidStore(mid) && UpsertsApplied(st, before, mid) && u.existingId.None?
    requires if IsFree(st, u.routeKey) then after == Store(mid.rows[mid.nextId := u.model], mid.nextId + 1)
             else after == mid
    ensures UpsertsApplied(st, before + [u], after)
  {
    assert u in before + [u] && forall v :: v in before ==> v in before + [u];
    forall id | id in st.rows ensures id in after.rows && after.rows[id] == mid.rows[id] {
      assert id < mid.nextId;
    }
    forall i | i in after.rows && i !in st.rows ensures CreatedBy(st, before + [u], after.rows[i]) {
      if i in mid.rows && after.rows[i] == mid.rows[i] {
        assert CreatedBy(st, before, mid.rows[i]);
        var v :| v in before && v.existingId.None? && IsFree(st, v.routeKey) && mid.rows[i] == v.model;
        assert v in before + [u];
      } else {
        assert IsFree(st, u.routeKey) && after.rows[i] == u.model;
      }
    }
    forall v | v in before + [u] && v.existingId.None? && IsFree(st, v.routeKey) ensures Present(after, v.model) {
      if v in before {
        assert Present(mid, v.model);
        var i :| i in mid.rows && mid.rows[i] == v.model;
        assert after.rows[i] == v.model;
      } else {
        assert after.rows[mid.nextId] == u.model;
      }
    }
  }

  ghost predicate DisablesApplied(st: Store, disables: seq<Disable>, after: Store) {
    && after.rows.Keys == st.rows.Keys && after.nextId == st.nextId
    && (forall id, d :: id in st.rows && d in disables && d.id == id ==>
          after.rows[id] == st.rows[id].(enabled := Some(false)))
    && (forall id :: id in st.rows && (forall d :: d in disables ==> d.id != id) ==> after.rows[id] == st.rows[id])
  }

  lemma {:induction false} DisablesEffect(st: Store, disables: seq<Disable>)
    requires ValidStore(st)
    requires forall d :: d in disables ==> d.id in st.rows
    ensures DisablesApplied(st, disables, ApplyDisables(st, disables))
  {
    if disables != [] {
      var n := |disables| - 1;
      assert disables == disables[..n] + [disables[n]];
      DisablesEffect(st, disables[..n]);
      DisableEffect(st, disables[..n], ApplyDisables(st, disables[..n]), disables[n]);
    }
  }

  lemma DisableEffect(st: Store, before: seq<Disable>, mid: Store, d: Disable)
    requires ValidStore(st) && ValidStore(mid) && DisablesApplied(st, before, mid) && d.id in st.rows
    ensures DisablesApplied(st, before + [d], UpdateRow(mid, d.id, SWITCH_OFF).0)
  {
    assert Merge(mid.rows[d.id], SWITCH_OFF) == mid.rows[d.id].(enabled := Some(false));
    assert !Taken(mid, mid.rows[d.id].routeKey, Some(d.id));
    var after := UpdateRow(mid, d.id, SWITCH_OFF).0;
    assert after == mid.(rows := mid.rows[d.id := mid.rows[d.id].(enabled := Some(false))]);
    assert d in before + [d] && forall e :: e in before ==> e in before + [d];
    forall id, e | id in st.rows && e in before + [d] && e.id == id
      ensures after.rows[id] == st.rows[id].(enabled := Some(false))
    {
      if e in before { assert mid.rows[id] == st.rows[id].(enabled := Some(false)); }
    }
    forall id | id in st.rows && (forall e :: e in before + [d] ==> e.id != id) ensures after.rows[id] == st.rows[id] {
    }
  }

  // ---- The effect of one whole run ----------------------------------------------------------------

  /** The verdict on a key this service already holds. */
  function HeldVerdict(yaml: seq<Route>, service: string, routes: seq<Route>, id: nat, row: Row, key: string): (v: Verdict)
    requires key in ValidKeys(routes)
    ensures v.Write? ==> v.upsert.existingId == Some(id) && v.upsert.routeKey == key
    ensures v.Write? ==> v.upsert.model.owner == Some(service) && v.upsert.model.routeKey == Some(key)
  {
    Judge(service, FirstRoute(routes, key), Some(Doc(id, row)), At(YamlKeys(yaml), key))
  }

  /** What a run leaves of a row that was there before it. */
  function RowAfter(yaml: seq<Route>, service: string, routes: seq<Route>, id: nat, row: Row): Row {
    if row.owner != Some(service) || !Keyed(row) then row
    else
      var key := row.routeKey.value;
      if key in ValidKeys(routes) then
        var verdict := Judge(service, FirstRoute(routes, key), Some(Doc(id, row)), At(YamlKeys(yaml), key));
        if verdict.Write? then Merge(row, verdict.upsert.model) else row
      else row.(enabled := Some(false))
  }

  ghost predicate Created(st: Store, yaml: seq<Route>, service: string, routes: seq<Route>, row: Row) {
    && row.routeKey.Some? && row.routeKey.value in ValidKeys(routes) && row.routeKey.value !in YamlKeys(yaml)
    && IsFree(st, row.routeKey.value)
    && row == ModelFor(service, FirstRoute(routes, row.routeKey.value), None)
  }

  ghost predicate RunEffect(st: Store, yaml: seq<Route>, service: string, routes: seq<Route>, after: Store) {
    && ValidStore(after)
    && (forall id :: id in st.rows ==>
          id in after.rows && after.rows[id] == RowAfter(yaml, service, routes, id, st.rows[id]))
    && (forall id :: id in after.rows && id !in st.rows ==> Created(st, yaml, service, routes, after.rows[id]))
    && (forall k :: k in ValidKeys(routes) && k !in YamlKeys(yaml) && IsFree(st, k) ==>
          Present(after, ModelFor(service, FirstRoute(routes, k), None)))
  }

  /** The verdict the run reaches on a key, from the row that holds the key. */
  lemma VerdictOnHeldKey(st: Store, yaml: seq<Route>, service: string, routes: seq<Route>, id: nat, key: string)
    requires ValidStore(st) && OrdinaryService(service) && key in ValidKeys(routes)
    requires id in st.rows && Holds(st.rows[id], service, key)
    ensures VerdictOn(service, routes, Index(FindByOwner(st, service)), ReservedKeys(st, yaml, service, routes), key)
         == Judge(service, FirstRoute(routes, key), Some(Doc(id, st.rows[id])), At(YamlKeys(yaml), key))
  {
    IndexExact(st, service, key);
    ReservedExact(st, yaml, service, routes);
  }

  lemma VerdictOnNewKey(st: Store, yaml: seq<Route>, service: string, routes: seq<Route>, key: string)
    requires ValidStore(st) && OrdinaryService(service) && key in ValidKeys(routes)
    requires forall id :: id in st.rows ==> !Holds(st.rows[id], service, key)
    ensures var verdict := VerdictOn(service, routes, Index(FindByOwner(st, service)),
                                     ReservedKeys(st, yaml, service, routes), key);
      && (key in YamlKeys(yaml) ==> verdict == Reserved("yaml"))
      && (verdict.Write? ==> verdict == Write(Upsert(key, None, true, ModelFor(service, FirstRoute(routes, key), None))))
      && (key !in YamlKeys(yaml) && IsFree(st, key) ==> verdict.Write?)
  {
    IndexExact(st, service, key);
    ReservedExact(st, yaml, service, routes);
  }

  lemma UpsertsWellPlaced(st: Store, yaml: seq<Route>, service: string, routes: seq<Route>)
    requires ValidStore(st) && OrdinaryService(service)
    ensures var upserts := DiffAgainst(st, yaml, service, routes).upserts;
      DistinctKeys(upserts) && forall u :: u in upserts ==> WellPlaced(st, service, u)
  {
    var index, reserved := Index(FindByOwner(st, service)), ReservedKeys(st, yaml, service, routes);
    DiffDecidesEachKey(service, routes, index, reserved);
    var upserts := DiffAgainst(st, yaml, service, routes).upserts;
    forall u | u in upserts ensures WellPlaced(st, service, u) {
      IndexExact(st, service, u.routeKey);
      assert VerdictOn(service, routes, index, reserved, u.routeKey) == Write(u);
    }
  }

  lemma DisablesExact(st: Store, yaml: seq<Route>, service: string, routes: seq<Route>)
    requires ValidStore(st)
    ensures forall d :: d in DiffAgainst(st, yaml, service, routes).disables ==>
      d.id in st.rows && Holds(st.rows[d.id], service, d.routeKey) && d.routeKey !in ValidKeys(routes)
      && d.routeKey != "" && IsEnabled(st.rows[d.id])
    ensures forall id :: id in st.rows && st.rows[id].owner == Some(service) && Keyed(st.rows[id])
                         && st.rows[id].routeKey.value !in ValidKeys(routes) && IsEnabled(st.rows[id]) ==>
      Disable(id, st.rows[id].routeKey.value) in DiffAgainst(st, yaml, service, routes).disables
  {
    var docs := FindByOwner(st, service);
    IndexKeys(docs);
    StaleRowsExact(KeyOrder(docs), Index(docs), ValidKeys(routes));
    forall id | id in st.rows && st.rows[id].owner == Some(service) && Keyed(st.rows[id])
      ensures st.rows[id].routeKey.value in Index(docs)
              && Index(docs)[st.rows[id].routeKey.value] == Doc(id, st.rows[id])
    {
      IndexExact(st, service, st.rows[id].routeKey.value);
    }
  }

  /** A row the manifest does not name is not upserted. */
  lemma NotUpserted(st: Store, yaml: seq<Route>, service: string, routes: seq<Route>, mid: Store, id: nat)
    requires ValidStore(st) && OrdinaryService(service) && id in st.rows
    requires UpsertsApplied(st, DiffAgainst(st, yaml, service, routes).upserts, mid)
    requires !(st.rows[id].owner == Some(service) && Keyed(st.rows[id]) && st.rows[id].routeKey.value in ValidKeys(routes))
    ensures mid.rows[id] == st.rows[id]
  {
    UpsertsWellPlaced(st, yaml, service, routes);
    var upserts := DiffAgainst(st, yaml, service, routes).upserts;
    DiffDecidesEachKey(service, routes, Index(FindByOwner(st, service)), ReservedKeys(st, yaml, service, routes));
    forall u | u in upserts ensures u.existingId != Some(id) {
      assert WellPlaced(st, service, u) && u.routeKey in ValidKeys(routes);
    }
  }

  lemma ManifestUpsert(st: Store, yaml: seq<Route>, service: string, routes: seq<Route>, id: nat, key: string)
    requires ValidStore(st) && OrdinaryService(service) && key in ValidKeys(routes)
    requires id in st.rows && Holds(st.rows[id], service, key)
    ensures
      var verdict := HeldVerdict(yaml, service, routes, id, st.rows[id], key);
      var upserts := DiffAgainst(st, yaml, service, routes).upserts;
      if verdict.Write? then verdict.upsert in upserts
      else forall u :: u in upserts ==> u.routeKey != key
  {
    var index, reserved := Index(FindByOwner(st, service)), ReservedKeys(st, yaml, service, routes);
    DiffDecidesEachKey(service, routes, index, reserved);
    VerdictOnHeldKey(st, yaml, service, routes, id, key);
    var d := IncomingDiff(service, routes, index, reserved);
    assert Recorded(d, key, VerdictOn(service, routes, index, reserved, key));
  }

  lemma ManifestRow(st: Store, yaml: seq<Route>, service: string, routes: seq<Route>, mid: Store, id: nat, key: string)
    requires ValidStore(st) && OrdinaryService(service)
    requires id in st.rows && Holds(st.rows[id], service, key) && key in ValidKeys(routes)
    requires UpsertsApplied(st, DiffAgainst(st, yaml, service, routes).upserts, mid)
    ensures var v := HeldVerdict(yaml, service, routes, id, st.rows[id], key);
      mid.rows[id] == if v.Write? then Merge(st.rows[id], v.upsert.model) else st.rows[id]
  {
    ManifestUpsert(st, yaml, service, routes, id, key);
    UpsertsWellPlaced(st, yaml, service, routes);
  }

  lemma RowEffect(st: Store, yaml: seq<Route>, service: string, routes: seq<Route>, mid: Store, after: Store, id: nat)
    requires ValidStore(st) && OrdinaryService(service) && id in st.rows
    requires UpsertsApplied(st, DiffAgainst(st, yaml, service, routes).upserts, mid)
    requires DisablesApplied(mid, DiffAgainst(st, yaml, service, routes).disables, after)
    ensures after.rows[id] == RowAfter(yaml, service, routes, id, st.rows[id])
  {
    var diff, row := DiffAgainst(st, yaml, service, routes), st.rows[id];
    DisablesExact(st, yaml, service, routes);
    if row.owner == Some(service) && Keyed(row) && row.routeKey.value in ValidKeys(routes) {
      ManifestRow(st, yaml, service, routes, mid, id, row.routeKey.value);
      assert forall d :: d in diff.disables ==> d.id != id;
    } else {
      NotUpserted(st, yaml, service, routes, mid, id);
      if row.owner == Some(service) && Keyed(row) {
        if IsEnabled(row) { assert Disable(id, row.routeKey.value) in diff.disables; }
        assert !IsEnabled(row) ==> row == row.(enabled := Some(false));
      } else {
        assert forall d :: d in diff.disables ==> d.id != id;
      }
    }
  }

  lemma CreatedEffect(st: Store, yaml: seq<Route>, service: string, routes: seq<Route>, mid: Store, id: nat)
    requires ValidStore(st) && OrdinaryService(service)
    requires UpsertsApplied(st, DiffAgainst(st, yaml, service, routes).upserts, mid)
    requires id in mid.rows && id !in st.rows
    ensures Created(st, yaml, service, routes, mid.rows[id])
  {
    assert CreatedBy(st, DiffAgainst(st, yaml, service, routes).upserts, mid.rows[id]);
    CreatedFromManifest(st, yaml, service, routes, mid.rows[id]);
  }

  lemma CreatedFromManifest(st: Store, yaml: seq<Route>, service: string, routes: seq<Route>, row: Row)
    requires ValidStore(st) && OrdinaryService(service)
    requires CreatedBy(st, DiffAgainst(st, yaml, service, routes).upserts, row)
    ensures Created(st, yaml, service, routes, row)
  {
    var upserts := DiffAgainst(st, yaml, service, routes).upserts;
    var u :| u in upserts && u.existingId.None? && IsFree(st, u.routeKey) && row == u.model;
    DiffDecidesEachKey(service, routes, Index(FindByOwner(st, service)), ReservedKeys(st, yaml, service, routes));
    VerdictOnNewKey(st, yaml, service, routes, u.routeKey);
  }

  /** The effect of a whole uninterrupted run on every row of any store: rows of other owners are
      untouched, this service's rows become what the manifest and the overrides say or are switched off,
      and exactly the free manifest keys gain a row. */
  lemma HandleEffect(st: Store, yaml: seq<Route>, service: string, routes: seq<Route>)
    requires ValidStore(st) && OrdinaryService(service)
    ensures RunEffect(st, yaml, service, routes, HandleStore(st, yaml, service, routes).0)
  {
    var diff := DiffAgainst(st, yaml, service, routes);
    UpsertsWellPlaced(st, yaml, service, routes);
    UpsertsEffect(st, service, diff.upserts);
    var mid := ApplyUpserts(st, service, diff.upserts);
    DisablesExact(st, yaml, service, routes);
    DisablesEffect(mid, diff.disables);
    var after := ApplyDisables(mid, diff.disables);
    forall id | id in st.rows
      ensures id in after.rows && after.rows[id] == RowAfter(yaml, service, routes, id, st.rows[id])
    {
      RowEffect(st, yaml, service, routes, mid, after, id);
    }
    forall id | id in after.rows && id !in st.rows ensures Created(st, yaml, service, routes, after.rows[id]) {
      CreatedEffect(st, yaml, service, routes, mid, id);
    }
    forall k | k in ValidKeys(routes) && k !in YamlKeys(yaml) && IsFree(st, k)
      ensures Present(after, ModelFor(service, FirstRoute(routes, k), None))
    {
      PresentEffect(st, yaml, service, routes, mid, after, k);
    }
  }

  lemma PresentEffect(st: Store, yaml: seq<Route>, service: string, routes: seq<Route>, mid: Store, after: Store, k: string)
    requires ValidStore(st) && OrdinaryService(service)
    requires UpsertsApplied(st, DiffAgainst(st, yaml, service, routes).upserts, mid)
    requires DisablesApplied(mid, DiffAgainst(st, yaml, service, routes).disables, after)
    requires k in ValidKeys(routes) && k !in YamlKeys(yaml) && IsFree(st, k)
    ensures Present(after, ModelFor(service, FirstRoute(routes, k), None))
  {
    var diff := DiffAgainst(st, yaml, service, routes);
    DiffDecidesEachKey(service, routes, Index(FindByOwner(st, service)), ReservedKeys(st, yaml, service, routes));
    VerdictOnNewKey(st, yaml, service, routes, k);
    DisablesExact(st, yaml, service, routes);
    var u := Upsert(k, None, true, ModelFor(service, FirstRoute(routes, k), None));
    assert u in diff.upserts && Present(mid, u.model);
    var id :| id in mid.rows && mid.rows[id] == u.model;
    NewRowIsNew(st, yaml, service, routes, mid, id, k);
    assert after.rows[id] == mid.rows[id];
  }

  lemma NewRowIsNew(st: Store, yaml: seq<Route>, service: string, routes: seq<Route>, mid: Store, id: nat, k: string)
    requires ValidStore(st) && OrdinaryService(service)
    requires UpsertsApplied(st, DiffAgainst(st, yaml, service, routes).upserts, mid)
    requires IsFree(st, k) && id in mid.rows && mid.rows[id].routeKey == Some(k)
    ensures id !in st.rows
  {
    if id in st.rows { RowKeyKept(st, yaml, service, routes, mid, id); }
  }

  lemma RowKeyKept(st: Store, yaml: seq<Route>, service: string, routes: seq<Route>, mid: Store, id: nat)
    requires ValidStore(st) && OrdinaryService(service) && id in st.rows
    requires UpsertsApplied(st, DiffAgainst(st, yaml, service, routes).upserts, mid)
    ensures mid.rows[id].routeKey == st.rows[id].routeKey
  {
    var upserts := DiffAgainst(st, yaml, service, routes).upserts;
    UpsertsWellPlaced(st, yaml, service, routes);
    if u :| u in upserts && u.existingId == Some(id) {
      assert mid.rows[id] == Merge(st.rows[id], u.model);
    }
  }
}
