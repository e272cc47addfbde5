/** Convergence of route synchronisation: when handling the same manifest twice in a row leaves the
    second pass with nothing to do, exactly. `updateById` merges, so a field the manifest never mentions
    keeps whatever the row had; that, and a row whose owner is the empty string, are the only ways the
    second pass can still find work. */
module RouteConvergence {
  import opened Options
  import opened CanonicalJson
  import opened RouteManifest
  import opened RouteStore
  import opened RouteDiff
  import opened RouteSync

  ghost predicate WellFormedInput(st: Store, routes: seq<Route>) {
    && ValidStore(st)
    && (forall id :: id in st.rows ==> WellFormedRoute(st.rows[id].content))
    && (forall i :: 0 <= i < |routes| ==> WellFormedRoute(routes[i]))
  }

  /** The second diff would write nothing and ask for no reload. */
  ghost predicate Quiet(st: Store, yaml: seq<Route>, service: string, routes: seq<Route>) {
    var diff := DiffAgainst(st, yaml, service, routes);
    diff.upserts == [] && diff.disables == [] && !diff.changed
  }

  /** Every field the written content leaves out is blank in the row. */
  ghost predicate NothingLeftBehind(row: Row, written: Route) {
    forall f :: f !in written ==> Blank(f, Get(row.content, f))
  }

  /** Checkable before the first pass, key by key: a row about to be updated has no leftover field, and
      no manifest key is held by a row whose owner is the empty string. */
  ghost predicate Settles(st: Store, yaml: seq<Route>, service: string, routes: seq<Route>) {
    && (forall id, k :: k in ValidKeys(routes) && id in st.rows && Holds(st.rows[id], service, k)
                        && HeldVerdict(yaml, service, routes, id, st.rows[id], k).Write? ==>
          NothingLeftBehind(st.rows[id], Merged(FirstRoute(routes, k), Some(Doc(id, st.rows[id])))))
    && (forall id, k :: k in ValidKeys(routes) && k !in YamlKeys(yaml) && id in st.rows ==>
          !Holds(st.rows[id], "", k))
  }

  lemma {:induction false} EquivalentReflexive(v: Json)
    requires WellFormed(v)
    ensures Equivalent(v, v)
  {
    CanonicalDecides(v, v);
  }

  /** The updated row asks for the same merged route and the same enabled state again. */
  lemma UpdatedRow(yaml: seq<Route>, service: string, routes: seq<Route>, id: nat, row: Row, key: string)
    requires key in ValidKeys(routes) && Holds(row, service, key)
    requires HeldVerdict(yaml, service, routes, id, row, key).Write?
    ensures var written := Merged(FirstRoute(routes, key), Some(Doc(id, row)));
      var after := Merge(row, HeldVerdict(yaml, service, routes, id, row, key).upsert.model);
      && after.content == row.content + written
      && Merged(FirstRoute(routes, key), Some(Doc(id, after))) == written
      && NewEnabled(Some(Doc(id, after))) == IsEnabled(after)
  {
    var after := Merge(row, HeldVerdict(yaml, service, routes, id, row, key).upsert.model);
    assert Overrides(after) == Overrides(row);
  }

  /** So it is written again exactly when its content still reads differently from what was written. */
  lemma MergedRowVerdict(yaml: seq<Route>, service: string, routes: seq<Route>, id: nat, row: Row, key: string)
    requires key in ValidKeys(routes) && Holds(row, service, key)
    requires HeldVerdict(yaml, service, routes, id, row, key).Write?
    ensures var written := Merged(FirstRoute(routes, key), Some(Doc(id, row)));
      var model := HeldVerdict(yaml, service, routes, id, row, key).upsert.model;
      HeldVerdict(yaml, service, routes, id, Merge(row, model), key).Write?
      <==> RouteContent(written) != RouteContent(row.content + written)
  {
    UpdatedRow(yaml, service, routes, id, row, key);
  }

  lemma ContentAfterMerge(stored: Route, written: Route)
    requires WellFormedRoute(stored) && WellFormedRoute(written)
    ensures RouteContent(written) == RouteContent(stored + written)
      <==> forall f :: f !in written ==> Blank(f, Get(stored, f))
  {
    RouteContentDecides(written, stored + written);
    forall f
      ensures ReadsSame(f, Get(written, f), Get(stored + written, f)) <==> f in written || Blank(f, Get(stored, f))
    {
      FieldAfterMerge(stored, written, f);
    }
  }

  lemma FieldAfterMerge(stored: Route, written: Route, f: RouteField)
    requires WellFormedRoute(written)
    ensures ReadsSame(f, Get(written, f), Get(stored + written, f)) <==> f in written || Blank(f, Get(stored, f))
  {
    if f in written { EquivalentReflexive(written[f]); }
  }

  lemma WrittenWellFormed(r: Route, id: nat, row: Row)
    requires WellFormedRoute(r) && WellFormedRoute(row.content)
    ensures WellFormedRoute(Merged(r, Some(Doc(id, row))))
  {
  }

  /** After an update, the row compares equal to the manifest exactly when nothing was left behind. */
  lemma UpdatedRowVerdict(yaml: seq<Route>, service: string, routes: seq<Route>, id: nat, row: Row, key: string)
    requires key in ValidKeys(routes) && Holds(row, service, key)
    requires WellFormedRoute(row.content) && WellFormedRoute(FirstRoute(routes, key))
    requires HeldVerdict(yaml, service, routes, id, row, key).Write?
    ensures
      var model := HeldVerdict(yaml, service, routes, id, row, key).upsert.model;
      HeldVerdict(yaml, service, routes, id, Merge(row, model), key).Write?
      <==> !NothingLeftBehind(row, Merged(FirstRoute(routes, key), Some(Doc(id, row))))
  {
    MergedRowVerdict(yaml, service, routes, id, row, key);
    WrittenWellFormed(FirstRoute(routes, key), id, row);
    ContentAfterMerge(row.content, Merged(FirstRoute(routes, key), Some(Doc(id, row))));
  }

  /** A row just created from a manifest route compares equal to it. */
  lemma CreatedRowVerdict(yaml: seq<Route>, service: string, routes: seq<Route>, id: nat, key: string)
    requires key in ValidKeys(routes)
    ensures !HeldVerdict(yaml, service, routes, id, ModelFor(service, FirstRoute(routes, key), None), key).Write?
  {
    var r := FirstRoute(routes, key);
    var row := ModelFor(service, r, None);
    assert Overridden(r, row.content, []) == r;
  }

  // ---- The second pass, key by key ----------------------------------------------------------------

  ghost predicate SecondPassWrites(after: Store, yaml: seq<Route>, service: string, routes: seq<Route>, key: string)
    requires ValidStore(after) && key in ValidKeys(routes)
  {
    VerdictOn(service, routes, Index(FindByOwner(after, service)), ReservedKeys(after, yaml, service, routes), key).Write?
  }

  lemma HeldKeySecondPass(st: Store, yaml: seq<Route>, service: string, routes: seq<Route>, after: Store, id: nat, key: string)
    requires WellFormedInput(st, routes) && OrdinaryService(service) && RunEffect(st, yaml, service, routes, after)
    requires key in ValidKeys(routes) && id in st.rows && Holds(st.rows[id], service, key)
    ensures SecondPassWrites(after, yaml, service, routes, key)
      <==> HeldVerdict(yaml, service, routes, id, st.rows[id], key).Write?
           && !NothingLeftBehind(st.rows[id], Merged(FirstRoute(routes, key), Some(Doc(id, st.rows[id]))))
  {
    var row := st.rows[id];
    var verdict := HeldVerdict(yaml, service, routes, id, row, key);
    assert after.rows[id] == if verdict.Write? then Merge(row, verdict.upsert.model) else row;
    assert Holds(after.rows[id], service, key);
    VerdictOnHeldKey(after, yaml, service, routes, id, key);
    if verdict.Write? { UpdatedRowVerdict(yaml, service, routes, id, row, key); }
  }

  /** A key free before the first pass has its own row in the second. */
  lemma FreeKeySecondPass(st: Store, yaml: seq<Route>, service: string, routes: seq<Route>, after: Store, key: string)
    requires OrdinaryService(service) && RunEffect(st, yaml, service, routes, after)
    requires key in ValidKeys(routes) && key !in YamlKeys(yaml) && IsFree(st, key)
    ensures !SecondPassWrites(after, yaml, service, routes, key)
  {
    var model := ModelFor(service, FirstRoute(routes, key), None);
    assert Present(after, model);
    var id :| id in after.rows && after.rows[id] == model;
    VerdictOnHeldKey(after, yaml, service, routes, id, key);
    CreatedRowVerdict(yaml, service, routes, id, key);
  }

  /** A run changes no row's owner or key, and adds rows under free, unreserved keys only. */
  lemma HolderKept(st: Store, yaml: seq<Route>, service: string, routes: seq<Route>, after: Store, id: nat)
    requires ValidStore(st) && RunEffect(st, yaml, service, routes, after) && id in after.rows
    ensures if id in st.rows then after.rows[id].owner == st.rows[id].owner && after.rows[id].routeKey == st.rows[id].routeKey
            else Created(st, yaml, service, routes, after.rows[id])
  {
    if id in st.rows {
      RowAfterKeepsHolder(yaml, service, routes, id, st.rows[id]);
    }
  }

  lemma RowAfterKeepsHolder(yaml: seq<Route>, service: string, routes: seq<Route>, id: nat, row: Row)
    ensures RowAfter(yaml, service, routes, id, row).owner == row.owner
    ensures RowAfter(yaml, service, routes, id, row).routeKey == row.routeKey
  {
  }

  lemma NewKeySecondPass(st: Store, yaml: seq<Route>, service: string, routes: seq<Route>, after: Store, key: string)
    requires ValidStore(st) && OrdinaryService(service) && RunEffect(st, yaml, service, routes, after)
    requires key in ValidKeys(routes) && forall id :: id in st.rows ==> !Holds(st.rows[id], service, key)
    ensures SecondPassWrites(after, yaml, service, routes, key)
      <==> key !in YamlKeys(yaml) && exists id :: id in st.rows && Holds(st.rows[id], "", key)
  {
    if key in YamlKeys(yaml) {
      forall id | id in after.rows ensures !Holds(after.rows[id], service, key) {
        HolderKept(st, yaml, service, routes, after, id);
      }
      VerdictOnNewKey(after, yaml, service, routes, key);
    } else if IsFree(st, key) {
      FreeKeySecondPass(st, yaml, service, routes, after, key);
    } else {
      var holder :| holder in st.rows && st.rows[holder].routeKey == Some(key);
      HolderKept(st, yaml, service, routes, after, holder);
      OtherHolderSecondPass(after, yaml, service, routes, holder, key);
      assert forall id :: id in st.rows && Holds(st.rows[id], "", key) ==> id == holder;
    }
  }

  lemma OtherHolderSecondPass(after: Store, yaml: seq<Route>, service: string, routes: seq<Route>, holder: nat, key: string)
    requires ValidStore(after) && OrdinaryService(service) && key in ValidKeys(routes) && key !in YamlKeys(yaml)
    requires holder in after.rows && after.rows[holder].routeKey == Some(key) && after.rows[holder].owner != Some(service)
    ensures SecondPassWrites(after, yaml, service, routes, key) <==> after.rows[holder].owner == Some("")
  {
    IndexExact(after, service, key);
    ReservedExact(after, yaml, service, routes);
    assert OwnerName(after.rows[holder]) != service;
  }

  /** After a run, every row of the service that the manifest does not name is off. */
  lemma StaleRowsOff(st: Store, yaml: seq<Route>, service: string, routes: seq<Route>, after: Store, id: nat)
    requires ValidStore(st) && RunEffect(st, yaml, service, routes, after)
    requires id in after.rows && after.rows[id].owner == Some(service) && Keyed(after.rows[id])
    requires after.rows[id].routeKey.value !in ValidKeys(routes)
    ensures !IsEnabled(after.rows[id])
  {
    HolderKept(st, yaml, service, routes, after, id);
    assert id in st.rows;
    assert after.rows[id] == RowAfter(yaml, service, routes, id, st.rows[id]);
  }

  lemma NothingLeftToDisable(st: Store, yaml: seq<Route>, service: string, routes: seq<Route>, after: Store)
    requires ValidStore(st) && RunEffect(st, yaml, service, routes, after)
    ensures DiffAgainst(after, yaml, service, routes).disables == []
  {
    DisablesExact(after, yaml, service, routes);
    var disables := DiffAgainst(after, yaml, service, routes).disables;
    if disables != [] {
      var d := disables[0];
      assert d in disables;
      StaleRowsOff(st, yaml, service, routes, after, d.id);
    }
  }

  lemma NoUpsertsIff(after: Store, yaml: seq<Route>, service: string, routes: seq<Route>)
    requires ValidStore(after)
    ensures DiffAgainst(after, yaml, service, routes).upserts == []
      <==> forall k :: k in ValidKeys(routes) ==> !SecondPassWrites(after, yaml, service, routes, k)
  {
    var index, reserved := Index(FindByOwner(after, service)), ReservedKeys(after, yaml, service, routes);
    DiffDecidesEachKey(service, routes, index, reserved);
    var d := IncomingDiff(service, routes, index, reserved);
    if d.upserts == [] {
      forall k | k in ValidKeys(routes) ensures !SecondPassWrites(after, yaml, service, routes, k) {
        assert Recorded(d, k, VerdictOn(service, routes, index, reserved, k));
      }
    } else {
      assert d.upserts[0] in d.upserts;
      assert SecondPassWrites(after, yaml, service, routes, d.upserts[0].routeKey);
    }
  }

  ghost predicate KeySettles(st: Store, yaml: seq<Route>, service: string, routes: seq<Route>, k: string)
    requires k in ValidKeys(routes)
  {
    && (forall id :: id in st.rows && Holds(st.rows[id], service, k)
                     && HeldVerdict(yaml, service, routes, id, st.rows[id], k).Write? ==>
          NothingLeftBehind(st.rows[id], Merged(FirstRoute(routes, k), Some(Doc(id, st.rows[id])))))
    && (k !in YamlKeys(yaml) ==> forall id :: id in st.rows ==> !Holds(st.rows[id], "", k))
  }

  lemma KeySecondPass(st: Store, yaml: seq<Route>, service: string, routes: seq<Route>, after: Store, k: string)
    requires WellFormedInput(st, routes) && OrdinaryService(service) && RunEffect(st, yaml, service, routes, after)
    requires k in ValidKeys(routes)
    ensures !SecondPassWrites(after, yaml, service, routes, k) <==> KeySettles(st, yaml, service, routes, k)
  {
    if id :| id in st.rows && Holds(st.rows[id], service, k) {
      HeldKeySecondPass(st, yaml, service, routes, after, id, k);
      assert forall i :: i in st.rows && st.rows[i].routeKey == Some(k) ==> i == id;
    } else {
      NewKeySecondPass(st, yaml, service, routes, after, k);
    }
  }

  /** Exactly when one pass is enough: for every store and manifest, the pass after the first has no
      upsert, no disable and no reload if and only if the store settles. */
  lemma SecondPassQuietIff(st: Store, yaml: seq<Route>, service: string, routes: seq<Route>)
    requires WellFormedInput(st, routes) && OrdinaryService(service)
    ensures Quiet(HandleStore(st, yaml, service, routes).0, yaml, service, routes)
      <==> Settles(st, yaml, service, routes)
  {
    var after := HandleStore(st, yaml, service, routes).0;
    HandleEffect(st, yaml, service, routes);
    NothingLeftToDisable(st, yaml, service, routes, after);
    NoUpsertsIff(after, yaml, service, routes);
    forall k | k in ValidKeys(routes)
      ensures !SecondPassWrites(after, yaml, service, routes, k) <==> KeySettles(st, yaml, service, routes, k)
    {
      KeySecondPass(st, yaml, service, routes, after, k);
    }
  }

  // ---- The promised case, and where the first pass ends up ------------------------------------------

  /** A manifest that gives every content field a value settles at once. */
  lemma ExplicitManifestConverges(st: Store, yaml: seq<Route>, service: string, routes: seq<Route>)
    requires WellFormedInput(st, routes) && OrdinaryService(service)
    requires forall i, f :: 0 <= i < |routes| && IsValidRoute(routes[i]) ==> f in routes[i]
    requires forall id :: id in st.rows ==> st.rows[id].owner != Some("")
    ensures Quiet(HandleStore(st, yaml, service, routes).0, yaml, service, routes)
  {
    SecondPassQuietIff(st, yaml, service, routes);
    forall id, k | k in ValidKeys(routes) && id in st.rows && Holds(st.rows[id], service, k)
      ensures NothingLeftBehind(st.rows[id], Merged(FirstRoute(routes, k), Some(Doc(id, st.rows[id]))))
    {
      var r := FirstRoute(routes, k);
      assert forall f :: f in r;
      assert forall f :: f in Merged(r, Some(Doc(id, st.rows[id])));
    }
  }

  /** Nobody else holds the key, and no user locked its row or took over its `enabled` flag. */
  ghost predicate Unopposed(st: Store, yaml: seq<Route>, service: string, k: string) {
    && k !in YamlKeys(yaml)
    && forall id :: id in st.rows && st.rows[id].routeKey == Some(k) ==>
         st.rows[id].owner == Some(service) && !IsLocked(st.rows[id]) && Enabled !in Overrides(st.rows[id])
  }

  ghost predicate ServedBy(st: Store, service: string, key: string) {
    exists id :: id in st.rows && Holds(st.rows[id], service, key) && IsEnabled(st.rows[id])
  }

  lemma UnopposedKeyServed(st: Store, yaml: seq<Route>, service: string, routes: seq<Route>, after: Store, k: string)
    requires ValidStore(st) && OrdinaryService(service) && RunEffect(st, yaml, service, routes, after)
    requires k in ValidKeys(routes) && Unopposed(st, yaml, service, k)
    ensures ServedBy(after, service, k)
  {
    if IsFree(st, k) {
      var model := ModelFor(service, FirstRoute(routes, k), None);
      assert Present(after, model);
      var id :| id in after.rows && after.rows[id] == model;
      assert Holds(after.rows[id], service, k);
    } else {
      var id :| id in st.rows && st.rows[id].routeKey == Some(k);
      assert k == RouteKeyOf(FirstRoute(routes, k)) != "";
      HolderKept(st, yaml, service, routes, after, id);
      assert after.rows[id] == RowAfter(yaml, service, routes, id, st.rows[id]);
      EnabledAfter(yaml, service, routes, id, st.rows[id], k);
    }
  }

  lemma EnabledAfter(yaml: seq<Route>, service: string, routes: seq<Route>, id: nat, row: Row, k: string)
    requires k in ValidKeys(routes) && k != "" && k !in YamlKeys(yaml) && Holds(row, service, k)
    requires !IsLocked(row) && Enabled !in Overrides(row)
    ensures IsEnabled(RowAfter(yaml, service, routes, id, row))
  {
    var verdict := HeldVerdict(yaml, service, routes, id, row, k);
    assert verdict.Write? || verdict.Same?;
  }

  /** After one pass: every valid key nobody else holds is an enabled row of the service, unless its row
      is locked or its `enabled` flag overridden; every row of the service the manifest lost is off. */
  lemma FirstPassResult(st: Store, yaml: seq<Route>, service: string, routes: seq<Route>)
    requires ValidStore(st) && OrdinaryService(service)
    ensures var after := HandleStore(st, yaml, service, routes).0;
      && (forall k :: k in ValidKeys(routes) && Unopposed(st, yaml, service, k) ==> ServedBy(after, service, k))
      && (forall id :: id in after.rows && after.rows[id].owner == Some(service) && Keyed(after.rows[id])
                       && after.rows[id].routeKey.value !in ValidKeys(routes) ==>
            !IsEnabled(after.rows[id]))
  {
    var after := HandleStore(st, yaml, service, routes).0;
    HandleEffect(st, yaml, service, routes);
    forall k | k in ValidKeys(routes) && Unopposed(st, yaml, service, k) ensures ServedBy(after, service, k) {
      UnopposedKeyServed(st, yaml, service, routes, after, k);
    }
    forall id | id in after.rows && after.rows[id].owner == Some(service) && Keyed(after.rows[id])
                && after.rows[id].routeKey.value !in ValidKeys(routes)
      ensures !IsEnabled(after.rows[id])
    {
      StaleRowsOff(st, yaml, service, routes, after, id);
    }
  }
}
