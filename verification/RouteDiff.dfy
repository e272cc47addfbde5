/** `diffRoutes`: an incoming manifest against one service's rows. The method follows the source's
    loops; `DiffOf` is the function it computes, and the lemmas say what that function decides for each
    route key, whatever the order and the duplicates of the manifest. */
module RouteDiff {
  import opened Options
  import opened RouteManifest
  import opened RouteStore
  import opened Ordering

  datatype Upsert = Upsert(routeKey: string, existingId: Option<nat>, added: bool, model: Row)

  datatype Disable = Disable(id: nat, routeKey: string)

  datatype Collision = Collision(routeKey: string, conflictWith: string)

  datatype Diff = Diff(
    upserts: seq<Upsert>,
    disables: seq<Disable>,
    collisions: seq<Collision>,
    skipped: seq<string>,
    invalid: seq<Route>,
    changed: bool)

  const EMPTY_DIFF := Diff([], [], [], [], [], false)

  function At<K, V>(m: map<K, V>, k: K): Option<V> { if k in m then Some(m[k]) else None }

  // ---- What the diff decides for one route ------------------------------------------------------

  datatype Verdict = Reserved(holder: string) | Locked | Same | Write(upsert: Upsert)

  /** The stored route as the manifest would leave it, user overrides kept. */
  function Merged(r: Route, ex: Option<Doc>): Route {
    if ex.Some? then Overridden(r, ex.value.row.content, Overrides(ex.value.row)) else r
  }

  function NewEnabled(ex: Option<Doc>): bool {
    ex.Some? && Enabled in Overrides(ex.value.row) ==> IsEnabled(ex.value.row)
  }

  function ModelFor(service: string, r: Route, ex: Option<Doc>): Row {
    Row(Merged(r, ex), Some(NewEnabled(ex)), Some(service), Some(RouteKeyOf(r)), Some(Microservice),
        Some(false), Some(if ex.Some? then Overrides(ex.value.row) else []))
  }

  function Judge(service: string, r: Route, ex: Option<Doc>, holder: Option<string>): Verdict {
    if holder.Some? && holder.value != "" && holder.value != service then Reserved(holder.value)
    else if ex.Some? && IsLocked(ex.value.row) then Locked
    else if ex.Some? && NewEnabled(ex) == IsEnabled(ex.value.row)
            && RouteContent(Merged(r, ex)) == RouteContent(ex.value.row.content) then Same
    else Write(Upsert(RouteKeyOf(r), if ex.Some? then Some(ex.value.id) else None, ex.None?,
                      ModelFor(service, r, ex)))
  }

  /** Keys of the well-formed routes of a manifest. */
  function ValidKeys(incoming: seq<Route>): (keys: set<string>)
    ensures forall k :: k in keys <==>
      exists i :: 0 <= i < |incoming| && IsValidRoute(incoming[i]) && RouteKeyOf(incoming[i]) == k
  {
    set i | 0 <= i < |incoming| && IsValidRoute(incoming[i]) :: RouteKeyOf(incoming[i])
  }

  /** First wins: the route a manifest means by a key. */
  function FirstRoute(incoming: seq<Route>, key: string): (r: Route)
    requires key in ValidKeys(incoming)
    ensures r in incoming && IsValidRoute(r) && RouteKeyOf(r) == key
  {
    if IsValidRoute(incoming[0]) && RouteKeyOf(incoming[0]) == key then incoming[0]
    else
      assert key in ValidKeys(incoming[1..]) by {
        var i :| 0 <= i < |incoming| && IsValidRoute(incoming[i]) && RouteKeyOf(incoming[i]) == key;
        assert incoming[1..][i - 1] == incoming[i];
      }
      FirstRoute(incoming[1..], key)
  }

  // ---- The function the loops compute -------------------------------------------------------------

  predicate Keyed(r: Row) { r.routeKey.Some? && r.routeKey.value != "" }

  /** `existingByKey`: the last row listed under each key. */
  function Index(existing: seq<Doc>): map<string, Doc> {
    if existing == [] then map[]
    else
      var n := |existing| - 1;
      var before := Index(existing[..n]);
      if Keyed(existing[n].row) then before[existing[n].row.routeKey.value := existing[n]] else before
  }

  /** Keys of `existingByKey` in the order the map iterates them: by first insertion. */
  function KeyOrder(existing: seq<Doc>): seq<string> {
    if existing == [] then []
    else
      var n := |existing| - 1;
      var before := KeyOrder(existing[..n]);
      if Keyed(existing[n].row) && existing[n].row.routeKey.value !in before
      then before + [existing[n].row.routeKey.value]
      else before
  }

  function Record(d: Diff, key: string, v: Verdict): Diff {
    match v
    case Reserved(holder) => d.(collisions := d.collisions + [Collision(key, holder)])
    case Locked => d.(skipped := d.skipped + [key])
    case Same => d
    case Write(u) => d.(upserts := d.upserts + [u])
  }

  function IncomingDiff(service: string, incoming: seq<Route>, index: map<string, Doc>,
                        reserved: map<string, string>): Diff
  {
    if incoming == [] then EMPTY_DIFF
    else
      var n := |incoming| - 1;
      var d := IncomingDiff(service, incoming[..n], index, reserved);
      var key := RouteKeyOf(incoming[n]);
      if !IsValidRoute(incoming[n]) then d.(invalid := d.invalid + [incoming[n]])
      else if key in ValidKeys(incoming[..n]) then d
      else Record(d, key, Judge(service, incoming[n], At(index, key), At(reserved, key)))
  }

  function StaleRows(order: seq<string>, index: map<string, Doc>, seen: set<string>): seq<Disable> {
    if order == [] then []
    else
      var n := |order| - 1;
      var before := StaleRows(order[..n], index, seen);
      if order[n] !in seen && order[n] in index && IsEnabled(index[order[n]].row)
      then before + [Disable(index[order[n]].id, order[n])]
      else before
  }

  function DiffOf(service: string, incoming: seq<Route>, existing: seq<Doc>, reserved: map<string, string>): Diff {
    var index := Index(existing);
    var d := IncomingDiff(service, incoming, index, reserved);
    var disables := StaleRows(KeyOrder(existing), index, ValidKeys(incoming));
    d.(disables := disables, changed := d.upserts != [] || disables != [])
  }

  // ---- The source's loops -----------------------------------------------------------------------

  method IndexExisting(existing: seq<Doc>) returns (existingByKey: map<string, Doc>, order: seq<string>)
    ensures existingByKey == Index(existing) && order == KeyOrder(existing)
  {
    existingByKey, order := map[], [];
    for i := 0 to |existing|
      invariant existingByKey == Index(existing[..i]) && order == KeyOrder(existing[..i])
    {
      assert existing[..i + 1][..i] == existing[..i];
      var e := existing[i];
      if e.row.routeKey.Some? && e.row.routeKey.value != "" {
        if e.row.routeKey.value !in order { order := order + [e.row.routeKey.value]; }
        existingByKey := existingByKey[e.row.routeKey.value := e];
      }
    }
    assert existing[..|existing|] == existing;
  }

  /** The body of the manifest loop for a route that is valid and not a duplicate. */
  method JudgeRoute(service: string, r: Route, key: string, ex: Option<Doc>, holder: Option<string>)
    returns (verdict: Verdict)
    requires key == RouteKeyOf(r)
    ensures verdict == Judge(service, r, ex, holder)
  {
    if holder.Some? && holder.value != "" && holder.value != service {
      return Reserved(holder.value);
    }
    if ex.Some? && ex.value.row.modified == Some(true) {
      return Locked;
    }
    var overrides := if ex.Some? then Overrides(ex.value.row) else [];
    var merged := ApplyUserOverrides(r, if ex.Some? then Some(ex.value.row.content) else None, overrides);
    var exEnabled := ex.Some? ==> ex.value.row.enabled != Some(false);
    var newEnabled := if Enabled in overrides then exEnabled else true;
    if ex.Some? && newEnabled == exEnabled && RouteContent(merged) == RouteContent(ex.value.row.content) {
      return Same;
    }
    var model := Row(merged, Some(newEnabled), Some(service), Some(key), Some(Microservice), Some(false),
                     Some(overrides));
    verdict := Write(Upsert(key, if ex.Some? then Some(ex.value.id) else None, ex.None?, model));
  }

  /** The loop over the owned rows the manifest no longer names. */
  method DisableStale(order: seq<string>, existingByKey: map<string, Doc>, seen: set<string>)
    returns (disables: seq<Disable>)
    ensures disables == StaleRows(order, existingByKey, seen)
  {
    disables := [];
    for i := 0 to |order|
      invariant disables == StaleRows(order[..i], existingByKey, seen)
    {
      assert order[..i + 1][..i] == order[..i];
      var key := order[i];
      if key !in seen && key in existingByKey && IsEnabled(existingByKey[key].row) {
        disables := disables + [Disable(existingByKey[key].id, key)];
      }
    }
    assert order[..|order|] == order;
  }

  method DiffRoutes(service: string, incoming: seq<Route>, existing: seq<Doc>, reserved: map<string, string>)
    returns (diff: Diff)
    ensures diff == DiffOf(service, incoming, existing, reserved)
    ensures diff.changed <==> |diff.upserts| + |diff.disables| > 0
  {
    diff := EMPTY_DIFF;
    var existingByKey, order := IndexExisting(existing);
    var seen: set<string> := {};
    for i := 0 to |incoming|
      invariant seen == ValidKeys(incoming[..i])
      invariant diff == IncomingDiff(service, incoming[..i], existingByKey, reserved)
    {
      assert incoming[..i + 1] == incoming[..i] + [incoming[i]];
      ValidKeysStep(incoming[..i], incoming[i]);
      var r := incoming[i];
      if !IsValidRoute(r) {
        diff := diff.(invalid := diff.invalid + [r]);
        continue;
      }
      var key := RouteKeyOf(r);
      if key in seen { continue; }
      seen := seen + {key};
      var verdict := JudgeRoute(service, r, key, At(existingByKey, key), At(reserved, key));
      match verdict {
        case Reserved(holder) => diff := diff.(collisions := diff.collisions + [Collision(key, holder)]);
        case Locked => diff := diff.(skipped := diff.skipped + [key]);
        case Same =>
        case Write(upsert) => diff := diff.(upserts := diff.upserts + [upsert]);
      }
    }
    assert incoming[..|incoming|] == incoming;

    var disables := DisableStale(order, existingByKey, seen);
    diff := diff.(disables := disables, changed := diff.upserts != [] || disables != []);
  }

  lemma ValidKeysStep(incoming: seq<Route>, r: Route)
    ensures ValidKeys(incoming + [r])
         == ValidKeys(incoming) + (if IsValidRoute(r) then {RouteKeyOf(r)} else {})
  {
    var all := incoming + [r];
    forall k ensures k in ValidKeys(all) <==>
      k in ValidKeys(incoming) || (IsValidRoute(r) && k == RouteKeyOf(r))
    {
      if k in ValidKeys(incoming) {
        var i :| 0 <= i < |incoming| && IsValidRoute(incoming[i]) && RouteKeyOf(incoming[i]) == k;
        assert all[i] == incoming[i];
      }
      if IsValidRoute(r) && k == RouteKeyOf(r) { assert all[|incoming|] == r; }
    }
  }

  // ---- What the diff means ----------------------------------------------------------------------

  /** The verdict on a key of the manifest: its first valid route, its row, its reservation. */
  function VerdictOn(service: string, incoming: seq<Route>, index: map<string, Doc>,
                     reserved: map<string, string>, key: string): Verdict
    requires key in ValidKeys(incoming)
  {
    Judge(service, FirstRoute(incoming, key), At(index, key), At(reserved, key))
  }

  lemma {:induction false} FirstRouteStep(incoming: seq<Route>, r: Route, key: string)
    requires key in ValidKeys(incoming + [r])
    ensures FirstRoute(incoming + [r], key) == if key in ValidKeys(incoming) then FirstRoute(incoming, key) else r
  {
    ValidKeysStep(incoming, r);
    if incoming == [] {
      assert incoming + [r] == [r];
    } else {
      assert (incoming + [r])[1..] == incoming[1..] + [r];
      if IsValidRoute(incoming[0]) && RouteKeyOf(incoming[0]) == key {
      } else {
        ValidKeysStep(incoming[1..], r);
        assert incoming == [incoming[0]] + incoming[1..];
        assert key in ValidKeys(incoming) <==> key in ValidKeys(incoming[1..]) by {
          forall i | 0 <= i < |incoming| && IsValidRoute(incoming[i]) && RouteKeyOf(incoming[i]) == key
            ensures key in ValidKeys(incoming[1..])
          {
            assert incoming[1..][i - 1] == incoming[i];
          }
        }
        FirstRouteStep(incoming[1..], r, key);
      }
    }
  }

  predicate Recorded(d: Diff, key: string, v: Verdict) {
    match v
    case Write(u) => u in d.upserts
    case Locked => key in d.skipped
    case Reserved(holder) => Collision(key, holder) in d.collisions
    case Same => true
  }

  ghost predicate DecidesEachKey(service: string, incoming: seq<Route>, index: map<string, Doc>,
                                 reserved: map<string, string>, d: Diff)
  {
    && (forall u :: u in d.upserts ==>
          u.routeKey in ValidKeys(incoming)
          && VerdictOn(service, incoming, index, reserved, u.routeKey) == Write(u))
    && (forall k :: k in ValidKeys(incoming) ==>
          Recorded(d, k, VerdictOn(service, incoming, index, reserved, k)))
    && (forall i, j :: 0 <= i < j < |d.upserts| ==> d.upserts[i].routeKey != d.upserts[j].routeKey)
  }

  /** Adding one more route to a manifest adds at most its own key's decision. */
  lemma DecisionStep(service: string, before: seq<Route>, r: Route, index: map<string, Doc>,
                     reserved: map<string, string>, d: Diff)
    requires DecidesEachKey(service, before, index, reserved, d)
    requires IsValidRoute(r) && RouteKeyOf(r) !in ValidKeys(before)
    ensures
      var key := RouteKeyOf(r);
      DecidesEachKey(service, before + [r], index, reserved,
                     Record(d, key, Judge(service, r, At(index, key), At(reserved, key))))
  {
    var key := RouteKeyOf(r);
    var verdict := Judge(service, r, At(index, key), At(reserved, key));
    VerdictsStep(service, before, r, index, reserved);
    RecordOne(d, key, verdict);
    forall k | k in ValidKeys(before)
      ensures Recorded(Record(d, key, verdict), k, VerdictOn(service, before, index, reserved, k))
    {
      RecordKeeps(d, key, verdict, k, VerdictOn(service, before, index, reserved, k));
    }
  }

  lemma RecordKeeps(d: Diff, key: string, v: Verdict, other: string, w: Verdict)
    requires Recorded(d, other, w)
    ensures Recorded(Record(d, key, v), other, w)
  {
  }

  lemma RecordOne(d: Diff, key: string, v: Verdict)
    requires v.Write? ==> v.upsert.routeKey == key
    ensures Recorded(Record(d, key, v), key, v)
    ensures Record(d, key, v).upserts == d.upserts + (if v.Write? then [v.upsert] else [])
  {
  }

  lemma VerdictsStep(service: string, before: seq<Route>, r: Route, index: map<string, Doc>,
                     reserved: map<string, string>)
    ensures ValidKeys(before + [r]) == ValidKeys(before) + (if IsValidRoute(r) then {RouteKeyOf(r)} else {})
    ensures forall k :: k in ValidKeys(before) ==>
      VerdictOn(service, before + [r], index, reserved, k) == VerdictOn(service, before, index, reserved, k)
    ensures IsValidRoute(r) && RouteKeyOf(r) !in ValidKeys(before) ==>
      VerdictOn(service, before + [r], index, reserved, RouteKeyOf(r))
        == Judge(service, r, At(index, RouteKeyOf(r)), At(reserved, RouteKeyOf(r)))
  {
    ValidKeysStep(before, r);
    forall k | k in ValidKeys(before + [r])
      ensures FirstRoute(before + [r], k) == if k in ValidKeys(before) then FirstRoute(before, k) else r
    {
      FirstRouteStep(before, r, k);
    }
  }

  /** One decision per key: an upsert is listed exactly for the keys whose first valid route must be
      written, once each, and every other key is the collision, the skip or the silence its verdict says. */
  lemma {:induction false} DiffDecidesEachKey(service: string, incoming: seq<Route>, index: map<string, Doc>,
                                              reserved: map<string, string>)
    ensures DecidesEachKey(service, incoming, index, reserved, IncomingDiff(service, incoming, index, reserved))
  {
    if incoming != [] {
      var n := |incoming| - 1;
      var before, r := incoming[..n], incoming[n];
      assert incoming == before + [r];
      DiffDecidesEachKey(service, before, index, reserved);
      var d := IncomingDiff(service, before, index, reserved);
      if IsValidRoute(r) && RouteKeyOf(r) !in ValidKeys(before) {
        DecisionStep(service, before, r, index, reserved, d);
      } else {
        VerdictsStep(service, before, r, index, reserved);
        var after := IncomingDiff(service, incoming, index, reserved);
        forall k | k in ValidKeys(incoming)
          ensures Recorded(after, k, VerdictOn(service, incoming, index, reserved, k))
        {
          assert Recorded(d, k, VerdictOn(service, before, index, reserved, k));
        }
      }
    }
  }

  /** Nothing else is listed as skipped or as a collision. */
  ghost predicate ListsOnly(service: string, incoming: seq<Route>, index: map<string, Doc>,
                            reserved: map<string, string>, d: Diff)
  {
    && (forall k :: k in d.skipped ==> k in ValidKeys(incoming) && VerdictOn(service, incoming, index, reserved, k) == Locked)
    && (forall c :: c in d.collisions ==>
          c.routeKey in ValidKeys(incoming)
          && VerdictOn(service, incoming, index, reserved, c.routeKey) == Reserved(c.conflictWith))
  }

  lemma {:induction false} OthersExact(service: string, incoming: seq<Route>, index: map<string, Doc>,
                                       reserved: map<string, string>)
    ensures ListsOnly(service, incoming, index, reserved, IncomingDiff(service, incoming, index, reserved))
  {
    if incoming != [] {
      var n := |incoming| - 1;
      assert incoming == incoming[..n] + [incoming[n]];
      OthersExact(service, incoming[..n], index, reserved);
      VerdictsStep(service, incoming[..n], incoming[n], index, reserved);
    }
  }

  function Malformed(): Route -> bool { (r: Route) => !IsValidRoute(r) }

  /** The dropped routes are the malformed ones, each as often as it came and in order. */
  lemma {:induction false} InvalidInOrder(service: string, incoming: seq<Route>, index: map<string, Doc>,
                                          reserved: map<string, string>)
    ensures IncomingDiff(service, incoming, index, reserved).invalid == Select(Malformed(), incoming)
  {
    if incoming != [] {
      var n := |incoming| - 1;
      assert incoming == incoming[..n] + [incoming[n]];
      InvalidInOrder(service, incoming[..n], index, reserved);
      SelectConcat(Malformed(), incoming[..n], [incoming[n]]);
    }
  }

  /** A row is soft-disabled exactly when it is enabled and no valid manifest route has its key. */
  lemma {:induction false} StaleRowsExact(order: seq<string>, index: map<string, Doc>, seen: set<string>)
    requires forall k :: k in order ==> k in index
    ensures forall k :: k in order ==>
      (Disable(index[k].id, k) in StaleRows(order, index, seen) <==> k !in seen && IsEnabled(index[k].row))
    ensures forall d :: d in StaleRows(order, index, seen) ==>
      d.routeKey in order && d.id == index[d.routeKey].id && d.routeKey !in seen && IsEnabled(index[d.routeKey].row)
  {
    if order != [] {
      var n := |order| - 1;
      assert order == order[..n] + [order[n]];
      StaleRowsExact(order[..n], index, seen);
    }
  }

  lemma {:induction false} IndexKeys(existing: seq<Doc>)
    ensures forall k :: k in Index(existing) <==> k in KeyOrder(existing)
    ensures forall k :: k in Index(existing) ==>
      Index(existing)[k] in existing && Index(existing)[k].row.routeKey == Some(k) && k != ""
    ensures forall d :: d in existing && Keyed(d.row) ==> d.row.routeKey.value in Index(existing)
  {
    if existing != [] {
      var n := |existing| - 1;
      assert existing == existing[..n] + [existing[n]];
      IndexKeys(existing[..n]);
    }
  }

  /** Under a key stands the last row that has it. */
  lemma {:induction false} IndexLast(existing: seq<Doc>, i: nat)
    requires i < |existing| && Keyed(existing[i].row)
    requires forall j :: i < j < |existing| ==> existing[j].row.routeKey != existing[i].row.routeKey
    ensures At(Index(existing), existing[i].row.routeKey.value) == Some(existing[i])
  {
    var n := |existing| - 1;
    if i < n {
      assert existing[n].row.routeKey != existing[i].row.routeKey;
      IndexLast(existing[..n], i);
    }
  }

  predicate HasKey(existing: seq<Doc>, n: nat, key: string)
    requires n <= |existing|
  {
    exists i | 0 <= i < n :: existing[i].row.routeKey == Some(key)
  }

  /** Keys are listed once, in the order their first rows come. */
  lemma {:induction false} KeysByFirstRow(existing: seq<Doc>, n: nat)
    requires n <= |existing|
    ensures |KeyOrder(existing[..n])| <= |KeyOrder(existing)|
    ensures KeyOrder(existing[..n]) == KeyOrder(existing)[..|KeyOrder(existing[..n])|]
    ensures forall k :: k in KeyOrder(existing[..n]) <==> k != "" && HasKey(existing, n, k)
    ensures forall i, j :: 0 <= i < j < |KeyOrder(existing)| ==> KeyOrder(existing)[i] != KeyOrder(existing)[j]
    decreases |existing|
  {
    var last := |existing| - 1;
    if existing != [] && n < |existing| {
      KeysByFirstRow(existing[..last], n);
      assert existing[..last][..n] == existing[..n];
      assert forall k :: HasKey(existing[..last], n, k) <==> HasKey(existing, n, k);
    } else if existing != [] {
      assert existing[..n] == existing;
      KeysByFirstRow(existing[..last], last);
      assert existing[..last][..last] == existing[..last];
      forall k ensures HasKey(existing, n, k) <==> HasKey(existing[..last], last, k) || existing[last].row.routeKey == Some(k) {
        if HasKey(existing[..last], last, k) {
          var i :| 0 <= i < last && existing[..last][i].row.routeKey == Some(k);
          assert existing[i].row.routeKey == Some(k);
        }
        if HasKey(existing, n, k) {
          var i :| 0 <= i < n && existing[i].row.routeKey == Some(k);
          assert i < last ==> existing[..last][i].row.routeKey == Some(k);
        }
      }
    }
  }
}
