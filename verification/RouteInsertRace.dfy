/** A run from an idle store in which a sync that never read a row overwrites a user's lock and overrides on
    it: two syncs of a new route plan its insert, one inserts it, a user locks the row, and the other loses
    its insert to the row. */
module RouteInsertRace {
  import opened Options
  import opened RouteManifest
  import opened RouteStore
  import opened RouteDiff
  import opened RouteSync
  import opened RouteProtocol
  import opened RouteLocks
  import opened RouteEdits

  function NewUpsert(service: string, r: Route): Upsert { Upsert(RouteKeyOf(r), None, true, ModelFor(service, r, None)) }

  predicate PlansInsert(t: Task, service: string, u: Upsert) {
    t.Applying? && t.service == service && t.upserts == [u] && t.next == 0 && u.existingId.None?
  }

  /** Nobody holds the key: a sync of the route alone plans its insert. */
  lemma PlanForNewKey(st: Store, service: string, r: Route)
    requires ValidStore(st) && OrdinaryService(service) && IsValidRoute(r)
    requires forall h :: h in st.rows ==> st.rows[h].routeKey != Some(RouteKeyOf(r))
    ensures PlansInsert(PlannedTask(st, service, r), service, NewUpsert(service, r))
  {
    var key := RouteKeyOf(r);
    assert [r][..0] == [] && [r][0] == r;
    IndexExact(st, service, key);
    var index := Index(FindByOwner(st, service));
    assert At(index, key) == None;
    var reserved := ReserveOne(st, service, key, map[]);
    assert At(reserved, key) == None;
    assert IncomingDiff(service, [], index, reserved) == EMPTY_DIFF;
  }

  /** The task `t` and another like it that has just inserted the row. */
  ghost function Raced(st: Store, t: Task, u: Upsert): (w: World)
    requires ValidStore(st) && PlansInsert(t, t.service, u)
    ensures ValidWorld(w) && w.store == InsertRow(st, u.model).0 && w.tasks.Keys == {0, 1} && w.tasks[0] == t
  {
    World(InsertRow(st, u.model).0, map[0 := t, 1 := Applying(t.service, t.upserts, 1, t.disables, t.changed)])
  }

  lemma InsertTurns(st: Store, t: Task, u: Upsert, rest: seq<Event>, end: World)
    requires ValidStore(st) && PlansInsert(t, t.service, u) && !Taken(st, u.model.routeKey, None)
    requires Reaches(Raced(st, t, u), [], rest, end)
    ensures Reaches(World(st, map[0 := t, 1 := t]), [], [Advance(1)] + rest, end)
  {
    var w := World(st, map[0 := t, 1 := t]);
    assert Next(w, [], Advance(1)) == Raced(st, t, u);
    ReachStep(w, [], Advance(1), rest, end);
  }

  /** A sync of one route up to its plan. */
  function Calls(p: nat, service: string, r: Route, rest: seq<Event>): seq<Event> {
    [Deliver(p, service, [r])] + ([Advance(p)] + ([Advance(p)] + ([Advance(p)] + rest)))
  }

  lemma BothPlan(st: Store, service: string, r: Route, rest: seq<Event>, end: World)
    requires ValidStore(st) && OrdinaryService(service)
    requires var t := PlannedTask(st, service, r); Reaches(World(st, map[0 := t, 1 := t]), [], rest, end)
    ensures Reaches(World(st, map[]), [], Calls(0, service, r, Calls(1, service, r, rest)), end)
  {
    var t := PlannedTask(st, service, r);
    var idle := World(st, map[]);
    assert With(idle, 0, t) == World(st, map[0 := t]) && With(With(idle, 0, t), 1, t) == World(st, map[0 := t, 1 := t]);
    ThreeCalls(With(idle, 0, t), service, r, 1, rest, end);
    ThreeCalls(idle, service, r, 0, Calls(1, service, r, rest), end);
  }

  /** Up to the edit: plan twice, insert once, edit. */
  function UpToEdit(service: string, r: Route, e: Event, rest: seq<Event>): seq<Event> {
    Calls(0, service, r, Calls(1, service, r, [Advance(1)] + ([e] + rest)))
  }

  lemma EditReached(st: Store, service: string, r: Route, e: Event, edited: World, rest: seq<Event>, end: World)
    requires ValidStore(st) && OrdinaryService(service) && PlansInsert(PlannedTask(st, service, r), service, NewUpsert(service, r))
    requires !Taken(st, Some(RouteKeyOf(r)), None)
    requires var w := Raced(st, PlannedTask(st, service, r), NewUpsert(service, r));
      Admissible(w, e) && Next(w, [], e) == edited
    requires Reaches(edited, [], rest, end)
    ensures Reaches(World(st, map[]), [], UpToEdit(service, r, e, rest), end)
  {
    var t, u := PlannedTask(st, service, r), NewUpsert(service, r);
    ReachStep(Raced(st, t, u), [], e, rest, end);
    InsertTurns(st, t, u, [e] + rest, end);
    BothPlan(st, service, r, [Advance(1)] + ([e] + rest), end);
  }

  lemma ReachedSafe(st: Store, run: seq<Event>, end: World)
    requires ValidStore(st) && Reaches(World(st, map[]), [], run, end)
    ensures SafeWorld(end, [])
  {
    RunSafe(World(st, map[]), [], run);
  }

  /** The row the winner inserted, as the user's edit leaves it. */
  lemma EditedRow(st: Store, u: Upsert, id: nat, body: Row, released: seq<FieldName>)
    requires ValidStore(st) && id in st.rows && st.rows[id] == u.model
    requires EditStore(st, Some(id), body, released).1 == Saved && body.owner.None?
    requires WithKey(body).routeKey.Some? ==> WithKey(body).routeKey == u.model.routeKey
    ensures var after := EditStore(st, Some(id), body, released).0;
      id in after.rows && after.rows[id].owner == u.model.owner && after.rows[id].routeKey == u.model.routeKey
  {
    SavedIsUpdate(st, id, body, released);
    var patch := EditPatch(st.rows[id], WithKey(body), released);
    assert patch.owner == body.owner && patch.routeKey == WithKey(body).routeKey;
    PatchedRow(st, id, patch);
  }

  lemma PatchedRow(st: Store, id: nat, patch: Row)
    requires ValidStore(st) && id in st.rows && UpdateRow(st, id, patch).1.Written?
    requires patch.owner.None? && (patch.routeKey.Some? ==> patch.routeKey == st.rows[id].routeKey)
    ensures var after := UpdateRow(st, id, patch).0;
      id in after.rows && after.rows[id].owner == st.rows[id].owner && after.rows[id].routeKey == st.rows[id].routeKey
  {
  }

  /** From an idle store where nobody holds the route's key: the whole run, and a user's edit of the fresh
      row, hard and so locking it, is overwritten by a sync that never read it, overrides included. */
  lemma LockLostToInsertRace(st: Store, service: string, r: Route, body: Row, released: seq<FieldName>)
    requires ValidStore(st) && OrdinaryService(service) && IsValidRoute(r)
    requires forall h :: h in st.rows ==> st.rows[h].routeKey != Some(RouteKeyOf(r))
    requires var created := InsertRow(st, NewUpsert(service, r).model).0;
      && st.nextId in created.rows
      && EditStore(created, Some(st.nextId), body, released).1 == Saved && body.owner.None?
      && Hard(ChangedNames(created.rows[st.nextId], WithKey(body))) != []
      && (WithKey(body).routeKey.Some? ==> WithKey(body).routeKey == Some(RouteKeyOf(r)))
    ensures var created, id := InsertRow(st, NewUpsert(service, r).model).0, st.nextId;
      && id in EditStore(created, Some(id), body, released).0.rows
      && IsLocked(EditStore(created, Some(id), body, released).0.rows[id])
      && exists end :: (Reaches(World(st, map[]), [],
                                UpToEdit(service, r, Edited(created, id, body, released),
                                         [Advance(0)] + ([Advance(0)] + ([Advance(0)] + []))), end)
                        && Reset(end.store, id))
  {
    var u, t, id := NewUpsert(service, r), PlannedTask(st, service, r), st.nextId;
    PlanForNewKey(st, service, r);
    var w := Raced(st, t, u);
    HardEditLocks(w.store, id, body, released);
    EditIsEvent(w, [], id, body, released);
    EditedRow(w.store, u, id, body, released);
    var end := RaceFromEdit(st, service, r, Edited(w.store, id, body, released),
                            w.(store := EditStore(w.store, Some(id), body, released).0), id);
  }

  /** Neither lock nor overrides. */
  predicate Reset(st: Store, id: nat) { id in st.rows && !IsLocked(st.rows[id]) && Overrides(st.rows[id]) == [] }

  lemma RaceFromEdit(st: Store, service: string, r: Route, e: Event, edited: World, id: nat) returns (end: World)
    requires ValidStore(st) && OrdinaryService(service) && PlansInsert(PlannedTask(st, service, r), service, NewUpsert(service, r))
    requires !Taken(st, Some(RouteKeyOf(r)), None)
    requires var w := Raced(st, PlannedTask(st, service, r), NewUpsert(service, r));
      Admissible(w, e) && Next(w, [], e) == edited && edited.tasks == w.tasks
    requires id in edited.store.rows && edited.store.rows[id].owner == Some(service)
    requires edited.store.rows[id].routeKey == Some(RouteKeyOf(r))
    ensures Reaches(World(st, map[]), [], UpToEdit(service, r, e, [Advance(0)] + ([Advance(0)] + ([Advance(0)] + []))), end)
    ensures Reset(end.store, id)
  {
    var u := NewUpsert(service, r);
    RunEmpty(edited, []);
    EditReached(st, service, r, e, edited, [], edited);
    ReachedSafe(st, UpToEdit(service, r, e, []), edited);
    InsertPlanOverwrites(edited, [], 0, id);
    end :| Reaches(edited, [], [Advance(0)] + ([Advance(0)] + ([Advance(0)] + [])), end)
      && id in end.store.rows && end.store.rows[id] == Merge(edited.store.rows[id], u.model) && !IsLocked(end.store.rows[id]);
    EditReached(st, service, r, e, edited, [Advance(0)] + ([Advance(0)] + ([Advance(0)] + [])), end);
  }
}
