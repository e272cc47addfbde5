/** The edits of the admin service as events of the interleaved system: they respect the marks of earlier
    edits as long as they start from the current row, and syncs in flight can lose them. */
module RouteEdits {
  import opened Options
  import opened RouteManifest
  import opened RouteStore
  import opened RouteDiff
  import opened RouteSync
  import opened RouteProtocol
  import opened RouteLocks
  import opened RouteInterference

  // ---- What an edit of the row does to a mark -----------------------------------------------------

  /** The edit neither renames the route nor carries the marked field or its release. */
  predicate LeavesAlone(body: Row, released: seq<FieldName>, mark: Mark) {
    && (WithKey(body).routeKey.Some? ==> WithKey(body).routeKey == mark.key)
    && (mark.Kept? ==> mark.f !in body.content && Content(mark.f) !in released)
  }

  /** Edits of the row as it is now keep its lock, and its other overrides: they are continuations the
      survival theorem speaks of. */
  lemma EditRespectsMark(row: Row, body: Row, released: seq<FieldName>, mark: Mark)
    requires Marked(row, mark) && LeavesAlone(body, released, mark)
    ensures Keeps(EditPatch(row, WithKey(body), released), mark)
  {
    var patch := EditPatch(row, WithKey(body), released);
    assert patch.modified == Some(Hard(ChangedNames(row, WithKey(body))) != [] || IsLocked(row));
    if mark.Kept? {
      KeyOnlyContent(body);
      EditedOverride(row, WithKey(body), released, Content(mark.f));
    }
  }

  lemma KeyOnlyContent(body: Row)
    ensures WithKey(body).content == body.content
  {
  }

  /** An edit that read the row before another edit locked it is no such continuation: with soft changes
      only, it writes the old unlocked state back. */
  lemma StaleEditUnlocks(seen: Row, locked: Row, body: Row, released: seq<FieldName>)
    requires !IsLocked(seen) && IsLocked(locked) && Hard(ChangedNames(seen, WithKey(body))) == []
    ensures !IsLocked(Merge(locked, EditPatch(seen, WithKey(body), released)))
  {
    assert EditPatch(seen, WithKey(body), released).modified == Some(false);
  }

  // ---- Runs step by step --------------------------------------------------------------------------

  ghost predicate Reaches(w: World, yaml: seq<Route>, run: seq<Event>, end: World)
    requires ValidWorld(w)
  {
    AdmissibleRun(w, yaml, run) && Run(w, yaml, run) == end
  }

  lemma ReachStep(w: World, yaml: seq<Route>, e: Event, rest: seq<Event>, end: World)
    requires ValidWorld(w) && Admissible(w, e) && Reaches(Next(w, yaml, e), yaml, rest, end)
    ensures Reaches(w, yaml, [e] + rest, end)
  {
    assert ([e] + rest)[0] == e && ([e] + rest)[1..] == rest;
  }

  lemma RunEmpty(w: World, yaml: seq<Route>)
    requires ValidWorld(w)
    ensures Reaches(w, yaml, [], w)
  {
  }

  function Edited(st: Store, id: nat, body: Row, released: seq<FieldName>): Event
    requires id in st.rows
  {
    AdminEdit(id, EditPatch(st.rows[id], WithKey(body), released))
  }

  /** A creation of the service, refused for its key or not, is one event of the system. */
  lemma CreationIsEvent(w: World, yaml: seq<Route>, model: Row)
    requires ValidWorld(w) && Complete(model)
    ensures var key := RouteKeyOf(model.content);
      Next(w, yaml, AdminCreate(model.(routeKey := Some(key), source := Some(User), modified := Some(false))))
      == w.(store := CreateStore(w.store, model).0)
  {
  }

  /** The event of a saved edit is the edit. */
  lemma EditIsEvent(w: World, yaml: seq<Route>, id: nat, body: Row, released: seq<FieldName>)
    requires ValidWorld(w) && EditStore(w.store, Some(id), body, released).1 == Saved && body.owner.None?
    ensures id in w.store.rows
    ensures Admissible(w, Edited(w.store, id, body, released))
    ensures Next(w, yaml, Edited(w.store, id, body, released))
         == w.(store := EditStore(w.store, Some(id), body, released).0)
  {
    SavedIsUpdate(w.store, id, body, released);
    assert EditPatch(w.store.rows[id], WithKey(body), released).owner == body.owner;
  }

  /** A hard change locks. */
  lemma HardEditLocks(st: Store, id: nat, body: Row, released: seq<FieldName>)
    requires ValidStore(st) && EditStore(st, Some(id), body, released).1 == Saved
    requires id in st.rows && Hard(ChangedNames(st.rows[id], WithKey(body))) != []
    ensures EditStore(st, Some(id), body, released).0.rows.Keys == st.rows.Keys
    ensures IsLocked(EditStore(st, Some(id), body, released).0.rows[id])
  {
    SavedIsUpdate(st, id, body, released);
    LockingPatch(st, id, EditPatch(st.rows[id], WithKey(body), released));
  }

  lemma LockingPatch(st: Store, id: nat, patch: Row)
    requires ValidStore(st) && UpdateRow(st, id, patch).1.Written? && patch.modified == Some(true)
    ensures UpdateRow(st, id, patch).0.rows.Keys == st.rows.Keys && id in st.rows
    ensures IsLocked(UpdateRow(st, id, patch).0.rows[id])
  {
  }

  // ---- A planned update over a lock ---------------------------------------------------------------

  /** Three calls of a sync of one route for the one row there is: read, reserve, plan. */
  lemma PlanForOneRow(st: Store, service: string, r: Route, id: nat)
    requires ValidStore(st) && OrdinaryService(service) && IsValidRoute(r) && st.rows.Keys == {id}
    requires Holds(st.rows[id], service, RouteKeyOf(r))
    requires Judge(service, r, Some(Doc(id, st.rows[id])), None).Write?
    ensures DiffOf(service, [r], FindByOwner(st, service), ReserveOne(st, service, RouteKeyOf(r), map[])).upserts
         == [Judge(service, r, Some(Doc(id, st.rows[id])), None).upsert]
  {
    var key := RouteKeyOf(r);
    assert [r][..0] == [] && [r][0] == r;
    IndexExact(st, service, key);
    var index := Index(FindByOwner(st, service));
    assert At(index, key) == Some(Doc(id, st.rows[id]));
    var reserved := ReserveOne(st, service, key, map[]);
    assert forall d :: d in FindByRouteKey(st, key) ==> OwnerName(d.row) == service;
    assert At(reserved, key) == None;
    assert IncomingDiff(service, [], index, reserved) == EMPTY_DIFF;
  }

  /** Up to the plan, nothing is written. */
  function PlannedTask(st: Store, service: string, r: Route): Task {
    var reserved := ReserveOne(st, service, RouteKeyOf(r), map[]);
    var diff := DiffOf(service, [r], FindByOwner(st, service), reserved);
    Applying(service, diff.upserts, 0, diff.disables, diff.changed)
  }

  function With(w: World, p: nat, t: Task): World { w.(tasks := w.tasks[p := t]) }

  ghost function PlannedWorld(st: Store, service: string, r: Route): (w: World)
    requires ValidStore(st)
    ensures ValidWorld(w) && w.store == st
  {
    World(st, map[0 := PlannedTask(st, service, r)])
  }

  lemma CallTurns(w: World, p: nat, t: Task, next: Task, rest: seq<Event>, end: World)
    requires ValidWorld(w) && InBounds(t) && InBounds(next) && TaskStep(w.store, [], t) == (w.store, next)
    requires Reaches(With(w, p, next), [], rest, end)
    ensures Reaches(With(w, p, t), [], [Advance(p)] + rest, end)
  {
    assert Next(With(w, p, t), [], Advance(p)).tasks == With(w, p, next).tasks;
    ReachStep(With(w, p, t), [], Advance(p), rest, end);
  }

  lemma ThreeCalls(w: World, service: string, r: Route, p: nat, rest: seq<Event>, end: World)
    requires ValidWorld(w) && OrdinaryService(service) && p !in w.tasks
    requires InBounds(PlannedTask(w.store, service, r))
    requires Reaches(With(w, p, PlannedTask(w.store, service, r)), [], rest, end)
    ensures Reaches(w, [], [Deliver(p, service, [r])] + ([Advance(p)] + ([Advance(p)] + ([Advance(p)] + rest))), end)
  {
    var existing, reserved := FindByOwner(w.store, service), ReserveOne(w.store, service, RouteKeyOf(r), map[]);
    CallTurns(w, p, Reserving(service, [r], existing, reserved, 1), PlannedTask(w.store, service, r), rest, end);
    CallTurns(w, p, Reserving(service, [r], existing, map[], 0), Reserving(service, [r], existing, reserved, 1),
      [Advance(p)] + rest, end);
    CallTurns(w, p, Reading(service, [r]), Reserving(service, [r], existing, map[], 0),
      [Advance(p)] + ([Advance(p)] + rest), end);
    ReachStep(w, [], Deliver(p, service, [r]), [Advance(p)] + ([Advance(p)] + ([Advance(p)] + rest)), end);
  }

  /** A sync reads the row, a user's accepted edit changes a hard field and so locks it, the sync writes:
      the row is unlocked again. The lock was on the row for exactly as long as the sync took. */
  lemma LockLostToInFlightSync(st: Store, service: string, r: Route, id: nat, body: Row, released: seq<FieldName>)
    requires ValidStore(st) && OrdinaryService(service) && IsValidRoute(r) && st.rows.Keys == {id}
    requires Holds(st.rows[id], service, RouteKeyOf(r))
    requires Judge(service, r, Some(Doc(id, st.rows[id])), None).Write?
    requires EditStore(st, Some(id), body, released).1 == Saved && body.owner.None?
    requires Hard(ChangedNames(st.rows[id], WithKey(body))) != []
    ensures id in EditStore(st, Some(id), body, released).0.rows
    ensures IsLocked(EditStore(st, Some(id), body, released).0.rows[id])
    ensures exists end :: (Reaches(World(st, map[]), [], Overtaken(service, r, Edited(st, id, body, released)), end)
      && Unlocked(end.store, id))
  {
    HardEditLocks(st, id, body, released);
    EditIsEvent(PlannedWorld(st, service, r), [], id, body, released);
    var end := EditOvertaken(st, service, r, id, Edited(st, id, body, released), EditStore(st, Some(id), body, released).0);
  }

  /** A sync of one route, with one event between its plan and its write. */
  function Overtaken(service: string, r: Route, e: Event): seq<Event> {
    [Deliver(0, service, [r])] + ([Advance(0)] + ([Advance(0)] + ([Advance(0)] + ([e] + ([Advance(0)] + [])))))
  }

  lemma EditOvertaken(st: Store, service: string, r: Route, id: nat, e: Event, locked: Store) returns (end: World)
    requires ValidStore(st) && OrdinaryService(service) && IsValidRoute(r) && st.rows.Keys == {id}
    requires Holds(st.rows[id], service, RouteKeyOf(r))
    requires Judge(service, r, Some(Doc(id, st.rows[id])), None).Write?
    requires ValidStore(locked) && locked.rows.Keys == {id}
    requires var planned := PlannedWorld(st, service, r);
      Admissible(planned, e) && Next(planned, [], e) == planned.(store := locked)
    ensures Reaches(World(st, map[]), [], Overtaken(service, r, e), end) && Unlocked(end.store, id)
  {
    var t := PlannedTask(st, service, r);
    PlanForOneRow(st, service, r, id);
    end := PlanOverwrites(st, t, id, e, locked);
    var start := World(st, map[]);
    assert start.(tasks := start.tasks[0 := t]) == World(st, map[0 := t]);
    ThreeCalls(start, service, r, 0, [e] + ([Advance(0)] + []), end);
  }

  predicate Unlocked(st: Store, id: nat) { id in st.rows && st.rows[id].modified == Some(false) }

  lemma PlanOverwrites(st: Store, t: Task, id: nat, e: Event, locked: Store) returns (end: World)
    requires ValidStore(st) && ValidStore(locked) && locked.rows.Keys == {id}
    requires InBounds(t) && t.Applying? && t.next < |t.upserts|
    requires t.upserts[t.next].existingId == Some(id) && t.upserts[t.next].model.modified == Some(false)
    requires Admissible(World(st, map[0 := t]), e) && Next(World(st, map[0 := t]), [], e) == World(locked, map[0 := t])
    ensures Reaches(World(st, map[0 := t]), [], [e] + ([Advance(0)] + []), end) && Unlocked(end.store, id)
  {
    var edited := World(locked, map[0 := t]);
    OneRowWrite(locked, id, t.upserts[t.next]);
    end := Next(edited, [], Advance(0));
    RunEmpty(end, []);
    ReachStep(edited, [], Advance(0), [], end);
    ReachStep(World(st, map[0 := t]), [], e, [Advance(0)] + [], end);
  }

  lemma OneRowWrite(st: Store, id: nat, u: Upsert)
    requires ValidStore(st) && st.rows.Keys == {id} && u.model.modified == Some(false)
    ensures var after := UpdateRow(st, id, u.model).0;
      !UpdateRow(st, id, u.model).1.Conflict? && id in after.rows && after.rows[id].modified == Some(false)
  {
  }

  // ---- A planned insert over a lock ---------------------------------------------------------------

  /** A sync that never read the row: its planned insert loses the race to the row, finds it as its own
      service's, and writes its model over it, lock and overrides included. */
  lemma InsertPlanOverwrites(w: World, yaml: seq<Route>, p: nat, id: nat)
    requires SafeWorld(w, yaml) && p in w.tasks && id in w.store.rows
    requires var t := w.tasks[p];
      t.Applying? && t.next < |t.upserts| && t.upserts[t.next].existingId.None?
      && YieldsTo(w.store, t.service, t.upserts[t.next], id)
    ensures var u := w.tasks[p].upserts[w.tasks[p].next];
      exists end :: Reaches(w, yaml, [Advance(p)] + ([Advance(p)] + ([Advance(p)] + [])), end)
        && id in end.store.rows && end.store.rows[id] == Merge(w.store.rows[id], u.model) && !IsLocked(end.store.rows[id])
  {
    var t := w.tasks[p];
    var u := t.upserts[t.next];
    PlanSafe(w.store, yaml, t);
    assert u in t.upserts;
    LosesRace(w.store, yaml, t, id);
    RaceFinds(w.store, t.service, u, id);
    var w1 := Next(w, yaml, Advance(p));
    var w2 := Next(w1, yaml, Advance(p));
    assert w2.store == w.store && w2.tasks[p] == Reconciling(t.service, t.upserts, t.next, t.disables, t.changed, id);
    var end := WinnerOverwritten(w2, yaml, p, id);
    ReachStep(w1, yaml, Advance(p), [Advance(p)] + [], end);
    ReachStep(w, yaml, Advance(p), [Advance(p)] + ([Advance(p)] + []), end);
  }

  /** The last of the three calls: the winner is the row itself, so nothing is in its way. */
  lemma WinnerOverwritten(w: World, yaml: seq<Route>, p: nat, id: nat) returns (end: World)
    requires ValidWorld(w) && p in w.tasks && id in w.store.rows
    requires var t := w.tasks[p];
      && t.Reconciling? && t.winner == id && t.next < |t.upserts|
      && var u := t.upserts[t.next];
         u.model.routeKey == Some(u.routeKey) && u.model.modified == Some(false) && w.store.rows[id].routeKey == Some(u.routeKey)
    ensures Reaches(w, yaml, [Advance(p)] + [], end)
    ensures var u := w.tasks[p].upserts[w.tasks[p].next];
      id in end.store.rows && end.store.rows[id] == Merge(w.store.rows[id], u.model) && !IsLocked(end.store.rows[id])
  {
    var u := w.tasks[p].upserts[w.tasks[p].next];
    forall h | HeldBy(w.store, u.routeKey, h) ensures h == id { assert HeldBy(w.store, u.routeKey, id); }
    NoConflict(w.store, id, u.model, u.routeKey);
    end := Next(w, yaml, Advance(p));
    RunEmpty(end, yaml);
    ReachStep(w, yaml, Advance(p), [], end);
  }
}
