/** What a user's edit may lose to syncs that are already in flight. A lock or an override on a row
    survives every continuation exactly when no task holds a plan, or a read that will become one, that
    writes the row without it: the condition is read off the tasks at the time of the edit. */
module RouteInterference {
  import opened Options
  import opened CanonicalJson
  import opened RouteManifest
  import opened RouteStore
  import opened RouteDiff
  import opened RouteSync
  import opened RouteProtocol

  /** What an edit left on a row: a lock, or the user's value of one field; and its identity. */
  datatype Mark = Lock(key: Option<string>) | Kept(key: Option<string>, f: RouteField, v: Json)

  predicate Marked(row: Row, mark: Mark) {
    && row.routeKey == mark.key
    && match mark
       case Lock(_) => IsLocked(row)
       case Kept(_, f, v) => Content(f) in Overrides(row) && Get(row.content, f) == v
  }

  /** The patch leaves a marked row marked. */
  predicate Keeps(patch: Row, mark: Mark) {
    && (patch.routeKey.Some? ==> patch.routeKey == mark.key)
    && match mark
       case Lock(_) => patch.modified.Some? ==> patch.modified.value
       case Kept(_, f, v) =>
         && (patch.userOverrides.Some? ==> Content(f) in patch.userOverrides.value)
         && (f in patch.content ==> patch.content[f] == v)
  }

  lemma KeepsExact(row: Row, patch: Row, mark: Mark)
    requires Marked(row, mark)
    ensures Marked(Merge(row, patch), mark) <==> Keeps(patch, mark)
  {
    var after := Merge(row, patch);
    assert patch.modified.Some? ==> IsLocked(after) == patch.modified.value;
    if mark.Kept? {
      assert Get(after.content, mark.f) == if mark.f in patch.content then patch.content[mark.f] else Get(row.content, mark.f);
      assert Overrides(after) == if patch.userOverrides.Some? then patch.userOverrides.value else Overrides(row);
    }
  }

  // ---- Threats ------------------------------------------------------------------------------------

  /** The upsert's key is the row's, so its insert, or its update of another row, loses the race to it. */
  predicate YieldsTo(st: Store, service: string, u: Upsert, id: nat) {
    id in st.rows && st.rows[id].routeKey == Some(u.routeKey) && st.rows[id].owner == Some(service)
  }

  /** The upsert will write the row, directly or as the winner of its lost race, and drop the mark. */
  predicate Hits(st: Store, service: string, u: Upsert, id: nat, mark: Mark) {
    && !Keeps(u.model, mark)
    && (u.existingId == Some(id)
        || (YieldsTo(st, service, u, id) && (u.existingId.Some? ==> u.existingId.value in st.rows)))
  }

  ghost predicate HitFrom(st: Store, service: string, upserts: seq<Upsert>, n: nat, id: nat, mark: Mark) {
    exists m :: n <= m < |upserts| && Hits(st, service, upserts[m], id, mark)
  }

  /** The task holds an upsert, or a read of the service's rows that still leads to one, that hits. */
  ghost predicate Threatens(st: Store, t: Task, id: nat, mark: Mark)
    requires InBounds(t)
  {
    match t
    case Reserving(service, routes, existing, reserved, _) =>
      HitFrom(st, service, DiffOf(service, routes, existing, reserved).upserts, 0, id, mark)
    case Applying(service, upserts, n, _, _) => HitFrom(st, service, upserts, n, id, mark)
    case Racing(service, upserts, n, _, _) =>
      || (!Keeps(upserts[n].model, mark) && YieldsTo(st, service, upserts[n], id))
      || HitFrom(st, service, upserts, n + 1, id, mark)
    case Reconciling(service, upserts, n, _, _, winner) =>
      || (!Keeps(upserts[n].model, mark) && winner == id)
      || HitFrom(st, service, upserts, n + 1, id, mark)
    case _ => false
  }

  // ---- Continuations ------------------------------------------------------------------------------

  /** Users go on editing the row, but not against the mark. */
  predicate Respects(e: Event, id: nat, mark: Mark) {
    e.AdminEdit? && e.id == id ==> Keeps(e.patch, mark)
  }

  ghost predicate RespectfulRun(w: World, yaml: seq<Route>, run: seq<Event>, id: nat, mark: Mark)
    requires ValidWorld(w)
    decreases |run|
  {
    run == [] || (Admissible(w, run[0]) && Respects(run[0], id, mark)
                  && RespectfulRun(Next(w, yaml, run[0]), yaml, run[1..], id, mark))
  }

  /** The row is there without the mark. */
  predicate Lost(st: Store, id: nat, mark: Mark) { id in st.rows && !Marked(st.rows[id], mark) }

  /** After the run the row is there without the mark. */
  ghost predicate Loses(w: World, yaml: seq<Route>, run: seq<Event>, id: nat, mark: Mark)
    requires ValidWorld(w)
  {
    && RespectfulRun(w, yaml, run, id, mark)
    && AdmissibleRun(w, yaml, run)
    && Lost(Run(w, yaml, run).store, id, mark)
  }

  /** Some continuation loses the mark. */
  ghost predicate Breakable(w: World, yaml: seq<Route>, id: nat, mark: Mark)
    requires ValidWorld(w)
  {
    exists run :: Loses(w, yaml, run, id, mark)
  }

  // ---- Without a threat the mark stays ------------------------------------------------------------

  ghost predicate Unthreatened(w: World, id: nat, mark: Mark)
    requires ValidWorld(w)
  {
    && id < w.store.nextId
    && (id in w.store.rows ==> Marked(w.store.rows[id], mark))
    && forall p :: p in w.tasks ==> !Threatens(w.store, w.tasks[p], id, mark)
  }

  lemma HitsFrame(before: Store, after: Store, yaml: seq<Route>, service: string, u: Upsert, id: nat, mark: Mark)
    requires SafeUpsert(before, yaml, service, u) && OwnersKept(before, after) && id < before.nextId
    requires id in after.rows && id in before.rows ==> after.rows[id].routeKey == before.rows[id].routeKey
    requires Hits(after, service, u, id, mark)
    ensures Hits(before, service, u, id, mark)
  {
  }

  /** The plan a task would end up with, as far as it is known. */
  function PlanOf(t: Task): seq<Upsert> {
    match t
    case Reserving(service, routes, existing, reserved, _) => DiffOf(service, routes, existing, reserved).upserts
    case Applying(_, upserts, _, _, _) => upserts
    case Racing(_, upserts, _, _, _) => upserts
    case Reconciling(_, upserts, _, _, _, _) => upserts
    case _ => []
  }

  lemma PlanSafe(st: Store, yaml: seq<Route>, t: Task)
    requires SafeTask(st, yaml, t)
    ensures SafePlan(st, yaml, t.service, PlanOf(t), [])
  {
    if t.Reserving? { DiffPlanSafe(st, yaml, t.service, t.routes, t.existing, t.reserved); }
  }

  lemma HitFromFrame(before: Store, after: Store, yaml: seq<Route>, t: Task, n: nat, id: nat, mark: Mark)
    requires SafePlan(before, yaml, t.service, PlanOf(t), []) && OwnersKept(before, after) && id < before.nextId
    requires id in after.rows && id in before.rows ==> after.rows[id].routeKey == before.rows[id].routeKey
    requires HitFrom(after, t.service, PlanOf(t), n, id, mark)
    ensures HitFrom(before, t.service, PlanOf(t), n, id, mark)
  {
    var upserts := PlanOf(t);
    var m :| n <= m < |upserts| && Hits(after, t.service, upserts[m], id, mark);
    assert upserts[m] in upserts;
    HitsFrame(before, after, yaml, t.service, upserts[m], id, mark);
  }

  /** Somebody else's write makes no task a threat that was none. */
  lemma ThreatFrame(before: Store, after: Store, yaml: seq<Route>, t: Task, id: nat, mark: Mark)
    requires SafeTask(before, yaml, t) && OwnersKept(before, after) && id < before.nextId
    requires id in after.rows && id in before.rows ==> after.rows[id].routeKey == before.rows[id].routeKey
    requires Threatens(after, t, id, mark)
    ensures Threatens(before, t, id, mark)
  {
    PlanSafe(before, yaml, t);
    match t
    case Reserving(_, _, _, _, _) => HitFromFrame(before, after, yaml, t, 0, id, mark);
    case Applying(_, _, n, _, _) => HitFromFrame(before, after, yaml, t, n, id, mark);
    case Racing(service, upserts, n, _, _) =>
      if HitFrom(after, service, upserts, n + 1, id, mark) { HitFromFrame(before, after, yaml, t, n + 1, id, mark); }
    case Reconciling(service, upserts, n, _, _, _) =>
      if HitFrom(after, service, upserts, n + 1, id, mark) { HitFromFrame(before, after, yaml, t, n + 1, id, mark); }
  }

  /** A plan from a fresh read respects what it read: locked rows are left alone, overrides carried over. */
  lemma FreshReadHarmless(st: Store, yaml: seq<Route>, service: string, routes: seq<Route>,
                          reserved: map<string, string>, id: nat, mark: Mark)
    requires ValidStore(st) && (id in st.rows ==> Marked(st.rows[id], mark))
    ensures !HitFrom(st, service, DiffOf(service, routes, FindByOwner(st, service), reserved).upserts, 0, id, mark)
  {
    var upserts := DiffOf(service, routes, FindByOwner(st, service), reserved).upserts;
    DiffDecidesEachKey(service, routes, Index(FindByOwner(st, service)), reserved);
    forall m | 0 <= m < |upserts| ensures !Hits(st, service, upserts[m], id, mark) {
      assert upserts[m] in upserts;
      FreshUpsertHarmless(st, service, routes, reserved, upserts[m], id, mark);
    }
  }

  lemma FreshUpsertHarmless(st: Store, service: string, routes: seq<Route>, reserved: map<string, string>, u: Upsert,
                            id: nat, mark: Mark)
    requires ValidStore(st) && (id in st.rows ==> Marked(st.rows[id], mark))
    requires u.routeKey in ValidKeys(routes)
    requires VerdictOn(service, routes, Index(FindByOwner(st, service)), reserved, u.routeKey) == Write(u)
    ensures !Hits(st, service, u, id, mark)
  {
    var ex := At(Index(FindByOwner(st, service)), u.routeKey);
    IndexExact(st, service, u.routeKey);
    if ex.Some? && ex.value.id == id { CarriesOver(service, FirstRoute(routes, u.routeKey), Doc(id, st.rows[id]), mark); }
  }

  lemma CarriesOver(service: string, r: Route, ex: Doc, mark: Mark)
    requires Marked(ex.row, mark) && mark.key == Some(RouteKeyOf(r)) && !IsLocked(ex.row)
    ensures Keeps(ModelFor(service, r, Some(ex)), mark)
  {
  }

  /** A patch by somebody else does not touch the row; its own keeps the mark if the patch does. */
  lemma UpdateMarked(st: Store, i: nat, patch: Row, id: nat, mark: Mark)
    requires ValidStore(st) && (id in st.rows ==> Marked(st.rows[id], mark)) && (i == id ==> Keeps(patch, mark))
    ensures var after := UpdateRow(st, i, patch).0;
      (id in after.rows <==> id in st.rows) && (id in after.rows ==> Marked(after.rows[id], mark))
  {
    if i == id && id in st.rows { KeepsExact(st.rows[id], patch, mark); }
  }

  lemma UpsertMarked(st: Store, yaml: seq<Route>, t: Task, id: nat, mark: Mark)
    requires ValidStore(st) && SafeTask(st, yaml, t) && t.Applying? && !Threatens(st, t, id, mark)
    requires id < st.nextId && (id in st.rows ==> Marked(st.rows[id], mark))
    ensures var after := TaskStep(st, yaml, t).0;
      (id in after.rows <==> id in st.rows) && (id in after.rows ==> Marked(after.rows[id], mark))
  {
    if t.next < |t.upserts| {
      var u := t.upserts[t.next];
      assert !Hits(st, t.service, u, id, mark);
      if u.existingId.Some? { UpdateMarked(st, u.existingId.value, u.model, id, mark); }
    }
  }

  lemma StepMarked(st: Store, yaml: seq<Route>, t: Task, id: nat, mark: Mark)
    requires ValidStore(st) && SafeTask(st, yaml, t) && !Threatens(st, t, id, mark)
    requires id < st.nextId && (id in st.rows ==> Marked(st.rows[id], mark))
    ensures var after := TaskStep(st, yaml, t).0;
      (id in after.rows <==> id in st.rows) && (id in after.rows ==> Marked(after.rows[id], mark))
  {
    match t
    case Applying(_, _, _, _, _) => UpsertMarked(st, yaml, t, id, mark);
    case Reconciling(_, upserts, n, _, _, winner) => UpdateMarked(st, winner, upserts[n].model, id, mark);
    case Disabling(_, disables, n, _) =>
      if n < |disables| { UpdateMarked(st, disables[n].id, SWITCH_OFF, id, mark); }
    case _ =>
  }

  predicate Planned(service: string, routes: seq<Route>, existing: seq<Doc>, reserved: map<string, string>, u: Upsert) {
    u.routeKey in ValidKeys(routes) && VerdictOn(service, routes, Index(existing), reserved, u.routeKey) == Write(u)
  }

  lemma PlannedIff(service: string, routes: seq<Route>, existing: seq<Doc>, reserved: map<string, string>, u: Upsert)
    ensures u in DiffOf(service, routes, existing, reserved).upserts <==> Planned(service, routes, existing, reserved, u)
  {
    DiffDecidesEachKey(service, routes, Index(existing), reserved);
  }

  lemma SomeHit(st: Store, service: string, upserts: seq<Upsert>, u: Upsert, id: nat, mark: Mark)
    requires u in upserts && Hits(st, service, u, id, mark)
    ensures HitFrom(st, service, upserts, 0, id, mark)
  {
    var m :| 0 <= m < |upserts| && upserts[m] == u;
  }

  /** Reserving more keys only takes upserts out of the plan. */
  lemma ReserveShrinks(st: Store, service: string, routes: seq<Route>, existing: seq<Doc>, reserved: map<string, string>,
                       key: string, id: nat, mark: Mark)
    requires HitFrom(st, service, DiffOf(service, routes, existing, ReserveOne(st, service, key, reserved)).upserts, 0, id, mark)
    ensures HitFrom(st, service, DiffOf(service, routes, existing, reserved).upserts, 0, id, mark)
  {
    var after := ReserveOne(st, service, key, reserved);
    var upserts := DiffOf(service, routes, existing, after).upserts;
    var m :| 0 <= m < |upserts| && Hits(st, service, upserts[m], id, mark);
    var u := upserts[m];
    PlannedIff(service, routes, existing, after, u);
    ReserveDecides(st, service, routes, Index(existing), reserved, key, u);
    PlannedIff(service, routes, existing, reserved, u);
    SomeHit(st, service, DiffOf(service, routes, existing, reserved).upserts, u, id, mark);
  }

  lemma ReserveDecides(st: Store, service: string, routes: seq<Route>, index: map<string, Doc>,
                       reserved: map<string, string>, key: string, u: Upsert)
    requires u.routeKey in ValidKeys(routes)
    requires VerdictOn(service, routes, index, ReserveOne(st, service, key, reserved), u.routeKey) == Write(u)
    ensures VerdictOn(service, routes, index, reserved, u.routeKey) == Write(u)
  {
    var after := ReserveOne(st, service, key, reserved);
    if At(after, u.routeKey) != At(reserved, u.routeKey) {
      assert key == u.routeKey && key !in reserved;
    }
  }

  lemma UpsertStaysHarmless(st: Store, yaml: seq<Route>, t: Task, id: nat, mark: Mark)
    requires ValidStore(st) && SafeTask(st, yaml, t) && t.Applying? && !Threatens(st, t, id, mark)
    requires id < st.nextId && (id in st.rows ==> Marked(st.rows[id], mark))
    ensures var (after, next) := TaskStep(st, yaml, t); !Threatens(after, next, id, mark)
  {
    var (after, next) := TaskStep(st, yaml, t);
    var n := t.next;
    if n < |t.upserts| {
      UpsertMarked(st, yaml, t, id, mark);
      TaskStepSafe(st, yaml, t);
      assert !Hits(st, t.service, t.upserts[n], id, mark);
      if HitFrom(after, t.service, t.upserts, n + 1, id, mark) {
        PlanSafe(st, yaml, t);
        HitFromFrame(st, after, yaml, t, n + 1, id, mark);
      }
    }
  }

  lemma ReservingStaysHarmless(st: Store, yaml: seq<Route>, t: Task, id: nat, mark: Mark)
    requires ValidStore(st) && SafeTask(st, yaml, t) && t.Reserving? && !Threatens(st, t, id, mark)
    requires var (after, next) := TaskStep(st, yaml, t); InBounds(next)
    ensures var (after, next) := TaskStep(st, yaml, t); !Threatens(after, next, id, mark)
  {
    var (after, next) := TaskStep(st, yaml, t);
    if t.next < |t.routes| && Threatens(after, next, id, mark) {
      ReserveShrinks(st, t.service, t.routes, t.existing, t.reserved, RouteKeyOf(t.routes[t.next]), id, mark);
    }
  }

  lemma RacingStaysHarmless(st: Store, yaml: seq<Route>, t: Task, id: nat, mark: Mark)
    requires ValidStore(st) && SafeTask(st, yaml, t) && t.Racing? && !Threatens(st, t, id, mark)
    requires var (after, next) := TaskStep(st, yaml, t); InBounds(next)
    ensures var (after, next) := TaskStep(st, yaml, t); !Threatens(after, next, id, mark)
  {
  }

  lemma ReconcilingStaysHarmless(st: Store, yaml: seq<Route>, t: Task, id: nat, mark: Mark)
    requires ValidStore(st) && SafeTask(st, yaml, t) && t.Reconciling? && !Threatens(st, t, id, mark)
    requires id < st.nextId && (id in st.rows ==> Marked(st.rows[id], mark))
    requires var (after, next) := TaskStep(st, yaml, t); InBounds(next)
    ensures var (after, next) := TaskStep(st, yaml, t); !Threatens(after, next, id, mark)
  {
    var (after, next) := TaskStep(st, yaml, t);
    StepMarked(st, yaml, t, id, mark);
    PlanSafe(st, yaml, t);
  }

  /** The task itself turns into no threat it was not. */
  lemma TaskStaysHarmless(st: Store, yaml: seq<Route>, t: Task, id: nat, mark: Mark)
    requires ValidStore(st) && SafeTask(st, yaml, t) && !Threatens(st, t, id, mark)
    requires id < st.nextId && (id in st.rows ==> Marked(st.rows[id], mark))
    ensures var (after, next) := TaskStep(st, yaml, t); !Threatens(after, next, id, mark)
  {
    TaskStepSafe(st, yaml, t);
    match t
    case Reading(service, routes) =>
      FreshReadHarmless(st, yaml, service, routes, YamlKeys(yaml), id, mark);
    case Reserving(_, _, _, _, _) => ReservingStaysHarmless(st, yaml, t, id, mark);
    case Applying(_, _, _, _, _) => UpsertStaysHarmless(st, yaml, t, id, mark);
    case Racing(_, _, _, _, _) => RacingStaysHarmless(st, yaml, t, id, mark);
    case Reconciling(_, _, _, _, _, _) => ReconcilingStaysHarmless(st, yaml, t, id, mark);
    case Disabling(_, _, _, _) =>
    case Finished(_, _) =>
  }

  lemma AdvanceUnthreatened(w: World, yaml: seq<Route>, p: nat, id: nat, mark: Mark)
    requires SafeWorld(w, yaml) && Unthreatened(w, id, mark) && p in w.tasks
    ensures Unthreatened(Next(w, yaml, Advance(p)), id, mark)
  {
    var t := w.tasks[p];
    var after := TaskStep(w.store, yaml, t).0;
    StepMarked(w.store, yaml, t, id, mark);
    TaskStepSafe(w.store, yaml, t);
    TaskStaysHarmless(w.store, yaml, t, id, mark);
    forall q | q in w.tasks && q != p ensures !Threatens(after, w.tasks[q], id, mark) {
      if Threatens(after, w.tasks[q], id, mark) { ThreatFrame(w.store, after, yaml, w.tasks[q], id, mark); }
    }
  }

  lemma AdminUnthreatened(w: World, yaml: seq<Route>, e: Event, id: nat, mark: Mark)
    requires SafeWorld(w, yaml) && Unthreatened(w, id, mark) && Admissible(w, e) && Respects(e, id, mark)
    requires e.AdminCreate? || e.AdminEdit? || e.AdminDelete?
    ensures Unthreatened(Next(w, yaml, e), id, mark)
  {
    var after := Next(w, yaml, e).store;
    StepSafe(w, yaml, e);
    if e.AdminEdit? { UpdateMarked(w.store, e.id, e.patch, id, mark); }
    forall q | q in w.tasks ensures !Threatens(after, w.tasks[q], id, mark) {
      if Threatens(after, w.tasks[q], id, mark) { ThreatFrame(w.store, after, yaml, w.tasks[q], id, mark); }
    }
  }

  lemma StepUnthreatened(w: World, yaml: seq<Route>, e: Event, id: nat, mark: Mark)
    requires SafeWorld(w, yaml) && Unthreatened(w, id, mark) && Admissible(w, e) && Respects(e, id, mark)
    ensures Unthreatened(Next(w, yaml, e), id, mark)
  {
    match e
    case Advance(p) => AdvanceUnthreatened(w, yaml, p, id, mark);
    case Deliver(_, _, _) =>
    case Fail(_) =>
    case _ => AdminUnthreatened(w, yaml, e, id, mark);
  }

  lemma {:induction false} RunUnthreatened(w: World, yaml: seq<Route>, run: seq<Event>, id: nat, mark: Mark)
    requires SafeWorld(w, yaml) && Unthreatened(w, id, mark)
    requires RespectfulRun(w, yaml, run, id, mark) && AdmissibleRun(w, yaml, run)
    ensures Unthreatened(Run(w, yaml, run), id, mark)
    decreases |run|
  {
    if run != [] {
      StepSafe(w, yaml, run[0]);
      StepUnthreatened(w, yaml, run[0], id, mark);
      RunUnthreatened(Next(w, yaml, run[0]), yaml, run[1..], id, mark);
    }
  }

  // ---- With a threat it can be lost ---------------------------------------------------------------

  lemma BreakNow(w: World, yaml: seq<Route>, id: nat, mark: Mark)
    requires ValidWorld(w) && Lost(w.store, id, mark)
    ensures Breakable(w, yaml, id, mark)
  {
    assert Loses(w, yaml, [], id, mark);
  }

  lemma BreakNext(w: World, yaml: seq<Route>, e: Event, id: nat, mark: Mark)
    requires ValidWorld(w) && Admissible(w, e) && Respects(e, id, mark)
    requires Breakable(Next(w, yaml, e), yaml, id, mark)
    ensures Breakable(w, yaml, id, mark)
  {
    var rest :| Loses(Next(w, yaml, e), yaml, rest, id, mark);
    var run := [e] + rest;
    assert run[0] == e && run[1..] == rest;
    assert Loses(w, yaml, run, id, mark);
  }

  /** Somebody other than the row holds the key. */
  predicate HeldBy(st: Store, key: string, h: nat) { h in st.rows && st.rows[h].routeKey == Some(key) }

  lemma NoConflict(st: Store, i: nat, patch: Row, key: string)
    requires ValidStore(st) && patch.routeKey == Some(key) && (forall h :: HeldBy(st, key, h) ==> h == i)
    ensures UpdateRow(st, i, patch).1 == if i in st.rows then Written(i) else Missing
  {
    forall h | h in st.rows && st.rows[h].routeKey == Some(key) ensures h == i { assert HeldBy(st, key, h); }
  }

  /** The write that drops the mark. */
  lemma WriteDrops(st: Store, i: nat, patch: Row, key: string, mark: Mark)
    requires ValidStore(st) && i in st.rows && Marked(st.rows[i], mark) && !Keeps(patch, mark)
    requires patch.routeKey == Some(key) && forall h :: HeldBy(st, key, h) ==> h == i
    ensures Lost(UpdateRow(st, i, patch).0, i, mark)
  {
    NoConflict(st, i, patch, key);
    KeepsExact(st.rows[i], patch, mark);
  }

  /** Clear the key for the write: whoever else holds it is deleted first. */
  lemma DropAfterDelete(w: World, yaml: seq<Route>, p: nat, i: nat, patch: Row, key: string, mark: Mark)
    requires SafeWorld(w, yaml) && p in w.tasks && i in w.store.rows && Marked(w.store.rows[i], mark)
    requires !Keeps(patch, mark) && patch.routeKey == Some(key)
    requires forall st: Store :: ValidStore(st) && UpdateRow(st, i, patch).1.Written? ==>
      TaskStep(st, yaml, w.tasks[p]).0 == UpdateRow(st, i, patch).0
    ensures Breakable(w, yaml, i, mark)
  {
    if h: nat :| HeldBy(w.store, key, h) && h != i {
      var e := AdminDelete(h);
      var next := Next(w, yaml, e);
      assert next.store.rows[i] == w.store.rows[i];
      assert forall g :: HeldBy(next.store, key, g) ==> HeldBy(w.store, key, g);
      DropNow(next, yaml, p, i, patch, key, mark);
      BreakNext(w, yaml, e, i, mark);
    } else {
      DropNow(w, yaml, p, i, patch, key, mark);
    }
  }

  lemma DropNow(w: World, yaml: seq<Route>, p: nat, i: nat, patch: Row, key: string, mark: Mark)
    requires ValidWorld(w) && p in w.tasks && i in w.store.rows && Marked(w.store.rows[i], mark)
    requires !Keeps(patch, mark) && patch.routeKey == Some(key) && forall h :: HeldBy(w.store, key, h) ==> h == i
    requires forall st: Store :: ValidStore(st) && UpdateRow(st, i, patch).1.Written? ==>
      TaskStep(st, yaml, w.tasks[p]).0 == UpdateRow(st, i, patch).0
    ensures Breakable(w, yaml, i, mark)
  {
    NoConflict(w.store, i, patch, key);
    WriteDrops(w.store, i, patch, key, mark);
    BreakNow(Next(w, yaml, Advance(p)), yaml, i, mark);
    BreakNext(w, yaml, Advance(p), i, mark);
  }

  /** The task's next call writes the row itself. */
  lemma DirectWriteBreaks(w: World, yaml: seq<Route>, p: nat, id: nat, mark: Mark)
    requires SafeWorld(w, yaml) && p in w.tasks && id in w.store.rows && Marked(w.store.rows[id], mark)
    requires var t := w.tasks[p];
      || (t.Applying? && t.next < |t.upserts| && t.upserts[t.next].existingId == Some(id) && !Keeps(t.upserts[t.next].model, mark))
      || (t.Reconciling? && t.winner == id && !Keeps(t.upserts[t.next].model, mark))
    ensures Breakable(w, yaml, id, mark)
  {
    var t := w.tasks[p];
    var u := t.upserts[t.next];
    PlanSafe(w.store, yaml, t);
    assert u in t.upserts;
    forall st: Store | ValidStore(st) && UpdateRow(st, id, u.model).1.Written?
      ensures TaskStep(st, yaml, t).0 == UpdateRow(st, id, u.model).0
    {
    }
    DropAfterDelete(w, yaml, p, id, u.model, u.routeKey, mark);
  }

  /** The lost race finds the row as its winner. */
  lemma RaceFinds(st: Store, service: string, u: Upsert, id: nat)
    requires ValidStore(st) && YieldsTo(st, service, u, id)
    ensures var mine := FindOwned(FindByRouteKey(st, u.routeKey), service, true); mine.Some? && mine.value.id == id
  {
    assert Doc(id, st.rows[id]) in FindByRouteKey(st, u.routeKey);
  }

  lemma RacingBreaks(w: World, yaml: seq<Route>, p: nat, id: nat, mark: Mark)
    requires SafeWorld(w, yaml) && p in w.tasks && id in w.store.rows && Marked(w.store.rows[id], mark)
    requires var t := w.tasks[p];
      t.Racing? && YieldsTo(w.store, t.service, t.upserts[t.next], id) && !Keeps(t.upserts[t.next].model, mark)
    ensures Breakable(w, yaml, id, mark)
  {
    var t := w.tasks[p];
    RaceFinds(w.store, t.service, t.upserts[t.next], id);
    StepSafe(w, yaml, Advance(p));
    var next := Next(w, yaml, Advance(p));
    assert next.tasks[p] == Reconciling(t.service, t.upserts, t.next, t.disables, t.changed, id);
    DirectWriteBreaks(next, yaml, p, id, mark);
    BreakNext(w, yaml, Advance(p), id, mark);
  }

  /** The task's next upsert hits. */
  lemma HitBreaks(w: World, yaml: seq<Route>, p: nat, id: nat, mark: Mark)
    requires SafeWorld(w, yaml) && p in w.tasks && id in w.store.rows && Marked(w.store.rows[id], mark)
    requires var t := w.tasks[p];
      t.Applying? && t.next < |t.upserts| && Hits(w.store, t.service, t.upserts[t.next], id, mark)
    ensures Breakable(w, yaml, id, mark)
  {
    var t := w.tasks[p];
    var u := t.upserts[t.next];
    if u.existingId == Some(id) {
      DirectWriteBreaks(w, yaml, p, id, mark);
    } else {
      PlanSafe(w.store, yaml, t);
      assert u in t.upserts;
      LosesRace(w.store, yaml, t, id);
      StepSafe(w, yaml, Advance(p));
      RacingBreaks(Next(w, yaml, Advance(p)), yaml, p, id, mark);
      BreakNext(w, yaml, Advance(p), id, mark);
    }
  }

  lemma LosesRace(st: Store, yaml: seq<Route>, t: Task, id: nat)
    requires ValidStore(st) && t.Applying? && t.next < |t.upserts|
    requires var u := t.upserts[t.next];
      && u.model.routeKey == Some(u.routeKey) && YieldsTo(st, t.service, u, id) && u.existingId != Some(id)
      && (u.existingId.Some? ==> u.existingId.value in st.rows)
    ensures TaskStep(st, yaml, t) == (st, Racing(t.service, t.upserts, t.next, t.disables, t.changed))
  {
  }

  /** A step of a task keeps a hit further on in a plan, as long as the row keeps its mark. */
  lemma HitStays(before: Store, after: Store, service: string, u: Upsert, id: nat, mark: Mark)
    requires Hits(before, service, u, id, mark) && id in before.rows && id in after.rows
    requires Marked(before.rows[id], mark) && Marked(after.rows[id], mark)
    requires after.rows[id].owner == before.rows[id].owner
    requires u.existingId.Some? && u.existingId.value in before.rows ==> u.existingId.value in after.rows
    ensures Hits(after, service, u, id, mark)
  {
  }

  /** The stages an upsert goes through. */
  function Distance(t: Task, m: nat): nat
    requires t.Applying? || t.Racing? || t.Reconciling?
  {
    var left := if t.next <= m then m - t.next else 0;
    3 * left + (if t.Applying? then 2 else if t.Racing? then 1 else 0)
  }

  predicate Underway(t: Task) { t.Applying? || t.Racing? || t.Reconciling? }

  /** An upsert further on hits: let the task run up to it. */
  lemma {:induction false} PlanBreaks(w: World, yaml: seq<Route>, p: nat, m: nat, id: nat, mark: Mark)
    requires SafeWorld(w, yaml) && p in w.tasks && id in w.store.rows && Marked(w.store.rows[id], mark)
    requires var t := w.tasks[p];
      && Underway(t) && (if t.Applying? then t.next <= m else t.next < m) && m < |t.upserts|
      && Hits(w.store, t.service, t.upserts[m], id, mark)
    ensures Breakable(w, yaml, id, mark)
    decreases Distance(w.tasks[p], m), 2
  {
    var t := w.tasks[p];
    if t.Applying? && t.next == m {
      HitBreaks(w, yaml, p, id, mark);
    } else if t.Reconciling? && UpdateRow(w.store, t.winner, t.upserts[t.next].model).1.Conflict? {
      StuckBreaks(w, yaml, p, m, id, mark);
    } else {
      AdvanceBreaks(w, yaml, p, m, id, mark);
    }
  }

  /** The task goes on with its plan, one stage closer to upsert `m`. */
  lemma StageDone(st: Store, yaml: seq<Route>, t: Task, m: nat)
    requires ValidStore(st) && InBounds(t) && Underway(t) && t.next < m < |t.upserts|
    requires t.Reconciling? ==> !UpdateRow(st, t.winner, t.upserts[t.next].model).1.Conflict?
    ensures var next := TaskStep(st, yaml, t).1;
      && Underway(next) && next.service == t.service && next.upserts == t.upserts
      && (if next.Applying? then next.next <= m else next.next < m)
      && Distance(next, m) < Distance(t, m)
  {
  }

  lemma {:induction false} AdvanceBreaks(w: World, yaml: seq<Route>, p: nat, m: nat, id: nat, mark: Mark)
    requires SafeWorld(w, yaml) && p in w.tasks && id in w.store.rows && Marked(w.store.rows[id], mark)
    requires var t := w.tasks[p];
      && Underway(t) && t.next < m < |t.upserts| && Hits(w.store, t.service, t.upserts[m], id, mark)
      && (t.Reconciling? ==> !UpdateRow(w.store, t.winner, t.upserts[t.next].model).1.Conflict?)
    ensures Breakable(w, yaml, id, mark)
    decreases Distance(w.tasks[p], m), 0
  {
    var t := w.tasks[p];
    var next := Next(w, yaml, Advance(p));
    StepSafe(w, yaml, Advance(p));
    if Lost(next.store, id, mark) {
      BreakNow(next, yaml, id, mark);
    } else {
      StageDone(w.store, yaml, t, m);
      HitStays(w.store, next.store, t.service, t.upserts[m], id, mark);
      PlanBreaks(next, yaml, p, m, id, mark);
    }
    BreakNext(w, yaml, Advance(p), id, mark);
  }

  /** A second conflict would end the task: delete the row in its way, or the winner it is about. */
  lemma {:induction false} StuckBreaks(w: World, yaml: seq<Route>, p: nat, m: nat, id: nat, mark: Mark)
    requires SafeWorld(w, yaml) && p in w.tasks && id in w.store.rows && Marked(w.store.rows[id], mark)
    requires var t := w.tasks[p];
      && t.Reconciling? && t.next < m < |t.upserts| && Hits(w.store, t.service, t.upserts[m], id, mark)
      && UpdateRow(w.store, t.winner, t.upserts[t.next].model).1.Conflict?
    ensures Breakable(w, yaml, id, mark)
    decreases Distance(w.tasks[p], m), 1
  {
    var t := w.tasks[p];
    var u, hit := t.upserts[t.next], t.upserts[m];
    PlanSafe(w.store, yaml, t);
    assert u in t.upserts && hit in t.upserts;
    if t.winner == id && !Keeps(u.model, mark) {
      DirectWriteBreaks(w, yaml, p, id, mark);
    } else {
      var h := InTheWay(w.store, t.winner, u.model, u.routeKey);
      var victim := if hit.existingId == Some(t.winner) || t.winner == id then h else t.winner;
      VictimFits(w.store, t, m, h, id, mark);
      var e := AdminDelete(victim);
      StepSafe(w, yaml, e);
      var next := Next(w, yaml, e);
      HitStays(w.store, next.store, t.service, hit, id, mark);
      ClearedWay(w.store, t.winner, u.model, u.routeKey, h, victim);
      AdvanceBreaks(next, yaml, p, m, id, mark);
      BreakNext(w, yaml, e, id, mark);
    }
  }

  lemma InTheWay(st: Store, winner: nat, patch: Row, key: string) returns (h: nat)
    requires ValidStore(st) && patch.routeKey == Some(key) && UpdateRow(st, winner, patch).1.Conflict?
    ensures HeldBy(st, key, h) && h != winner && winner in st.rows
  {
    h :| h in st.rows && h != winner && st.rows[h].routeKey == Some(key);
  }

  lemma ClearedWay(st: Store, winner: nat, patch: Row, key: string, h: nat, victim: nat)
    requires ValidStore(st) && patch.routeKey == Some(key) && HeldBy(st, key, h) && h != winner
    requires victim == h || victim == winner
    ensures !UpdateRow(RemoveRow(st, victim), winner, patch).1.Conflict?
  {
    var after := RemoveRow(st, victim);
    assert forall g :: HeldBy(after, key, g) ==> HeldBy(st, key, g);
    if victim == h { NoConflict(after, winner, patch, key); }
  }

  /** Neither the row nor the row its race needs has to be deleted for it. */
  lemma VictimFits(st: Store, t: Task, m: nat, h: nat, id: nat, mark: Mark)
    requires ValidStore(st) && id in st.rows && Marked(st.rows[id], mark) && t.Reconciling? && t.next < m < |t.upserts|
    requires t.upserts[t.next].routeKey != t.upserts[m].routeKey
    requires t.upserts[t.next].model.routeKey == Some(t.upserts[t.next].routeKey)
    requires Hits(st, t.service, t.upserts[m], id, mark) && HeldBy(st, t.upserts[t.next].routeKey, h) && h != t.winner
    requires t.winner == id ==> Keeps(t.upserts[t.next].model, mark)
    ensures var hit := t.upserts[m];
      var victim := if hit.existingId == Some(t.winner) || t.winner == id then h else t.winner;
      victim != id && (YieldsTo(st, t.service, hit, id) && hit.existingId != Some(id) ==> hit.existingId != Some(victim))
  {
  }

  /** Nobody but the service holds the key. */
  ghost predicate OwnKey(st: Store, service: string, key: string) {
    forall h :: HeldBy(st, key, h) ==> OwnerName(st.rows[h]) == service
  }

  /** A read that still leads to an upsert that hits: nobody is in its way, so it becomes the plan. */
  lemma {:induction false} ReadBecomesPlan(w: World, yaml: seq<Route>, p: nat, u: Upsert, id: nat, mark: Mark)
    requires SafeWorld(w, yaml) && p in w.tasks && id in w.store.rows && Marked(w.store.rows[id], mark)
    requires var t := w.tasks[p];
      && t.Reserving? && Planned(t.service, t.routes, t.existing, t.reserved, u)
      && Hits(w.store, t.service, u, id, mark) && OwnKey(w.store, t.service, u.routeKey)
    ensures Breakable(w, yaml, id, mark)
    decreases |w.tasks[p].routes| - w.tasks[p].next
  {
    var t := w.tasks[p];
    StepSafe(w, yaml, Advance(p));
    var next := Next(w, yaml, Advance(p));
    if t.next < |t.routes| {
      StillPlanned(w.store, t.service, t.routes, t.existing, t.reserved, RouteKeyOf(t.routes[t.next]), u);
      ReadBecomesPlan(next, yaml, p, u, id, mark);
    } else {
      PlannedIff(t.service, t.routes, t.existing, t.reserved, u);
      var upserts := DiffOf(t.service, t.routes, t.existing, t.reserved).upserts;
      var m: nat :| m < |upserts| && upserts[m] == u;
      PlanBreaks(next, yaml, p, m, id, mark);
    }
    BreakNext(w, yaml, Advance(p), id, mark);
  }

  lemma StillPlanned(st: Store, service: string, routes: seq<Route>, existing: seq<Doc>, reserved: map<string, string>,
                     key: string, u: Upsert)
    requires Planned(service, routes, existing, reserved, u) && OwnKey(st, service, u.routeKey)
    ensures Planned(service, routes, existing, ReserveOne(st, service, key, reserved), u)
  {
    var other := FindOwned(FindByRouteKey(st, key), service, false);
    if other.Some? { assert HeldBy(st, key, other.value.id); }
    assert At(ReserveOne(st, service, key, reserved), u.routeKey) == At(reserved, u.routeKey);
  }

  lemma ReadBreaks(w: World, yaml: seq<Route>, p: nat, u: Upsert, id: nat, mark: Mark)
    requires SafeWorld(w, yaml) && p in w.tasks && id in w.store.rows && Marked(w.store.rows[id], mark)
    requires var t := w.tasks[p];
      && t.Reserving? && u in PlanOf(t) && Hits(w.store, t.service, u, id, mark)
    ensures Breakable(w, yaml, id, mark)
  {
    var t := w.tasks[p];
    PlannedIff(t.service, t.routes, t.existing, t.reserved, u);
    if OwnKey(w.store, t.service, u.routeKey) {
      ReadBecomesPlan(w, yaml, p, u, id, mark);
    } else {
      var h :| HeldBy(w.store, u.routeKey, h) && OwnerName(w.store.rows[h]) != t.service;
      var e := AdminDelete(h);
      var next := Next(w, yaml, e);
      PlanSafe(w.store, yaml, t);
      StepSafe(w, yaml, e);
      assert h != id && u.existingId != Some(h);
      assert forall g :: HeldBy(next.store, u.routeKey, g) ==> HeldBy(w.store, u.routeKey, g);
      HitStays(w.store, next.store, t.service, u, id, mark);
      ReadBecomesPlan(next, yaml, p, u, id, mark);
      BreakNext(w, yaml, e, id, mark);
    }
  }

  lemma ThreatBreaks(w: World, yaml: seq<Route>, p: nat, id: nat, mark: Mark)
    requires SafeWorld(w, yaml) && p in w.tasks && id in w.store.rows && Marked(w.store.rows[id], mark)
    requires Threatens(w.store, w.tasks[p], id, mark)
    ensures Breakable(w, yaml, id, mark)
  {
    var t := w.tasks[p];
    if t.Racing? && !Keeps(t.upserts[t.next].model, mark) && YieldsTo(w.store, t.service, t.upserts[t.next], id) {
      RacingBreaks(w, yaml, p, id, mark);
    } else if t.Reconciling? && !Keeps(t.upserts[t.next].model, mark) && t.winner == id {
      DirectWriteBreaks(w, yaml, p, id, mark);
    } else {
      var upserts, n := PlanOf(t), if t.Reserving? then 0 else if t.Applying? then t.next else t.next + 1;
      var m :| n <= m < |upserts| && Hits(w.store, t.service, upserts[m], id, mark);
      if t.Reserving? { ReadBreaks(w, yaml, p, upserts[m], id, mark); } else { PlanBreaks(w, yaml, p, m, id, mark); }
    }
  }

  // ---- Results ------------------------------------------------------------------------------------

  /** A mark on a row survives every continuation, whatever syncs arrive and administrators do except
      edit against it, exactly when no task in flight threatens it now. */
  lemma MarkSurvivesIff(w: World, yaml: seq<Route>, id: nat, mark: Mark)
    requires SafeWorld(w, yaml) && id in w.store.rows && Marked(w.store.rows[id], mark)
    ensures !Breakable(w, yaml, id, mark) <==> forall p :: p in w.tasks ==> !Threatens(w.store, w.tasks[p], id, mark)
  {
    if !Breakable(w, yaml, id, mark) {
      forall p | p in w.tasks ensures !Threatens(w.store, w.tasks[p], id, mark) {
        if Threatens(w.store, w.tasks[p], id, mark) { ThreatBreaks(w, yaml, p, id, mark); }
      }
    }
    if forall p :: p in w.tasks ==> !Threatens(w.store, w.tasks[p], id, mark) {
      forall run ensures !Loses(w, yaml, run, id, mark) {
        if Loses(w, yaml, run, id, mark) { RunUnthreatened(w, yaml, run, id, mark); }
      }
    }
  }

  /** In particular at every point any run reaches from a store with nothing in flight. */
  lemma MarkSurvivesInRuns(st: Store, yaml: seq<Route>, run: seq<Event>, id: nat, mark: Mark)
    requires ValidStore(st) && AdmissibleRun(World(st, map[]), yaml, run)
    requires var w := Run(World(st, map[]), yaml, run); id in w.store.rows && Marked(w.store.rows[id], mark)
    ensures var w := Run(World(st, map[]), yaml, run);
      !Breakable(w, yaml, id, mark) <==> forall p :: p in w.tasks ==> !Threatens(w.store, w.tasks[p], id, mark)
  {
    RunSafe(World(st, map[]), yaml, run);
    MarkSurvivesIff(Run(World(st, map[]), yaml, run), yaml, id, mark);
  }

  /** The calls that unlock a row, and no others: an upsert planned for it that goes through, and the
      reconciliation of a lost race it won. */
  lemma StepUnlocksIff(st: Store, yaml: seq<Route>, t: Task, id: nat)
    requires ValidStore(st) && SafeTask(st, yaml, t) && id in st.rows && IsLocked(st.rows[id])
    ensures var after := TaskStep(st, yaml, t).0;
      id in after.rows && (!IsLocked(after.rows[id]) <==>
        || (t.Applying? && t.next < |t.upserts| && t.upserts[t.next].existingId == Some(id)
            && UpdateRow(st, id, t.upserts[t.next].model).1.Written?)
        || (t.Reconciling? && t.winner == id && UpdateRow(st, id, t.upserts[t.next].model).1.Written?))
  {
    PlanSafe(st, yaml, t);
    if Underway(t) && t.next < |t.upserts| { assert t.upserts[t.next] in t.upserts; }
  }
}
