/** Route synchronisation under interference: any number of manifests in flight on any number of
    gateway instances, each performing one store call at a time, interleaved with administrators who
    create, edit and delete rows and with store failures. */
module RouteProtocol {
  import opened Options
  import opened RouteManifest
  import opened RouteStore
  import opened RouteDiff
  import opened RouteSync

  /** Where one `handle` stands, with the values it has read so far. */
  datatype Task =
    | Reading(service: string, routes: seq<Route>)
    | Reserving(service: string, routes: seq<Route>, existing: seq<Doc>, reserved: map<string, string>, next: nat)
    | Applying(service: string, upserts: seq<Upsert>, next: nat, disables: seq<Disable>, changed: bool)
    | Racing(service: string, upserts: seq<Upsert>, next: nat, disables: seq<Disable>, changed: bool)
    | Reconciling(service: string, upserts: seq<Upsert>, next: nat, disables: seq<Disable>, changed: bool, winner: nat)
    | Disabling(service: string, disables: seq<Disable>, next: nat, changed: bool)
    | Finished(service: string, reloaded: bool)

  predicate InBounds(t: Task) {
    match t
    case Reserving(_, routes, _, _, next) => next <= |routes|
    case Applying(_, upserts, next, _, _) => next <= |upserts|
    case Racing(_, upserts, next, _, _) => next < |upserts|
    case Reconciling(_, upserts, next, _, _, _) => next < |upserts|
    case Disabling(_, disables, next, _) => next <= |disables|
    case _ => true
  }

  /** The next store call of a task, and what the task does with its answer. */
  function TaskStep(st: Store, yaml: seq<Route>, t: Task): (r: (Store, Task))
    requires ValidStore(st) && InBounds(t)
    ensures ValidStore(r.0) && InBounds(r.1) && r.1.service == t.service
  {
    match t
    case Reading(service, routes) =>
      if service == "" then (st, Finished(service, false))
      else (st, Reserving(service, routes, FindByOwner(st, service), YamlKeys(yaml), 0))
    case Reserving(service, routes, existing, reserved, next) =>
      if next < |routes| then
        (st, Reserving(service, routes, existing, ReserveOne(st, service, RouteKeyOf(routes[next]), reserved), next + 1))
      else
        var diff := DiffOf(service, routes, existing, reserved);
        (st, Applying(service, diff.upserts, 0, diff.disables, diff.changed))
    case Applying(service, upserts, next, disables, changed) =>
      if next < |upserts| then
        var u := upserts[next];
        var (after, outcome) :=
          if u.existingId.Some? then UpdateRow(st, u.existingId.value, u.model) else InsertRow(st, u.model);
        if outcome.Conflict? then (after, Racing(service, upserts, next, disables, changed))
        else (after, Applying(service, upserts, next + 1, disables, changed))
      else (st, Disabling(service, disables, 0, changed))
    case Racing(service, upserts, next, disables, changed) =>
      var mine := FindOwned(FindByRouteKey(st, upserts[next].routeKey), service, true);
      if mine.Some? then (st, Reconciling(service, upserts, next, disables, changed, mine.value.id))
      else (st, Applying(service, upserts, next + 1, disables, changed))
    case Reconciling(service, upserts, next, disables, changed, winner) =>
      var (after, outcome) := UpdateRow(st, winner, upserts[next].model);
      // A second conflict is not caught: it ends the run in the outer handler.
      if outcome.Conflict? then (after, Finished(service, false))
      else (after, Applying(service, upserts, next + 1, disables, changed))
    case Disabling(service, disables, next, changed) =>
      if next < |disables| then
        var (after, outcome) := UpdateRow(st, disables[next].id, SWITCH_OFF);
        if outcome.Conflict? then (after, Finished(service, false))
        else (after, Disabling(service, disables, next + 1, changed))
      else (st, Finished(service, changed))
    case Finished(_, _) => (st, t)
  }

  /** The reconciliation can lose as well: when a third row has come to hold the key meanwhile, the run
      ends there, with nothing written, nothing further applied and no reload. */
  lemma SecondConflictEnds(st: Store, yaml: seq<Route>, t: Task)
    requires ValidStore(st) && InBounds(t) && t.Reconciling?
    requires t.upserts[t.next].model.routeKey == Some(t.upserts[t.next].routeKey)
    ensures var key, (after, next) := t.upserts[t.next].routeKey, TaskStep(st, yaml, t);
      if t.winner in st.rows && exists id :: id in st.rows && id != t.winner && st.rows[id].routeKey == Some(key)
      then after == st && next == Finished(t.service, false)
      else && next == Applying(t.service, t.upserts, t.next + 1, t.disables, t.changed)
           && (t.winner !in st.rows ==> after == st)
           && (t.winner in st.rows ==>
                && t.winner in after.rows && after.rows[t.winner].routeKey == Some(key)
                && after == st.(rows := st.rows[t.winner := after.rows[t.winner]]))
  {
    var key := Some(t.upserts[t.next].routeKey);
    if t.winner in st.rows {
      assert Merge(st.rows[t.winner], t.upserts[t.next].model).routeKey == key;
      if id :| id in st.rows && id != t.winner && st.rows[id].routeKey == key { assert Taken(st, key, Some(t.winner)); }
    }
  }

  // ---- Runs -------------------------------------------------------------------------------------

  datatype World = World(store: Store, tasks: map<nat, Task>)

  datatype Event =
    | Deliver(task: nat, service: string, routes: seq<Route>)
    | Advance(task: nat)
    | Fail(task: nat)                     // a store call throws something other than a conflict
    | AdminCreate(row: Row)
    | AdminEdit(id: nat, patch: Row)
    | AdminDelete(id: nat)

  ghost predicate ValidWorld(w: World) {
    ValidStore(w.store) && forall p :: p in w.tasks ==> InBounds(w.tasks[p])
  }

  /** Services with ordinary names or none, and administrators who leave owners alone. */
  predicate Admissible(w: World, e: Event) {
    match e
    case Deliver(p, service, _) => p !in w.tasks && (service == "" || OrdinaryService(service))
    case Advance(p) => p in w.tasks
    case Fail(p) => p in w.tasks
    case AdminEdit(id, patch) => patch.owner.None? || (id in w.store.rows && patch.owner == w.store.rows[id].owner)
    case _ => true
  }

  function Next(w: World, yaml: seq<Route>, e: Event): (r: World)
    requires ValidWorld(w) && Admissible(w, e)
    ensures ValidWorld(r)
  {
    match e
    case Deliver(p, service, routes) => w.(tasks := w.tasks[p := Reading(service, routes)])
    case Advance(p) =>
      var (store, task) := TaskStep(w.store, yaml, w.tasks[p]);
      World(store, w.tasks[p := task])
    case Fail(p) => w.(tasks := w.tasks[p := Finished(w.tasks[p].service, false)])
    case AdminCreate(row) => w.(store := InsertRow(w.store, row).0)
    case AdminEdit(id, patch) => w.(store := UpdateRow(w.store, id, patch).0)
    case AdminDelete(id) => w.(store := RemoveRow(w.store, id))
  }

  ghost predicate AdmissibleRun(w: World, yaml: seq<Route>, run: seq<Event>)
    requires ValidWorld(w)
    decreases |run|
  {
    run == [] || (Admissible(w, run[0]) && AdmissibleRun(Next(w, yaml, run[0]), yaml, run[1..]))
  }

  ghost function Run(w: World, yaml: seq<Route>, run: seq<Event>): (r: World)
    requires ValidWorld(w) && AdmissibleRun(w, yaml, run)
    ensures ValidWorld(r)
    decreases |run|
  {
    if run == [] then w else Run(Next(w, yaml, run[0]), yaml, run[1..])
  }

  // ---- What every task may rely on ----------------------------------------------------------------

  /** The id is `service`'s for as long as it exists, whoever edits the store. */
  predicate Ours(st: Store, service: string, id: nat) {
    id < st.nextId && (id in st.rows ==> st.rows[id].owner == Some(service))
  }

  ghost predicate SafeUpsert(st: Store, yaml: seq<Route>, service: string, u: Upsert) {
    && u.routeKey !in YamlKeys(yaml)
    && u.model.routeKey == Some(u.routeKey) && u.model.owner == Some(service) && u.model.modified == Some(false)
    && (u.existingId.Some? ==> Ours(st, service, u.existingId.value))
  }

  ghost predicate SafePlan(st: Store, yaml: seq<Route>, service: string, upserts: seq<Upsert>, disables: seq<Disable>) {
    && (forall u :: u in upserts ==> SafeUpsert(st, yaml, service, u))
    && (forall d :: d in disables ==> Ours(st, service, d.id))
    && (forall i, j :: 0 <= i < j < |upserts| ==> upserts[i].routeKey != upserts[j].routeKey)
  }

  ghost predicate SafeTask(st: Store, yaml: seq<Route>, t: Task) {
    && InBounds(t) && (OrdinaryService(t.service) || (t.service == "" && (t.Reading? || t.Finished?)))
    && match t
       case Reserving(service, _, existing, reserved, _) =>
         && (forall d :: d in existing ==> Ours(st, service, d.id))
         && (forall k :: k in YamlKeys(yaml) ==> k in reserved && reserved[k] == "yaml")
       case Applying(service, upserts, _, disables, _) => SafePlan(st, yaml, service, upserts, disables)
       case Racing(service, upserts, _, disables, _) => SafePlan(st, yaml, service, upserts, disables)
       case Reconciling(service, upserts, _, disables, _, winner) =>
         SafePlan(st, yaml, service, upserts, disables) && Ours(st, service, winner)
       case Disabling(service, disables, _, _) => SafePlan(st, yaml, service, [], disables)
       case _ => true
  }

  ghost predicate SafeWorld(w: World, yaml: seq<Route>) {
    ValidStore(w.store) && forall p :: p in w.tasks ==> SafeTask(w.store, yaml, w.tasks[p])
  }

  /** No row changed owner and no id came back to life. */
  ghost predicate OwnersKept(before: Store, after: Store) {
    && before.nextId <= after.nextId
    && forall id :: id in after.rows && id < before.nextId ==>
         id in before.rows && after.rows[id].owner == before.rows[id].owner
  }

  /** Everything a sync of `service` may do to the store in one call: rewrite its own rows, or add one
      of its own; never remove; and never add or enable a row under a key the YAML configuration holds. */
  ghost predicate SyncWriteSafe(before: Store, yaml: seq<Route>, service: string, after: Store) {
    && (forall id :: id in before.rows ==> id in after.rows)
    && (forall id :: id in before.rows && after.rows[id] != before.rows[id] ==>
          before.rows[id].owner == after.rows[id].owner == Some(service))
    && (forall id :: id in after.rows && id !in before.rows ==> after.rows[id].owner == Some(service))
    && (forall id :: id in after.rows && IsEnabled(after.rows[id])
                     && (id !in before.rows || !IsEnabled(before.rows[id])) ==>
          after.rows[id].routeKey.Some? && after.rows[id].routeKey.value !in YamlKeys(yaml))
    && (forall id :: id in after.rows && id !in before.rows ==>
          after.rows[id].routeKey.Some? && after.rows[id].routeKey.value !in YamlKeys(yaml))
  }

  // ---- Every step is safe -------------------------------------------------------------------------

  lemma SafeTaskKept(before: Store, after: Store, yaml: seq<Route>, t: Task)
    requires SafeTask(before, yaml, t) && OwnersKept(before, after)
    ensures SafeTask(after, yaml, t)
  {
    forall id, service | Ours(before, service, id) ensures Ours(after, service, id) {
    }
  }

  /** The plan computed from safe reads only touches the service's own rows and unreserved keys. */
  lemma DiffPlanSafe(st: Store, yaml: seq<Route>, service: string, routes: seq<Route>, existing: seq<Doc>,
                     reserved: map<string, string>)
    requires OrdinaryService(service)
    requires forall d :: d in existing ==> Ours(st, service, d.id)
    requires forall k :: k in YamlKeys(yaml) ==> k in reserved && reserved[k] == "yaml"
    ensures var diff := DiffOf(service, routes, existing, reserved);
      SafePlan(st, yaml, service, diff.upserts, diff.disables)
  {
    var index := Index(existing);
    IndexKeys(existing);
    DiffDecidesEachKey(service, routes, index, reserved);
    StaleRowsExact(KeyOrder(existing), index, ValidKeys(routes));
    var upserts := IncomingDiff(service, routes, index, reserved).upserts;
    forall u | u in upserts ensures SafeUpsert(st, yaml, service, u) {
      assert VerdictOn(service, routes, index, reserved, u.routeKey) == Write(u);
    }
  }

  lemma WriteOurs(st: Store, yaml: seq<Route>, service: string, id: nat, patch: Row)
    requires ValidStore(st) && Ours(st, service, id)
    requires patch.owner == Some(service) || patch.owner.None?
    requires patch == SWITCH_OFF || (patch.routeKey.Some? && patch.routeKey.value !in YamlKeys(yaml))
    ensures var after := UpdateRow(st, id, patch).0; OwnersKept(st, after) && SyncWriteSafe(st, yaml, service, after)
  {
  }

  lemma UpsertSafe(st: Store, yaml: seq<Route>, service: string, u: Upsert)
    requires ValidStore(st) && SafeUpsert(st, yaml, service, u)
    ensures var after := (if u.existingId.Some? then UpdateRow(st, u.existingId.value, u.model) else InsertRow(st, u.model)).0;
      OwnersKept(st, after) && SyncWriteSafe(st, yaml, service, after)
  {
    if u.existingId.Some? {
      WriteOurs(st, yaml, service, u.existingId.value, u.model);
    } else {
    }
  }

  lemma ApplyStepSafe(st: Store, yaml: seq<Route>, t: Task)
    requires ValidStore(st) && SafeTask(st, yaml, t) && t.Applying?
    ensures var (after, next) := TaskStep(st, yaml, t);
      SafeTask(after, yaml, next) && OwnersKept(st, after) && SyncWriteSafe(st, yaml, t.service, after)
  {
    if t.next < |t.upserts| {
      UpsertSafe(st, yaml, t.service, t.upserts[t.next]);
      SafeTaskKept(st, TaskStep(st, yaml, t).0, yaml, t);
    }
  }

  lemma RaceStepSafe(st: Store, yaml: seq<Route>, t: Task)
    requires ValidStore(st) && SafeTask(st, yaml, t) && t.Racing?
    ensures var (after, next) := TaskStep(st, yaml, t);
      SafeTask(after, yaml, next) && OwnersKept(st, after) && SyncWriteSafe(st, yaml, t.service, after)
  {
  }

  lemma TaskStepSafe(st: Store, yaml: seq<Route>, t: Task)
    requires ValidStore(st) && SafeTask(st, yaml, t)
    ensures var (after, next) := TaskStep(st, yaml, t);
      SafeTask(after, yaml, next) && OwnersKept(st, after) && SyncWriteSafe(st, yaml, t.service, after)
  {
    match t
    case Reserving(service, routes, existing, reserved, n) =>
      if n == |routes| { DiffPlanSafe(st, yaml, service, routes, existing, reserved); }
    case Applying(_, _, _, _, _) => ApplyStepSafe(st, yaml, t);
    case Racing(_, _, _, _, _) => RaceStepSafe(st, yaml, t);
    case Reconciling(_, _, _, _, _, _) => ReconcileStepSafe(st, yaml, t);
    case Disabling(_, disables, n, _) => if n < |disables| { DisableStepSafe(st, yaml, t); }
    case _ =>
  }

  lemma ReconcileStepSafe(st: Store, yaml: seq<Route>, t: Task)
    requires ValidStore(st) && SafeTask(st, yaml, t) && t.Reconciling?
    ensures var (after, next) := TaskStep(st, yaml, t);
      SafeTask(after, yaml, next) && OwnersKept(st, after) && SyncWriteSafe(st, yaml, t.service, after)
  {
    assert SafeUpsert(st, yaml, t.service, t.upserts[t.next]);
    WriteOurs(st, yaml, t.service, t.winner, t.upserts[t.next].model);
    SafeTaskKept(st, TaskStep(st, yaml, t).0, yaml, t);
  }

  lemma DisableStepSafe(st: Store, yaml: seq<Route>, t: Task)
    requires ValidStore(st) && SafeTask(st, yaml, t) && t.Disabling? && t.next < |t.disables|
    ensures var (after, next) := TaskStep(st, yaml, t);
      SafeTask(after, yaml, next) && OwnersKept(st, after) && SyncWriteSafe(st, yaml, t.service, after)
  {
    WriteOurs(st, yaml, t.service, t.disables[t.next].id, SWITCH_OFF);
    SafeTaskKept(st, TaskStep(st, yaml, t).0, yaml, t);
  }

  lemma StepSafe(w: World, yaml: seq<Route>, e: Event)
    requires SafeWorld(w, yaml) && Admissible(w, e)
    ensures SafeWorld(Next(w, yaml, e), yaml) && OwnersKept(w.store, Next(w, yaml, e).store)
    ensures e.Advance? ==> SyncWriteSafe(w.store, yaml, w.tasks[e.task].service, Next(w, yaml, e).store)
  {
    var after := Next(w, yaml, e);
    if e.Advance? { TaskStepSafe(w.store, yaml, w.tasks[e.task]); }
    assert OwnersKept(w.store, after.store);
    forall p | p in after.tasks ensures SafeTask(after.store, yaml, after.tasks[p]) {
      if p in w.tasks { SafeTaskKept(w.store, after.store, yaml, w.tasks[p]); }
    }
  }

  lemma {:induction false} RunSafe(w: World, yaml: seq<Route>, run: seq<Event>)
    requires SafeWorld(w, yaml) && AdmissibleRun(w, yaml, run)
    ensures SafeWorld(Run(w, yaml, run), yaml) && OwnersKept(w.store, Run(w, yaml, run).store)
    decreases |run|
  {
    if run != [] {
      StepSafe(w, yaml, run[0]);
      RunSafe(Next(w, yaml, run[0]), yaml, run[1..]);
    }
  }

  /** Ownership safety: from any valid store with nothing in flight, whatever manifests, store failures
      and administrator edits are interleaved, no row ever changes owner, and whichever task moves next
      writes only its own service's rows and nothing under a YAML key, the lost-race path included. */
  lemma OwnershipSafety(st: Store, yaml: seq<Route>, run: seq<Event>, p: nat)
    requires ValidStore(st) && AdmissibleRun(World(st, map[]), yaml, run)
    ensures var w := Run(World(st, map[]), yaml, run);
      && OwnersKept(st, w.store)
      && (p in w.tasks ==> SyncWriteSafe(w.store, yaml, w.tasks[p].service, Next(w, yaml, Advance(p)).store))
  {
    RunSafe(World(st, map[]), yaml, run);
    var w := Run(World(st, map[]), yaml, run);
    if p in w.tasks { StepSafe(w, yaml, Advance(p)); }
  }

  // ---- Without interference, the steps are the whole run --------------------------------------------

  /** `n` consecutive steps of one task with nobody else moving. */
  function Solo(st: Store, yaml: seq<Route>, t: Task, n: nat): (r: (Store, Task))
    requires ValidStore(st) && InBounds(t)
    ensures ValidStore(r.0) && InBounds(r.1)
    decreases n
  {
    if n == 0 then (st, t)
    else var (after, next) := TaskStep(st, yaml, t); Solo(after, yaml, next, n - 1)
  }

  ghost predicate Ends(st: Store, yaml: seq<Route>, t: Task, result: (Store, bool))
    requires ValidStore(st) && InBounds(t)
  {
    exists n: nat :: Solo(st, yaml, t, n) == (result.0, Finished(t.service, result.1))
  }

  lemma OneMore(st: Store, yaml: seq<Route>, t: Task, result: (Store, bool))
    requires ValidStore(st) && InBounds(t)
    requires var (after, next) := TaskStep(st, yaml, t); Ends(after, yaml, next, result)
    ensures Ends(st, yaml, t, result)
  {
    var (after, next) := TaskStep(st, yaml, t);
    var n: nat :| Solo(after, yaml, next, n) == (result.0, Finished(next.service, result.1));
    assert Solo(st, yaml, t, n + 1) == (result.0, Finished(t.service, result.1));
  }

  lemma {:induction false} SoloDisabling(st: Store, yaml: seq<Route>, service: string, disables: seq<Disable>, n: nat,
                                         changed: bool)
    requires ValidStore(st) && n <= |disables|
    ensures Ends(ApplyDisables(st, disables[..n]), yaml, Disabling(service, disables, n, changed),
                 (ApplyDisables(st, disables), changed))
    decreases |disables| - n
  {
    var here := ApplyDisables(st, disables[..n]);
    var t := Disabling(service, disables, n, changed);
    if n == |disables| {
      assert disables[..n] == disables;
      assert Solo(here, yaml, Finished(service, changed), 0) == (here, Finished(service, changed));
      assert Ends(here, yaml, Finished(service, changed), (here, changed));
    } else {
      assert disables[..n + 1][..n] == disables[..n];
      SoloDisabling(st, yaml, service, disables, n + 1, changed);
    }
    OneMore(here, yaml, t, (ApplyDisables(st, disables), changed));
  }

  lemma {:induction false} SoloApplying(st: Store, yaml: seq<Route>, service: string, upserts: seq<Upsert>, n: nat,
                                        disables: seq<Disable>, changed: bool)
    requires ValidStore(st) && n <= |upserts|
    requires forall u :: u in upserts ==> u.model.routeKey == Some(u.routeKey)
    ensures Ends(ApplyUpserts(st, service, upserts[..n]), yaml, Applying(service, upserts, n, disables, changed),
                 (ApplyDisables(ApplyUpserts(st, service, upserts), disables), changed))
    decreases |upserts| - n
  {
    var here := ApplyUpserts(st, service, upserts[..n]);
    var t := Applying(service, upserts, n, disables, changed);
    var result := (ApplyDisables(ApplyUpserts(st, service, upserts), disables), changed);
    if n == |upserts| {
      assert upserts[..n] == upserts && disables[..0] == [];
      SoloDisabling(here, yaml, service, disables, 0, changed);
      OneMore(here, yaml, t, result);
    } else {
      assert upserts[..n + 1][..n] == upserts[..n];
      SoloApplying(st, yaml, service, upserts, n + 1, disables, changed);
      SoloUpsert(here, yaml, service, upserts, n, disables, changed, result);
    }
  }

  lemma SoloUpsert(here: Store, yaml: seq<Route>, service: string, upserts: seq<Upsert>, n: nat,
                   disables: seq<Disable>, changed: bool, result: (Store, bool))
    requires ValidStore(here) && n < |upserts| && upserts[n].model.routeKey == Some(upserts[n].routeKey)
    requires Ends(ApplyUpsert(here, service, upserts[n]), yaml, Applying(service, upserts, n + 1, disables, changed), result)
    ensures Ends(here, yaml, Applying(service, upserts, n, disables, changed), result)
  {
    var u := upserts[n];
    var (after, outcome) :=
      if u.existingId.Some? then UpdateRow(here, u.existingId.value, u.model) else InsertRow(here, u.model);
    if outcome.Conflict? {
      SoloRacing(here, yaml, service, upserts, n, disables, changed, result);
    }
    OneMore(here, yaml, Applying(service, upserts, n, disables, changed), result);
  }

  lemma SoloRacing(here: Store, yaml: seq<Route>, service: string, upserts: seq<Upsert>, n: nat,
                   disables: seq<Disable>, changed: bool, result: (Store, bool))
    requires ValidStore(here) && n < |upserts| && upserts[n].model.routeKey == Some(upserts[n].routeKey)
    requires var mine := FindOwned(FindByRouteKey(here, upserts[n].routeKey), service, true);
      Ends(if mine.Some? then UpdateRow(here, mine.value.id, upserts[n].model).0 else here, yaml,
           Applying(service, upserts, n + 1, disables, changed), result)
    ensures Ends(here, yaml, Racing(service, upserts, n, disables, changed), result)
  {
    var mine := FindOwned(FindByRouteKey(here, upserts[n].routeKey), service, true);
    if mine.Some? {
      // The winner holds the key alone, so writing the key again cannot conflict.
      assert !UpdateRow(here, mine.value.id, upserts[n].model).1.Conflict?;
      OneMore(here, yaml, Reconciling(service, upserts, n, disables, changed, mine.value.id), result);
    }
    OneMore(here, yaml, Racing(service, upserts, n, disables, changed), result);
  }

  lemma SoloPlanned(st: Store, yaml: seq<Route>, service: string, routes: seq<Route>)
    requires ValidStore(st) && service != ""
    ensures var diff := DiffAgainst(st, yaml, service, routes);
      Ends(st, yaml, Applying(service, diff.upserts, 0, diff.disables, diff.changed), HandleStore(st, yaml, service, routes))
  {
    var diff := DiffAgainst(st, yaml, service, routes);
    DiffDecidesEachKey(service, routes, Index(FindByOwner(st, service)), ReservedKeys(st, yaml, service, routes));
    assert diff.upserts[..0] == [];
    SoloApplying(st, yaml, service, diff.upserts, 0, diff.disables, diff.changed);
  }

  lemma {:induction false} SoloReserving(st: Store, yaml: seq<Route>, service: string, routes: seq<Route>, n: nat)
    requires ValidStore(st) && service != "" && n <= |routes|
    ensures Ends(st, yaml, Reserving(service, routes, FindByOwner(st, service),
                                     ReservedKeys(st, yaml, service, routes[..n]), n),
                 HandleStore(st, yaml, service, routes))
    decreases |routes| - n
  {
    if n == |routes| {
      assert routes[..n] == routes;
      SoloPlanned(st, yaml, service, routes);
    } else {
      SoloReserving(st, yaml, service, routes, n + 1);
      ReserveStep(st, yaml, service, routes, n);
    }
    OneMore(st, yaml, Reserving(service, routes, FindByOwner(st, service),
                                ReservedKeys(st, yaml, service, routes[..n]), n), HandleStore(st, yaml, service, routes));
  }

  lemma ReserveStep(st: Store, yaml: seq<Route>, service: string, routes: seq<Route>, n: nat)
    requires n < |routes|
    ensures ReservedKeys(st, yaml, service, routes[..n + 1])
         == ReserveOne(st, service, RouteKeyOf(routes[n]), ReservedKeys(st, yaml, service, routes[..n]))
  {
    assert routes[..n + 1][..n] == routes[..n];
  }

  /** Refinement: left alone, the step-by-step task ends, and ends with exactly the store and the reload
      decision of one whole `handle`. */
  lemma SoloRunIsHandle(st: Store, yaml: seq<Route>, service: string, routes: seq<Route>)
    requires ValidStore(st)
    ensures Ends(st, yaml, Reading(service, routes), HandleStore(st, yaml, service, routes))
  {
    if service == "" {
      assert Solo(st, yaml, Finished(service, false), 0) == (st, Finished(service, false));
      assert Ends(st, yaml, Finished(service, false), (st, false));
    } else {
      assert routes[..0] == [];
      SoloReserving(st, yaml, service, routes, 0);
    }
    OneMore(st, yaml, Reading(service, routes), HandleStore(st, yaml, service, routes));
  }

  // ---- Why the two owner names are excluded ---------------------------------------------------------

  /** A manifest of one valid route, nothing of the service stored: the plan is to insert it. */
  lemma OneRoutePlan(service: string, r: Route, reserved: map<string, string>)
    requires IsValidRoute(r) && (RouteKeyOf(r) in reserved ==> reserved[RouteKeyOf(r)] == service)
    ensures var diff := DiffOf(service, [r], [], reserved);
      diff.upserts == [Upsert(RouteKeyOf(r), None, true, ModelFor(service, r, None))] && diff.disables == []
  {
    var key := RouteKeyOf(r);
    assert [r][..0] == [];
    var u := Upsert(key, None, true, ModelFor(service, r, None));
    assert Judge(service, r, None, At(reserved, key)) == Write(u);
    assert IncomingDiff(service, [r], map[], reserved) == EMPTY_DIFF.(upserts := [u]);
  }

  lemma OneUpsert(st: Store, service: string, u: Upsert)
    requires ValidStore(st)
    ensures ApplyUpserts(st, service, [u]) == ApplyUpsert(st, service, u)
  {
    assert [u][..0] == [];
  }

  /** A service named 'manual' takes over a row nobody owns: the lost race finds it as its own. */
  lemma ManualServiceTakesUnownedRow(st: Store, r: Route, id: nat, row: Row)
    requires ValidStore(st) && IsValidRoute(r)
    requires id in st.rows && st.rows[id] == row && row.owner.None? && row.routeKey == Some(RouteKeyOf(r))
    requires forall i :: i in st.rows ==> st.rows[i].owner != Some("manual")
    ensures id in HandleStore(st, [], "manual", [r]).0.rows
    ensures HandleStore(st, [], "manual", [r]).0.rows[id].owner == Some("manual")
  {
    var key := RouteKeyOf(r);
    IndexExact(st, "manual", key);
    ReservedExact(st, [], "manual", [r]);
    assert key in ValidKeys([r]) by { assert [r][0] == r; }
    assert forall i :: i in st.rows && st.rows[i].routeKey == Some(key) ==> i == id;
    assert FindByOwner(st, "manual") == [];
    OneRoutePlan("manual", r, ReservedKeys(st, [], "manual", [r]));
    OneUpsert(st, "manual", Upsert(key, None, true, ModelFor("manual", r, None)));
    assert Taken(st, Some(key), None);
    var mine := FindOwned(FindByRouteKey(st, key), "manual", true);
    assert Doc(id, row) in FindByRouteKey(st, key);
    assert mine.Some? && mine.value.id == id;
    assert !Taken(st, Some(key), Some(id));
  }

  /** A service named 'yaml' passes the reserve check on a YAML key and inserts a row under it. */
  lemma YamlServiceWritesYamlKey(r: Route)
    requires IsValidRoute(r)
    ensures var after := HandleStore(Store(map[], 0), [r], "yaml", [r]).0;
      0 in after.rows && IsEnabled(after.rows[0]) && after.rows[0].routeKey == Some(RouteKeyOf(r))
      && RouteKeyOf(r) in YamlKeys([r])
  {
    var st := Store(map[], 0);
    var key := RouteKeyOf(r);
    assert [r][..0] == [] && [r][0] == r;
    assert FindByOwner(st, "yaml") == [];
    assert YamlKeys([r]) == map[key := "yaml"];
    assert ReservedKeys(st, [r], "yaml", []) == YamlKeys([r]);
    assert ReservedKeys(st, [r], "yaml", [r]) == map[key := "yaml"];
    OneRoutePlan("yaml", r, map[key := "yaml"]);
    OneUpsert(st, "yaml", Upsert(key, None, true, ModelFor("yaml", r, None)));
  }
}
