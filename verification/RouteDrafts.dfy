/** Edits of the admin service in flight beside the syncs: an edit reads its row, checks its key and only
    then writes, so it may overwrite what another edit left in between. What survives all of them, exactly. */
module RouteDrafts {
  import opened Options
  import opened RouteManifest
  import opened RouteStore
  import opened RouteProtocol
  import opened RouteLocks
  import opened RouteInterference
  import opened RouteEdits

  /** An edit that has read its row: `patch` is what it will write, fixed by what it read; `checked` once its
      key passed the conflict check. */
  datatype Draft = Draft(id: nat, body: Row, patch: Row, checked: bool)

  datatype Desk = Desk(world: World, drafts: map<nat, Draft>)

  /** `Base`: everything else that happens in the interleaved system. */
  datatype Act =
    | Base(e: Event)
    | Open(n: nat, id: nat, body: Row, released: seq<FieldName>)
    | Check(n: nat)
    | Save(n: nat)

  function DraftOf(id: nat, seen: Row, body: Row, released: seq<FieldName>): (d: Draft)
    ensures d.patch.owner == body.owner
  {
    Draft(id, body, EditPatch(seen, WithKey(body), released), false)
  }

  ghost predicate ValidDesk(s: Desk) {
    ValidWorld(s.world) && forall n :: n in s.drafts ==> s.drafts[n].patch.owner.None?
  }

  predicate Allowed(s: Desk, a: Act) {
    match a
    case Base(e) => Admissible(s.world, e)
    case Open(_, _, body, _) => body.owner.None?
    case _ => true
  }

  function CheckStep(s: Desk, n: nat): Desk {
    if n !in s.drafts then s
    else
      var d := s.drafts[n];
      if HasIdentity(d.body) && Clashes(s.world.store, RouteKeyOf(d.body.content), Some(d.id))
      then s.(drafts := s.drafts - {n})
      else s.(drafts := s.drafts[n := d.(checked := true)])
  }

  function Step(s: Desk, yaml: seq<Route>, a: Act): (r: Desk)
    requires ValidDesk(s) && Allowed(s, a)
    ensures ValidDesk(r)
  {
    match a
    case Base(e) => s.(world := Next(s.world, yaml, e))
    case Open(n, id, body, released) =>
      if n !in s.drafts && id in s.world.store.rows
      then s.(drafts := s.drafts[n := DraftOf(id, s.world.store.rows[id], body, released)])
      else s
    case Check(n) => CheckStep(s, n)
    case Save(n) =>
      if n in s.drafts && s.drafts[n].checked
      then Desk(Next(s.world, yaml, AdminEdit(s.drafts[n].id, s.drafts[n].patch)), s.drafts - {n})
      else s
  }

  /** The store once the draft is checked and saved with nobody in between. */
  function Finish(st: Store, d: Draft): Store
    requires ValidStore(st)
  {
    if HasIdentity(d.body) && Clashes(st, RouteKeyOf(d.body.content), Some(d.id)) then st
    else UpdateRow(st, d.id, d.patch).0
  }

  lemma CheckThenSave(s: Desk, yaml: seq<Route>, n: nat, d: Draft)
    requires ValidDesk(s) && n !in s.drafts && d.patch.owner.None?
    ensures Step(Step(s.(drafts := s.drafts[n := d]), yaml, Check(n)), yaml, Save(n))
         == s.(world := s.world.(store := Finish(s.world.store, d)))
  {
    assert s.drafts[n := d] - {n} == s.drafts;
    assert s.drafts[n := d][n := d.(checked := true)] - {n} == s.drafts;
  }

  lemma EditStoreFinishes(st: Store, id: nat, body: Row, released: seq<FieldName>)
    requires ValidStore(st) && id in st.rows
    ensures EditStore(st, Some(id), body, released).0 == Finish(st, DraftOf(id, st.rows[id], body, released))
  {
  }

  /** Left alone, the three calls are the whole edit, refused or not. */
  lemma UndisturbedEdit(s: Desk, yaml: seq<Route>, n: nat, id: nat, body: Row, released: seq<FieldName>)
    requires ValidDesk(s) && n !in s.drafts && id in s.world.store.rows && body.owner.None?
    ensures Step(Step(Step(s, yaml, Open(n, id, body, released)), yaml, Check(n)), yaml, Save(n))
         == s.(world := s.world.(store := EditStore(s.world.store, Some(id), body, released).0))
  {
    CheckThenSave(s, yaml, n, DraftOf(id, s.world.store.rows[id], body, released));
    EditStoreFinishes(s.world.store, id, body, released);
  }

  // ---- Continuations ------------------------------------------------------------------------------

  /** Edits begun from now on do not go against the mark on the row they read. */
  predicate Minds(s: Desk, a: Act, id: nat, mark: Mark) {
    match a
    case Base(e) => Respects(e, id, mark)
    case Open(_, i, body, released) =>
      i == id && id in s.world.store.rows ==> Keeps(DraftOf(id, s.world.store.rows[id], body, released).patch, mark)
    case _ => true
  }

  /** An edit of the marked row minds the mark as soon as it neither renames the route nor names the field. */
  lemma LeavesAloneMinds(s: Desk, n: nat, id: nat, body: Row, released: seq<FieldName>, mark: Mark)
    requires id in s.world.store.rows && Marked(s.world.store.rows[id], mark) && LeavesAlone(body, released, mark)
    ensures Minds(s, Open(n, id, body, released), id, mark)
  {
    EditRespectsMark(s.world.store.rows[id], body, released, mark);
  }

  /** A run of such steps ends with the row there and the mark gone. */
  ghost predicate DeskLoses(s: Desk, yaml: seq<Route>, run: seq<Act>, id: nat, mark: Mark)
    requires ValidDesk(s)
    decreases |run|
  {
    if run == [] then Lost(s.world.store, id, mark)
    else Allowed(s, run[0]) && Minds(s, run[0], id, mark) && DeskLoses(Step(s, yaml, run[0]), yaml, run[1..], id, mark)
  }

  ghost predicate DeskBreakable(s: Desk, yaml: seq<Route>, id: nat, mark: Mark)
    requires ValidDesk(s)
  {
    exists run :: DeskLoses(s, yaml, run, id, mark)
  }

  /** The draft is for the row and will write it without the mark. */
  predicate Overwrites(d: Draft, id: nat, mark: Mark) { d.id == id && !Keeps(d.patch, mark) }

  ghost predicate SafeDesk(s: Desk, yaml: seq<Route>) { ValidDesk(s) && SafeWorld(s.world, yaml) }

  // ---- When a draft overwrites --------------------------------------------------------------------

  /** Read off what the edit saw and asks for: it overwrites a lock unless the row was locked when it read
      it or it changes a hard field itself; and an override unless that was one when it read it, or it is a
      soft change of its own, with the same value, and is not released. */
  lemma OverwritesIff(id: nat, seen: Row, body: Row, released: seq<FieldName>, mark: Mark)
    ensures Overwrites(DraftOf(id, seen, body, released), id, mark) <==> !AsksFor(seen, WithKey(body), released, mark)
  {
    PatchKeepsIff(seen, WithKey(body), released, mark);
  }

  lemma PatchKeepsIff(seen: Row, body: Row, released: seq<FieldName>, mark: Mark)
    ensures Keeps(EditPatch(seen, body, released), mark) <==> AsksFor(seen, body, released, mark)
  {
    match mark
    case Lock(_) => LockPatch(seen, body, released, mark);
    case Kept(_, _, _) => KeptPatch(seen, body, released, mark);
  }

  lemma LockPatch(seen: Row, body: Row, released: seq<FieldName>, mark: Mark)
    requires mark.Lock?
    ensures Keeps(EditPatch(seen, body, released), mark) <==> AsksFor(seen, body, released, mark)
  {
  }

  lemma KeptPatch(seen: Row, body: Row, released: seq<FieldName>, mark: Mark)
    requires mark.Kept?
    ensures Keeps(EditPatch(seen, body, released), mark) <==> AsksFor(seen, body, released, mark)
  {
    EditedOverride(seen, body, released, Content(mark.f));
  }

  /** The edit leaves the key alone, and asks for the mark or found it there. */
  predicate AsksFor(seen: Row, body: Row, released: seq<FieldName>, mark: Mark) {
    && (body.routeKey.Some? ==> body.routeKey == mark.key)
    && match mark
       case Lock(_) => IsLocked(seen) || Hard(ChangedNames(seen, body)) != []
       case Kept(_, f, v) =>
         && Content(f) !in released
         && (Content(f) in Overrides(seen) || (Content(f) in ChangedNames(seen, body) && !IsHard(Content(f))))
         && (f in body.content ==> body.content[f] == v)
  }

  // ---- Without a threat the mark stays --------------------------------------------------------------

  ghost predicate DeskQuiet(s: Desk, id: nat, mark: Mark)
    requires ValidDesk(s)
  {
    Unthreatened(s.world, id, mark) && forall n :: n in s.drafts ==> !Overwrites(s.drafts[n], id, mark)
  }

  lemma StepSafeDesk(s: Desk, yaml: seq<Route>, a: Act)
    requires SafeDesk(s, yaml) && Allowed(s, a)
    ensures SafeDesk(Step(s, yaml, a), yaml)
  {
    match a
    case Base(e) => StepSafe(s.world, yaml, e);
    case Save(n) =>
      if n in s.drafts && s.drafts[n].checked { StepSafe(s.world, yaml, AdminEdit(s.drafts[n].id, s.drafts[n].patch)); }
    case _ =>
  }

  lemma StepQuiet(s: Desk, yaml: seq<Route>, a: Act, id: nat, mark: Mark)
    requires SafeDesk(s, yaml) && DeskQuiet(s, id, mark) && Allowed(s, a) && Minds(s, a, id, mark)
    ensures DeskQuiet(Step(s, yaml, a), id, mark)
  {
    match a
    case Base(e) => StepUnthreatened(s.world, yaml, e, id, mark);
    case Save(n) =>
      if n in s.drafts && s.drafts[n].checked {
        assert !Overwrites(s.drafts[n], id, mark);
        StepUnthreatened(s.world, yaml, AdminEdit(s.drafts[n].id, s.drafts[n].patch), id, mark);
      }
    case Check(n) => if n in s.drafts { assert !Overwrites(s.drafts[n], id, mark); }
    case Open(_, _, _, _) =>
  }

  lemma {:induction false} RunQuiet(s: Desk, yaml: seq<Route>, run: seq<Act>, id: nat, mark: Mark)
    requires SafeDesk(s, yaml) && DeskQuiet(s, id, mark)
    ensures !DeskLoses(s, yaml, run, id, mark)
    decreases |run|
  {
    if run != [] && Allowed(s, run[0]) && Minds(s, run[0], id, mark) {
      StepSafeDesk(s, yaml, run[0]);
      StepQuiet(s, yaml, run[0], id, mark);
      RunQuiet(Step(s, yaml, run[0]), yaml, run[1..], id, mark);
    }
  }

  // ---- With a threat it can be lost -----------------------------------------------------------------

  lemma DeskBreakNow(s: Desk, yaml: seq<Route>, id: nat, mark: Mark)
    requires ValidDesk(s) && Lost(s.world.store, id, mark)
    ensures DeskBreakable(s, yaml, id, mark)
  {
    assert DeskLoses(s, yaml, [], id, mark);
  }

  lemma DeskBreakNext(s: Desk, yaml: seq<Route>, a: Act, id: nat, mark: Mark)
    requires ValidDesk(s) && Allowed(s, a) && Minds(s, a, id, mark) && DeskBreakable(Step(s, yaml, a), yaml, id, mark)
    ensures DeskBreakable(s, yaml, id, mark)
  {
    var rest :| DeskLoses(Step(s, yaml, a), yaml, rest, id, mark);
    var run := [a] + rest;
    assert run[0] == a && run[1..] == rest;
    assert DeskLoses(s, yaml, run, id, mark);
  }

  /** A run of the interleaved system is a run with the drafts lying still. */
  lemma {:induction false} DraftsLieStill(s: Desk, yaml: seq<Route>, run: seq<Event>, id: nat, mark: Mark)
    requires ValidDesk(s) && Loses(s.world, yaml, run, id, mark)
    ensures DeskBreakable(s, yaml, id, mark)
    decreases |run|
  {
    if run == [] {
      DeskBreakNow(s, yaml, id, mark);
    } else {
      assert Loses(Next(s.world, yaml, run[0]), yaml, run[1..], id, mark);
      DraftsLieStill(Step(s, yaml, Base(run[0])), yaml, run[1..], id, mark);
      DeskBreakNext(s, yaml, Base(run[0]), id, mark);
    }
  }

  /** A checked draft writes, once nobody else holds the key it writes. */
  lemma SaveBreaks(s: Desk, yaml: seq<Route>, n: nat, id: nat, mark: Mark)
    requires ValidDesk(s) && n in s.drafts && s.drafts[n].checked && Overwrites(s.drafts[n], id, mark)
    requires id in s.world.store.rows && Marked(s.world.store.rows[id], mark)
    requires !UpdateRow(s.world.store, id, s.drafts[n].patch).1.Conflict?
    ensures DeskBreakable(s, yaml, id, mark)
  {
    KeepsExact(s.world.store.rows[id], s.drafts[n].patch, mark);
    DeskBreakNow(Step(s, yaml, Save(n)), yaml, id, mark);
    DeskBreakNext(s, yaml, Save(n), id, mark);
  }

  /** Deleting the one other row that holds the key. */
  lemma KeyCleared(st: Store, id: nat, patch: Row, h: nat)
    requires ValidStore(st) && id in st.rows && h in st.rows && h != id
    requires patch.routeKey.Some? && st.rows[h].routeKey == patch.routeKey
    ensures !UpdateRow(RemoveRow(st, h), id, patch).1.Conflict?
    ensures !Taken(RemoveRow(st, h), patch.routeKey, Some(id))
  {
  }

  lemma CheckedBreaks(s: Desk, yaml: seq<Route>, n: nat, id: nat, mark: Mark)
    requires ValidDesk(s) && n in s.drafts && s.drafts[n].checked && Overwrites(s.drafts[n], id, mark)
    requires id in s.world.store.rows && Marked(s.world.store.rows[id], mark)
    ensures DeskBreakable(s, yaml, id, mark)
  {
    var st, patch := s.world.store, s.drafts[n].patch;
    if UpdateRow(st, id, patch).1.Conflict? {
      var h :| h in st.rows && h != id && st.rows[h].routeKey == patch.routeKey && patch.routeKey.Some?;
      var a := Base(AdminDelete(h));
      KeyCleared(st, id, patch, h);
      SaveBreaks(Step(s, yaml, a), yaml, n, id, mark);
      DeskBreakNext(s, yaml, a, id, mark);
    } else {
      SaveBreaks(s, yaml, n, id, mark);
    }
  }

  lemma UncheckedBreaks(s: Desk, yaml: seq<Route>, n: nat, id: nat, mark: Mark)
    requires ValidDesk(s) && n in s.drafts && Overwrites(s.drafts[n], id, mark)
    requires id in s.world.store.rows && Marked(s.world.store.rows[id], mark)
    requires !(HasIdentity(s.drafts[n].body) && Clashes(s.world.store, RouteKeyOf(s.drafts[n].body.content), Some(id)))
    ensures DeskBreakable(s, yaml, id, mark)
  {
    CheckedBreaks(Step(s, yaml, Check(n)), yaml, n, id, mark);
    DeskBreakNext(s, yaml, Check(n), id, mark);
  }

  lemma DraftBreaks(s: Desk, yaml: seq<Route>, n: nat, id: nat, mark: Mark)
    requires ValidDesk(s) && n in s.drafts && Overwrites(s.drafts[n], id, mark)
    requires id in s.world.store.rows && Marked(s.world.store.rows[id], mark)
    ensures DeskBreakable(s, yaml, id, mark)
  {
    var st, key := s.world.store, RouteKeyOf(s.drafts[n].body.content);
    if HasIdentity(s.drafts[n].body) && Clashes(st, key, Some(id)) {
      var h :| h in st.rows && st.rows[h].routeKey == Some(key) && IsEnabled(st.rows[h]) && Some(h) != Some(id);
      var a := Base(AdminDelete(h));
      ClashCleared(st, id, key, h);
      UncheckedBreaks(Step(s, yaml, a), yaml, n, id, mark);
      DeskBreakNext(s, yaml, a, id, mark);
    } else {
      UncheckedBreaks(s, yaml, n, id, mark);
    }
  }

  lemma ClashCleared(st: Store, id: nat, key: string, h: nat)
    requires ValidStore(st) && h in st.rows && h != id && st.rows[h].routeKey == Some(key)
    ensures !Clashes(RemoveRow(st, h), key, Some(id))
  {
  }

  // ---- Result ---------------------------------------------------------------------------------------

  /** A mark on a row survives every continuation, with syncs and edits in flight each cut at their store
      calls, if and only if no sync in flight threatens it and no edit in flight is going to overwrite it. */
  lemma MarkSurvivesDraftsIff(s: Desk, yaml: seq<Route>, id: nat, mark: Mark)
    requires SafeDesk(s, yaml) && id in s.world.store.rows && Marked(s.world.store.rows[id], mark)
    ensures !DeskBreakable(s, yaml, id, mark) <==>
      && (forall p :: p in s.world.tasks ==> !Threatens(s.world.store, s.world.tasks[p], id, mark))
      && (forall n :: n in s.drafts ==> !Overwrites(s.drafts[n], id, mark))
  {
    if p :| p in s.world.tasks && Threatens(s.world.store, s.world.tasks[p], id, mark) {
      ThreatBreaks(s.world, yaml, p, id, mark);
      var run :| Loses(s.world, yaml, run, id, mark);
      DraftsLieStill(s, yaml, run, id, mark);
    } else if n :| n in s.drafts && Overwrites(s.drafts[n], id, mark) {
      DraftBreaks(s, yaml, n, id, mark);
    } else {
      forall run ensures !DeskLoses(s, yaml, run, id, mark) { RunQuiet(s, yaml, run, id, mark); }
    }
  }

  // ---- From an idle store -----------------------------------------------------------------------------

  ghost predicate AllowedRun(s: Desk, yaml: seq<Route>, run: seq<Act>)
    requires ValidDesk(s)
    decreases |run|
  {
    run == [] || (Allowed(s, run[0]) && AllowedRun(Step(s, yaml, run[0]), yaml, run[1..]))
  }

  ghost function Play(s: Desk, yaml: seq<Route>, run: seq<Act>): (r: Desk)
    requires ValidDesk(s) && AllowedRun(s, yaml, run)
    ensures ValidDesk(r)
    decreases |run|
  {
    if run == [] then s else Play(Step(s, yaml, run[0]), yaml, run[1..])
  }

  lemma {:induction false} PlaySafe(s: Desk, yaml: seq<Route>, run: seq<Act>)
    requires SafeDesk(s, yaml) && AllowedRun(s, yaml, run)
    ensures SafeDesk(Play(s, yaml, run), yaml)
    decreases |run|
  {
    if run != [] {
      StepSafeDesk(s, yaml, run[0]);
      PlaySafe(Step(s, yaml, run[0]), yaml, run[1..]);
    }
  }

  /** So at every point of every run from a store with nothing in flight. */
  lemma MarkSurvivesDraftsInRuns(st: Store, yaml: seq<Route>, run: seq<Act>, id: nat, mark: Mark)
    requires ValidStore(st) && AllowedRun(Desk(World(st, map[]), map[]), yaml, run)
    requires var s := Play(Desk(World(st, map[]), map[]), yaml, run);
      id in s.world.store.rows && Marked(s.world.store.rows[id], mark)
    ensures var s := Play(Desk(World(st, map[]), map[]), yaml, run);
      !DeskBreakable(s, yaml, id, mark) <==>
        && (forall p :: p in s.world.tasks ==> !Threatens(s.world.store, s.world.tasks[p], id, mark))
        && (forall n :: n in s.drafts ==> !Overwrites(s.drafts[n], id, mark))
  {
    var start := Desk(World(st, map[]), map[]);
    PlaySafe(start, yaml, run);
    MarkSurvivesDraftsIff(Play(start, yaml, run), yaml, id, mark);
  }
}
