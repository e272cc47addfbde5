/** Users against manifests: `GatewayPathService.update` classifies an edit as hard (locks the row) or
    soft (overrides single fields), and route synchronisation must respect both over whole runs of
    complete syncs and complete edits. What an edit that lands in the middle of a sync may lose is the
    subject of `RouteInterference`. */
module RouteLocks {
  import opened Options
  import opened CanonicalJson
  import opened RouteManifest
  import opened RouteStore
  import opened RouteDiff
  import opened RouteSync

  // ---- gw-path-update ---------------------------------------------------------------------------

  datatype EditOutcome = Saved | NoId | Clash | NotFound

  /** Names of the fields an edit changes on a stored row, `enabled` last. */
  function ChangedNames(existing: Row, body: Row): seq<FieldName> {
    Names(ChangedFields(existing.content, existing.content + body.content))
    + (if body.enabled.Some? && IsEnabled(body) != IsEnabled(existing) then [Enabled] else [])
  }

  function Names(fields: seq<RouteField>): seq<FieldName> {
    if fields == [] then [] else [Content(fields[0])] + Names(fields[1..])
  }

  predicate IsHard(n: FieldName) { n !in USER_OVERRIDABLE_FIELDS }

  /** `[...new Set(names)]`. */
  function Unique(names: seq<FieldName>): seq<FieldName> {
    if names == [] then []
    else
      var before := Unique(names[..|names| - 1]);
      if names[|names| - 1] in before then before else before + [names[|names| - 1]]
  }

  function Without(names: seq<FieldName>, released: seq<FieldName>): seq<FieldName> {
    if names == [] then []
    else (if names[0] in released then [] else [names[0]]) + Without(names[1..], released)
  }

  function Soft(names: seq<FieldName>): seq<FieldName> {
    if names == [] then [] else (if IsHard(names[0]) then [] else [names[0]]) + Soft(names[1..])
  }

  function Hard(names: seq<FieldName>): seq<FieldName> {
    if names == [] then [] else (if IsHard(names[0]) then [names[0]] else []) + Hard(names[1..])
  }

  /** What an accepted edit writes over an existing row. */
  function EditPatch(existing: Row, body: Row, released: seq<FieldName>): Row {
    var changed := ChangedNames(existing, body);
    body.(modified := Some(Hard(changed) != [] || IsLocked(existing)),
          userOverrides := Some(Without(Unique(Overrides(existing) + Soft(changed)), released)))
  }

  lemma {:induction false} NamesMember(fields: seq<RouteField>, n: FieldName)
    ensures n in Names(fields) <==> n.Content? && n.field in fields
  {
    if fields != [] { NamesMember(fields[1..], n); }
  }

  lemma {:induction false} UniqueMember(names: seq<FieldName>, n: FieldName)
    ensures n in Unique(names) <==> n in names
  {
    if names != [] { UniqueMember(names[..|names| - 1], n); }
  }

  ghost predicate NoneTwice(names: seq<FieldName>) {
    forall i, j :: 0 <= i < j < |names| ==> names[i] != names[j]
  }

  lemma {:induction false} UniqueOnce(names: seq<FieldName>)
    ensures NoneTwice(Unique(names))
  {
    if names != [] { UniqueOnce(names[..|names| - 1]); }
  }

  lemma {:induction false} WithoutOnce(names: seq<FieldName>, released: seq<FieldName>)
    requires NoneTwice(names)
    ensures NoneTwice(Without(names, released))
  {
    if names != [] {
      WithoutOnce(names[1..], released);
      WithoutMember(names[1..], released, names[0]);
      assert forall i :: 0 <= i < |names[1..]| ==> names[1..][i] == names[i + 1];
    }
  }

  /** An edit records no override twice, whatever the row held before. */
  lemma OverridesOnce(st: Store, id: nat, body: Row, released: seq<FieldName>)
    requires ValidStore(st) && EditStore(st, Some(id), body, released).1 == Saved
    ensures id in EditStore(st, Some(id), body, released).0.rows
    ensures NoneTwice(Overrides(EditStore(st, Some(id), body, released).0.rows[id]))
  {
    var names := Overrides(st.rows[id]) + Soft(ChangedNames(st.rows[id], WithKey(body)));
    UniqueOnce(names);
    WithoutOnce(Unique(names), released);
  }

  lemma {:induction false} WithoutMember(names: seq<FieldName>, released: seq<FieldName>, n: FieldName)
    ensures n in Without(names, released) <==> n in names && n !in released
  {
    if names != [] { WithoutMember(names[1..], released, n); }
  }

  lemma {:induction false} SoftHardMember(names: seq<FieldName>, n: FieldName)
    ensures n in Soft(names) <==> n in names && !IsHard(n)
    ensures n in Hard(names) <==> n in names && IsHard(n)
  {
    if names != [] { SoftHardMember(names[1..], n); }
  }

  /** Membership in the override set an edit writes. */
  lemma EditedOverride(existing: Row, body: Row, released: seq<FieldName>, n: FieldName)
    ensures n in Overrides(EditPatch(existing, body, released)) <==>
      n !in released && (n in Overrides(existing) || (n in ChangedNames(existing, body) && !IsHard(n)))
  {
    var names := Overrides(existing) + Soft(ChangedNames(existing, body));
    WithoutMember(Unique(names), released, n);
    UniqueMember(names, n);
    SoftHardMember(ChangedNames(existing, body), n);
  }

  /** The body with its routeKey kept in step when it carries both method and path. */
  function WithKey(body: Row): Row {
    if Truthy(Get(body.content, Method)) && Truthy(Get(body.content, Path))
    then body.(routeKey := Some(RouteKeyOf(body.content)))
    else body
  }

  /** Some other enabled row has the key. */
  predicate Clashes(st: Store, key: string, exclude: Option<nat>) {
    exists id | id in st.rows ::
      st.rows[id].routeKey == Some(key) && IsEnabled(st.rows[id]) && Some(id) != exclude
  }

  predicate HasIdentity(body: Row) {
    Truthy(Get(body.content, Method)) && Truthy(Get(body.content, Path))
  }

  function EditStore(st: Store, id: Option<nat>, body: Row, released: seq<FieldName>): (r: (Store, EditOutcome))
    requires ValidStore(st)
    ensures ValidStore(r.0) && r.0.rows.Keys == st.rows.Keys && r.0.nextId == st.nextId
    ensures r.1 == Saved ==>
      id.Some? && id.value in st.rows && r == WriteEdit(st, id.value, EditPatch(st.rows[id.value], WithKey(body), released))
  {
    if id.None? then (st, NoId)
    else if HasIdentity(body) && Clashes(st, RouteKeyOf(body.content), id) then (st, Clash)
    else if id.value !in st.rows then (st, NotFound)
    else WriteEdit(st, id.value, EditPatch(st.rows[id.value], WithKey(body), released))
  }

  function WriteEdit(st: Store, id: nat, patch: Row): (r: (Store, EditOutcome))
    requires ValidStore(st)
    ensures ValidStore(r.0) && r.0.rows.Keys == st.rows.Keys && r.0.nextId == st.nextId
  {
    var (after, outcome) := UpdateRow(st, id, patch);
    (after, if outcome.Conflict? then Clash else Saved)
  }

  datatype CreateOutcome = Created(id: nat) | MissingField | Duplicate

  function CreateStore(st: Store, model: Row): (r: (Store, CreateOutcome))
    requires ValidStore(st)
    ensures ValidStore(r.0)
  {
    if !(Truthy(Get(model.content, Name)) && HasIdentity(model) && Truthy(Get(model.content, Topic)))
    then (st, MissingField)
    else if Clashes(st, RouteKeyOf(model.content), None) then (st, Duplicate)
    else
      var key := RouteKeyOf(model.content);
      var (after, outcome) := InsertRow(st, model.(routeKey := Some(key), source := Some(User), modified := Some(false)));
      (after, if outcome.Conflict? then Duplicate else Created(st.nextId))
  }

  // ---- What an edit leaves --------------------------------------------------------------------------

  /** The key a row has after an edit: its route's own if the edit names method and path, else the one
      given, else the old one. */
  function KeyAfter(row: Row, body: Row): Option<string> {
    if Truthy(Get(body.content, Method)) && Truthy(Get(body.content, Path)) then Some(RouteKeyOf(body.content))
    else if body.routeKey.Some? then body.routeKey
    else row.routeKey
  }

  ghost predicate HeldElsewhere(st: Store, key: Option<string>, id: nat) {
    key.Some? && exists other :: other in st.rows && other != id && st.rows[other].routeKey == key
  }

  /** What refuses an edit before its row is looked up: another row in service under the key it names. */
  ghost predicate NamesServedKey(st: Store, body: Row, id: nat) {
    && Truthy(Get(body.content, Method)) && Truthy(Get(body.content, Path))
    && exists other :: other in st.rows && other != id && IsEnabled(st.rows[other])
         && st.rows[other].routeKey == Some(RouteKeyOf(body.content))
  }

  ghost predicate EditedTo(row: Row, after: Row, body: Row) {
    && after.content == row.content + body.content
    && after.routeKey == KeyAfter(row, body)
    && after.enabled == (if body.enabled.Some? then body.enabled else row.enabled)
    && after.owner == (if body.owner.Some? then body.owner else row.owner)
    && after.source == (if body.source.Some? then body.source else row.source)
  }

  /** Saved means the one row edited, under a key nobody else holds; refused means nothing changed, for want
      of an id, of the row, or of a free key. */
  ghost predicate Edits(before: Store, after: Store, id: Option<nat>, body: Row, outcome: EditOutcome) {
    match outcome
    case Saved =>
      && id.Some? && id.value in before.rows && id.value in after.rows
      && after == before.(rows := before.rows[id.value := after.rows[id.value]])
      && EditedTo(before.rows[id.value], after.rows[id.value], body)
      && !HeldElsewhere(before, KeyAfter(before.rows[id.value], body), id.value)
    case NoId => id.None? && after == before
    case NotFound => id.Some? && id.value !in before.rows && !NamesServedKey(before, body, id.value) && after == before
    case Clash =>
      && id.Some? && after == before
      && if id.value in before.rows then HeldElsewhere(before, KeyAfter(before.rows[id.value], body), id.value)
         else NamesServedKey(before, body, id.value)
  }

  lemma WriteEffect(st: Store, id: nat, body: Row, patch: Row)
    requires ValidStore(st) && id in st.rows
    requires patch.content == body.content && patch.enabled == body.enabled && patch.owner == body.owner
    requires patch.source == body.source && patch.routeKey == WithKey(body).routeKey
    ensures Edits(st, WriteEdit(st, id, patch).0, Some(id), body, WriteEdit(st, id, patch).1)
  {
  }

  lemma PatchCarriesModel(row: Row, model: Row, released: seq<FieldName>)
    ensures var patch := EditPatch(row, model, released);
      && patch.content == model.content && patch.enabled == model.enabled && patch.owner == model.owner
      && patch.source == model.source && patch.routeKey == model.routeKey
  {
  }

  lemma KeyOnly(body: Row)
    ensures var model := WithKey(body);
      model.content == body.content && model.enabled == body.enabled && model.owner == body.owner && model.source == body.source
  {
  }

  lemma PatchCarriesBody(row: Row, body: Row, released: seq<FieldName>)
    ensures var patch := EditPatch(row, WithKey(body), released);
      && patch.content == body.content && patch.enabled == body.enabled && patch.owner == body.owner
      && patch.source == body.source && patch.routeKey == WithKey(body).routeKey
  {
    KeyOnly(body);
    PatchCarriesModel(row, WithKey(body), released);
  }

  lemma EditEffect(st: Store, id: Option<nat>, body: Row, released: seq<FieldName>)
    requires ValidStore(st)
    ensures Edits(st, EditStore(st, id, body, released).0, id, body, EditStore(st, id, body, released).1)
  {
    if id.Some? && HasIdentity(body) && Clashes(st, RouteKeyOf(body.content), id) {
      var other :| other in st.rows && st.rows[other].routeKey == Some(RouteKeyOf(body.content))
        && IsEnabled(st.rows[other]) && Some(other) != id;
      assert HeldElsewhere(st, Some(RouteKeyOf(body.content)), id.value) && NamesServedKey(st, body, id.value);
    } else if id.Some? && id.value in st.rows {
      PatchCarriesBody(st.rows[id.value], body, released);
      WriteEffect(st, id.value, body, EditPatch(st.rows[id.value], WithKey(body), released));
    }
  }

  /** After a saved edit that names method and path, the key is the row's own again. */
  lemma RenamedKey(st: Store, id: nat, body: Row, released: seq<FieldName>)
    requires ValidStore(st) && EditStore(st, Some(id), body, released).1 == Saved
    requires Truthy(Get(body.content, Method)) && Truthy(Get(body.content, Path))
    ensures id in EditStore(st, Some(id), body, released).0.rows
    ensures var after := EditStore(st, Some(id), body, released).0.rows[id]; after.routeKey == Some(RouteKeyOf(after.content))
  {
    EditEffect(st, Some(id), body, released);
    var after := EditStore(st, Some(id), body, released).0.rows[id];
    SameIdentity(after.content, body.content);
  }

  lemma SameIdentity(a: Route, b: Route)
    requires Get(a, Method) == Get(b, Method) && Get(a, Path) == Get(b, Path)
    ensures RouteKeyOf(a) == RouteKeyOf(b)
  {
  }

  /** The fields a route needs to be created. */
  predicate Complete(model: Row) {
    Truthy(Get(model.content, Name)) && HasIdentity(model) && Truthy(Get(model.content, Topic))
  }

  /** Created means one new row: under a fresh id and its own key, which nobody held, a user's and
      unlocked, as given otherwise; refused means nothing changed, for want of a field or of a free key. */
  ghost predicate Creates(before: Store, after: Store, model: Row, outcome: CreateOutcome) {
    match outcome
    case Created(id) =>
      && Complete(model) && (forall i :: i in before.rows ==> before.rows[i].routeKey != Some(RouteKeyOf(model.content)))
      && id !in before.rows && id in after.rows && after.rows == before.rows[id := after.rows[id]]
      && after.rows[id].routeKey == Some(RouteKeyOf(model.content))
      && after.rows[id].source == Some(User) && after.rows[id].modified == Some(false)
      && after.rows[id].content == model.content && after.rows[id].enabled == model.enabled
      && after.rows[id].owner == model.owner && after.rows[id].userOverrides == model.userOverrides
    case MissingField => after == before && !Complete(model)
    case Duplicate =>
      && after == before && Complete(model)
      && exists i :: i in before.rows && before.rows[i].routeKey == Some(RouteKeyOf(model.content))
  }

  lemma CreateEffect(st: Store, model: Row)
    requires ValidStore(st)
    ensures Creates(st, CreateStore(st, model).0, model, CreateStore(st, model).1)
  {
  }

  class GatewayPathService {
    var repo: Store

    constructor (repo: Store)
      ensures this.repo == repo
    {
      this.repo := repo;
    }

    method Create(model: Row) returns (outcome: CreateOutcome)
      requires ValidStore(repo)
      modifies this
      ensures (repo, outcome) == CreateStore(old(repo), model)
      ensures Creates(old(repo), repo, model, outcome)
    {
      CreateEffect(repo, model);
      if !Truthy(Get(model.content, Name)) { return MissingField; }
      if !Truthy(Get(model.content, Method)) { return MissingField; }
      if !Truthy(Get(model.content, Path)) { return MissingField; }
      if !Truthy(Get(model.content, Topic)) { return MissingField; }
      var routeKey := RouteKeyOf(model.content);
      if Clashes(repo, routeKey, None) { return Duplicate; }
      var id := repo.nextId;
      var (after, written) :=
        InsertRow(repo, model.(routeKey := Some(routeKey), source := Some(User), modified := Some(false)));
      repo := after;
      outcome := if written.Conflict? then Duplicate else Created(id);
    }

    method Update(id: Option<nat>, body: Row, released: seq<FieldName>) returns (outcome: EditOutcome)
      requires ValidStore(repo)
      modifies this
      ensures (repo, outcome) == EditStore(old(repo), id, body, released)
      ensures Edits(old(repo), repo, id, body, outcome)
    {
      EditEffect(repo, id, body, released);
      if id.None? { return NoId; }
      var model := body;
      if Truthy(Get(body.content, Method)) && Truthy(Get(body.content, Path)) {
        if Clashes(repo, RouteKeyOf(body.content), id) { return Clash; }
        model := model.(routeKey := Some(RouteKeyOf(body.content)));
      }
      if id.value !in repo.rows { return NotFound; }
      var patch := Classify(repo.rows[id.value], model, released);
      var (after, written) := UpdateRow(repo, id.value, patch);
      repo := after;
      outcome := if written.Conflict? then Clash else Saved;
    }
  }

  /** The classification part of `update`: changed fields, hard or soft, the override set, the lock. */
  method Classify(existing: Row, model: Row, released: seq<FieldName>) returns (patch: Row)
    ensures patch == EditPatch(existing, model, released)
  {
    var changed := Changes(existing, model);
    var overrides := Release(Unique(Overrides(existing) + Soft(changed)), released);
    var modified := Hard(changed) != [] || IsLocked(existing);
    patch := model.(modified := Some(modified), userOverrides := Some(overrides));
  }

  method Changes(existing: Row, model: Row) returns (changed: seq<FieldName>)
    ensures changed == ChangedNames(existing, model)
  {
    var fields := DiffRouteFields(existing.content, existing.content + model.content);
    changed := Names(fields);
    if model.enabled.Some? && IsEnabled(model) != IsEnabled(existing) { changed := changed + [Enabled]; }
  }

  method Release(names: seq<FieldName>, released: seq<FieldName>) returns (overrides: seq<FieldName>)
    ensures overrides == Without(names, released)
  {
    overrides := names;
    WithoutNone(names);
    for i := 0 to |released|
      invariant overrides == Without(names, released[..i])
    {
      WithoutOneMore(names, released[..i], released[i]);
      assert released[..i + 1] == released[..i] + [released[i]];
      overrides := Without(overrides, [released[i]]);
    }
    assert released[..|released|] == released;
  }

  lemma {:induction false} WithoutNone(names: seq<FieldName>)
    ensures Without(names, []) == names
  {
    if names != [] { WithoutNone(names[1..]); }
  }

  lemma {:induction false} WithoutOneMore(names: seq<FieldName>, released: seq<FieldName>, more: FieldName)
    ensures Without(Without(names, released), [more]) == Without(names, released + [more])
  {
    if names != [] {
      WithoutOneMore(names[1..], released, more);
      var rest := Without(names[1..], released);
      if names[0] in released {
        assert Without(names, released) == rest;
      } else {
        assert Without(names, released) == [names[0]] + rest && ([names[0]] + rest)[1..] == rest;
      }
    }
  }

  // ---- What an edit records -----------------------------------------------------------------------

  /** The field differs between the row before and the row after an edit. */
  predicate Changed(before: Row, after: Row, n: FieldName) {
    match n
    case Enabled => IsEnabled(before) != IsEnabled(after)
    case Content(f) => FieldChanged(before.content, after.content, f)
  }

  /** A saved edit locks the row exactly when a hard field changed (or it was locked), and overrides
      exactly the soft fields that changed on top of the old overrides, minus the released ones. */
  lemma EditClassifies(st: Store, id: nat, body: Row, released: seq<FieldName>)
    requires ValidStore(st) && EditStore(st, Some(id), body, released).1 == Saved
    ensures var before, after := st.rows[id], EditStore(st, Some(id), body, released).0.rows[id];
      && (IsLocked(after) <==> IsLocked(before) || exists n :: IsHard(n) && Changed(before, after, n))
      && forall n :: n in Overrides(after) <==>
           n !in released && (n in Overrides(before) || (!IsHard(n) && Changed(before, after, n)))
  {
    var before, after := st.rows[id], EditStore(st, Some(id), body, released).0.rows[id];
    var model := WithKey(body);
    UpdateSaved(st, id, EditPatch(before, model, released));
    PatchClassifies(before, model, released);
  }

  /** The fields that decide where a route leads and what is sent there. */
  predicate Routing(f: RouteField) {
    f in {Name, Method, Path, DataSource, Topic, Action, Mode, Auth, ParseRaw, Binary, Headers, ForwardHeaders}
  }

  /** Those are the ones whose change locks the row. */
  lemma HardExact(n: FieldName)
    ensures IsHard(n) <==> n.Content? && Routing(n.field)
  {
    match n {
      case Enabled =>
      case Content(f) => HardField(f);
    }
  }

  lemma HardField(f: RouteField)
    ensures IsHard(Content(f)) <==> Routing(f)
  {
    match f {
      case Name => case Method => case Path => case DataSource => case Topic => case Action =>
      case Mode => case Auth => case AllowAnonymous => case Actions => case SuccessStatusCode =>
      case Timeout => case ParseRaw => case Binary => case Redirect => case Headers => case ForwardHeaders =>
    }
  }

  lemma HardChange(before: Row, after: Row)
    requires WellFormedRoute(before.content) && WellFormedRoute(after.content)
    ensures (exists n :: IsHard(n) && Changed(before, after, n))
      <==> exists f :: Routing(f) && !Equivalent(Get(before.content, f), Get(after.content, f))
  {
    forall f ensures IsHard(Content(f)) && Changed(before, after, Content(f))
      <==> Routing(f) && !Equivalent(Get(before.content, f), Get(after.content, f))
    {
      HardExact(Content(f));
      FieldChangedIff(before.content, after.content, f);
    }
    if n :| IsHard(n) && Changed(before, after, n) { HardExact(n); }
  }

  ghost predicate LocksByValues(before: Row, after: Row) {
    IsLocked(after)
    <==> (IsLocked(before) || exists f :: Routing(f) && !Equivalent(Get(before.content, f), Get(after.content, f)))
  }

  lemma EditedValues(before: Row, after: Row, body: Row)
    requires WellFormedRoute(before.content) && WellFormedRoute(body.content) && EditedTo(before, after, body)
    requires IsLocked(after) <==> (IsLocked(before) || exists n :: IsHard(n) && Changed(before, after, n))
    ensures LocksByValues(before, after)
  {
    HardChange(before, after);
  }

  /** On real values: a saved edit locks the row exactly when one of the routing fields changed its value. */
  lemma LockedByValues(st: Store, id: nat, body: Row, released: seq<FieldName>)
    requires ValidStore(st) && EditStore(st, Some(id), body, released).1 == Saved
    requires id in st.rows && WellFormedRoute(st.rows[id].content) && WellFormedRoute(body.content)
    ensures id in EditStore(st, Some(id), body, released).0.rows
    ensures LocksByValues(st.rows[id], EditStore(st, Some(id), body, released).0.rows[id])
  {
    EditEffect(st, Some(id), body, released);
    EditClassifies(st, id, body, released);
    EditedValues(st.rows[id], EditStore(st, Some(id), body, released).0.rows[id], body);
  }

  lemma PatchClassifies(before: Row, model: Row, released: seq<FieldName>)
    ensures var after := Merge(before, EditPatch(before, model, released));
      && (IsLocked(after) <==> IsLocked(before) || exists n :: IsHard(n) && Changed(before, after, n))
      && forall n :: n in Overrides(after) <==>
           n !in released && (n in Overrides(before) || (!IsHard(n) && Changed(before, after, n)))
  {
    var after := Merge(before, EditPatch(before, model, released));
    var changed := ChangedNames(before, model);
    forall n ensures n in changed <==> Changed(before, after, n) { PatchChanges(before, model, released, n); }
    PatchLocks(before, model, released);
    forall n ensures n in Overrides(after) <==>
      n !in released && (n in Overrides(before) || (n in changed && !IsHard(n)))
    {
      EditedOverride(before, model, released, n);
    }
  }

  lemma PatchChanges(before: Row, model: Row, released: seq<FieldName>, n: FieldName)
    ensures n in ChangedNames(before, model) <==> Changed(before, Merge(before, EditPatch(before, model, released)), n)
  {
    ChangedNamesExact(before, model, n);
  }

  lemma PatchLocks(before: Row, model: Row, released: seq<FieldName>)
    ensures IsLocked(Merge(before, EditPatch(before, model, released)))
      <==> IsLocked(before) || exists n :: n in ChangedNames(before, model) && IsHard(n)
  {
    var changed := ChangedNames(before, model);
    AnyHard(changed);
    assert EditPatch(before, model, released).modified == Some(Hard(changed) != [] || IsLocked(before));
  }

  lemma AnyHard(names: seq<FieldName>)
    ensures Hard(names) != [] <==> exists n :: n in names && IsHard(n)
  {
    forall n ensures n in Hard(names) <==> n in names && IsHard(n) { SoftHardMember(names, n); }
    assert Hard(names) != [] ==> Hard(names)[0] in Hard(names);
  }

  lemma SavedIsWrite(st: Store, id: nat, body: Row, released: seq<FieldName>)
    requires ValidStore(st) && EditStore(st, Some(id), body, released).1 == Saved
    ensures id in st.rows
    ensures EditStore(st, Some(id), body, released) == WriteEdit(st, id, EditPatch(st.rows[id], WithKey(body), released))
  {
  }

  lemma SavedIsUpdate(st: Store, id: nat, body: Row, released: seq<FieldName>)
    requires ValidStore(st) && EditStore(st, Some(id), body, released).1 == Saved
    ensures id in st.rows
    ensures UpdateRow(st, id, EditPatch(st.rows[id], WithKey(body), released)).1 == Written(id)
    ensures EditStore(st, Some(id), body, released).0 == UpdateRow(st, id, EditPatch(st.rows[id], WithKey(body), released)).0
  {
    SavedIsWrite(st, id, body, released);
    WriteSaved(st, id, EditPatch(st.rows[id], WithKey(body), released));
  }

  lemma WriteSaved(st: Store, id: nat, patch: Row)
    requires ValidStore(st) && id in st.rows
    ensures WriteEdit(st, id, patch).1 == Saved ==>
      UpdateRow(st, id, patch).1 == Written(id) && WriteEdit(st, id, patch).0 == UpdateRow(st, id, patch).0
  {
  }

  lemma UpdateSaved(st: Store, id: nat, patch: Row)
    requires ValidStore(st) && UpdateRow(st, id, patch).1.Written?
    ensures id in st.rows && UpdateRow(st, id, patch).0.rows[id] == Merge(st.rows[id], patch)
  {
  }

  lemma ChangedNamesExact(before: Row, body: Row, n: FieldName)
    ensures n in ChangedNames(before, body) <==>
      match n
      case Enabled => body.enabled.Some? && IsEnabled(body) != IsEnabled(before)
      case Content(f) => FieldChanged(before.content, before.content + body.content, f)
  {
    var after := before.content + body.content;
    var names := Names(ChangedFields(before.content, after));
    NamesMember(ChangedFields(before.content, after), n);
    if n.Content? { ChangedFieldsExact(before.content, after, n.field); }
    assert n in ChangedNames(before, body) <==>
      n in names || (n == Enabled && body.enabled.Some? && IsEnabled(body) != IsEnabled(before));
  }

  // ---- Runs of whole syncs and whole edits ----------------------------------------------------------

  datatype Act =
    | Sync(service: string, routes: seq<Route>)
    | Edit(target: Option<nat>, body: Row, released: seq<FieldName>)
    | Create(model: Row)
    | Delete(id: nat)

  predicate Ordinary(acts: seq<Act>) {
    forall a :: a in acts && a.Sync? ==> OrdinaryService(a.service)
  }

  function Act1(st: Store, yaml: seq<Route>, a: Act): (r: Store)
    requires ValidStore(st)
    ensures ValidStore(r)
  {
    match a
    case Sync(service, routes) => HandleStore(st, yaml, service, routes).0
    case Edit(id, body, released) => EditStore(st, id, body, released).0
    case Create(model) => CreateStore(st, model).0
    case Delete(id) => RemoveRow(st, id)
  }

  function Acts(st: Store, yaml: seq<Route>, acts: seq<Act>): (r: Store)
    requires ValidStore(st)
    ensures ValidStore(r)
    decreases |acts|
  {
    if acts == [] then st else Acts(Act1(st, yaml, acts[0]), yaml, acts[1..])
  }

  /** What one act may do to one row: nothing, a sync, or the row's own edit. */
  predicate RowStep(yaml: seq<Route>, a: Act, id: nat, before: Row, after: Row) {
    || after == before
    || (a.Sync? && after == RowAfter(yaml, a.service, a.routes, id, before))
    || (a.Edit? && a.target == Some(id) && after == Merge(before, EditPatch(before, WithKey(a.body), a.released)))
  }

  lemma EditOnRow(st: Store, yaml: seq<Route>, a: Act, id: nat)
    requires ValidStore(st) && a.Edit? && id in st.rows
    ensures id in Act1(st, yaml, a).rows && RowStep(yaml, a, id, st.rows[id], Act1(st, yaml, a).rows[id])
  {
    EditIsUpdate(st, yaml, a);
    if Act1(st, yaml, a) != st {
      UpdateOnRow(st, a.target.value, EditPatch(st.rows[a.target.value], WithKey(a.body), a.released), id);
    }
  }

  lemma EditIsUpdate(st: Store, yaml: seq<Route>, a: Act)
    requires ValidStore(st) && a.Edit?
    ensures Act1(st, yaml, a) == st || (a.target.Some? && a.target.value in st.rows && Act1(st, yaml, a)
      == UpdateRow(st, a.target.value, EditPatch(st.rows[a.target.value], WithKey(a.body), a.released)).0)
  {
  }

  lemma UpdateOnRow(st: Store, at: nat, patch: Row, id: nat)
    requires ValidStore(st) && at in st.rows && id in st.rows
    ensures var after := UpdateRow(st, at, patch).0;
      id in after.rows && (after.rows[id] == st.rows[id] || (id == at && after.rows[id] == Merge(st.rows[id], patch)))
  {
  }

  lemma EditKeepsIds(st: Store, yaml: seq<Route>, a: Act)
    requires ValidStore(st) && a.Edit?
    ensures Act1(st, yaml, a).rows.Keys == st.rows.Keys && Act1(st, yaml, a).nextId == st.nextId
  {
  }

  lemma CreateOnRow(st: Store, model: Row, id: nat)
    requires ValidStore(st) && id < st.nextId
    ensures var after := CreateStore(st, model).0;
      && st.nextId <= after.nextId && (id in after.rows <==> id in st.rows)
      && (id in st.rows ==> after.rows[id] == st.rows[id])
  {
  }

  /** One act: a row that exists takes one step or is deleted, and an id never comes back. */
  lemma ActOnRow(st: Store, yaml: seq<Route>, a: Act, id: nat)
    requires ValidStore(st) && (a.Sync? ==> OrdinaryService(a.service)) && id < st.nextId
    ensures var after := Act1(st, yaml, a);
      && st.nextId <= after.nextId
      && (id in after.rows <==> id in st.rows && a != Delete(id))
      && (id in after.rows ==> RowStep(yaml, a, id, st.rows[id], after.rows[id]))
  {
    match a
    case Sync(service, routes) =>
      HandleEffect(st, yaml, service, routes);
      SyncKeepsIds(st, yaml, service, routes);
    case Edit(_, _, _) =>
      EditKeepsIds(st, yaml, a);
      if id in st.rows { EditOnRow(st, yaml, a, id); }
    case Create(model) => CreateOnRow(st, model, id);
    case Delete(_) =>
  }

  lemma SyncKeepsIds(st: Store, yaml: seq<Route>, service: string, routes: seq<Route>)
    requires ValidStore(st) && OrdinaryService(service)
    ensures var after := HandleStore(st, yaml, service, routes).0;
      st.nextId <= after.nextId && forall id :: id in after.rows && id < st.nextId ==> id in st.rows
  {
    var diff := DiffAgainst(st, yaml, service, routes);
    UpsertsKeepIds(st, service, diff.upserts);
    UpsertsWellPlaced(st, yaml, service, routes);
    UpsertsEffect(st, service, diff.upserts);
    DisablesExact(st, yaml, service, routes);
    DisablesEffect(ApplyUpserts(st, service, diff.upserts), diff.disables);
  }

  lemma {:induction false} UpsertsKeepIds(st: Store, service: string, upserts: seq<Upsert>)
    requires ValidStore(st)
    ensures var after := ApplyUpserts(st, service, upserts);
      st.nextId <= after.nextId && forall id :: id in after.rows && id < st.nextId ==> id in st.rows
  {
    if upserts != [] {
      UpsertsKeepIds(st, service, upserts[..|upserts| - 1]);
      UpsertKeepsIds(ApplyUpserts(st, service, upserts[..|upserts| - 1]), service, upserts[|upserts| - 1]);
    }
  }

  lemma UpsertKeepsIds(st: Store, service: string, u: Upsert)
    requires ValidStore(st)
    ensures var after := ApplyUpsert(st, service, u);
      st.nextId <= after.nextId && forall id :: id in after.rows && id < st.nextId ==> id in st.rows
  {
  }

  lemma {:induction false} GoneStaysGone(st: Store, yaml: seq<Route>, acts: seq<Act>, id: nat)
    requires ValidStore(st) && Ordinary(acts) && id !in st.rows && id < st.nextId
    ensures id !in Acts(st, yaml, acts).rows
    decreases |acts|
  {
    if acts != [] {
      assert acts[0] in acts;
      ActOnRow(st, yaml, acts[0], id);
      GoneStaysGone(Act1(st, yaml, acts[0]), yaml, acts[1..], id);
    }
  }

  // ---- The lock -------------------------------------------------------------------------------------

  lemma SyncOnLockedRow(yaml: seq<Route>, service: string, routes: seq<Route>, id: nat, row: Row)
    requires IsLocked(row)
    ensures var after := RowAfter(yaml, service, routes, id, row);
      after == row || after == row.(enabled := Some(false))
  {
  }

  /** `modified` never goes back to false while the row exists. */
  lemma {:induction false} LockIsForever(st: Store, yaml: seq<Route>, acts: seq<Act>, id: nat)
    requires ValidStore(st) && Ordinary(acts) && id in st.rows && IsLocked(st.rows[id])
    requires id in Acts(st, yaml, acts).rows
    ensures IsLocked(Acts(st, yaml, acts).rows[id])
    decreases |acts|
  {
    if acts != [] {
      assert acts[0] in acts;
      var next := Act1(st, yaml, acts[0]);
      ActOnRow(st, yaml, acts[0], id);
      if id in next.rows {
        if acts[0].Sync? { SyncOnLockedRow(yaml, acts[0].service, acts[0].routes, id, st.rows[id]); }
        LockIsForever(next, yaml, acts[1..], id);
      } else {
        GoneStaysGone(next, yaml, acts[1..], id);
      }
    }
  }

  predicate Touches(a: Act, id: nat) {
    (a.Edit? && a.target == Some(id)) || a == Delete(id)
  }

  /** The user's version wins: from the moment a row is locked, no number of syncs, of any services and
      manifests, changes anything of it but its `enabled` flag. */
  lemma {:induction false} LockedContentFrozen(st: Store, yaml: seq<Route>, acts: seq<Act>, id: nat)
    requires ValidStore(st) && Ordinary(acts) && id in st.rows && IsLocked(st.rows[id])
    requires forall a :: a in acts ==> !Touches(a, id)
    ensures id in Acts(st, yaml, acts).rows
    ensures Acts(st, yaml, acts).rows[id].(enabled := None) == st.rows[id].(enabled := None)
    decreases |acts|
  {
    if acts != [] {
      assert acts[0] in acts && forall a :: a in acts[1..] ==> a in acts;
      ActOnRow(st, yaml, acts[0], id);
      if acts[0].Sync? { SyncOnLockedRow(yaml, acts[0].service, acts[0].routes, id, st.rows[id]); }
      LockedContentFrozen(Act1(st, yaml, acts[0]), yaml, acts[1..], id);
    }
  }

  // ---- Single-field overrides -----------------------------------------------------------------------

  lemma SyncOnOverriddenField(yaml: seq<Route>, service: string, routes: seq<Route>, id: nat, row: Row, f: RouteField)
    requires Content(f) in Overrides(row)
    ensures var after := RowAfter(yaml, service, routes, id, row);
      Overrides(after) == Overrides(row) && Get(after.content, f) == Get(row.content, f)
  {
  }

  /** An edit that carries neither the field nor its release leaves it as it was. */
  lemma EditKeepsField(row: Row, model: Row, released: seq<FieldName>, f: RouteField)
    requires f !in model.content
    ensures var after := Merge(row, EditPatch(row, model, released));
      Overrides(after) == Overrides(EditPatch(row, model, released)) && Get(after.content, f) == Get(row.content, f)
  {
    var patch := EditPatch(row, model, released);
    assert patch.content == model.content;
    MergeKeepsField(row, patch, f);
  }

  lemma MergeKeepsField(row: Row, patch: Row, f: RouteField)
    requires patch.userOverrides.Some? && f !in patch.content
    ensures Overrides(Merge(row, patch)) == Overrides(patch)
    ensures Get(Merge(row, patch).content, f) == Get(row.content, f)
  {
  }

  lemma EditKeepsOverride(row: Row, body: Row, released: seq<FieldName>, f: RouteField)
    requires Content(f) in Overrides(row) && f !in body.content && Content(f) !in released
    ensures var after := Merge(row, EditPatch(row, WithKey(body), released));
      Content(f) in Overrides(after) && Get(after.content, f) == Get(row.content, f)
  {
    EditedOverride(row, WithKey(body), released, Content(f));
    EditKeepsField(row, WithKey(body), released, f);
  }

  /** The act sets the field or hands it back to the service. */
  predicate Mentions(a: Act, id: nat, f: RouteField) {
    a.Edit? && a.target == Some(id) && (f in a.body.content || Content(f) in a.released)
  }

  /** An overridden content field keeps the user's value, and stays overridden, through every run that
      does not itself edit or release that field, edits of the row's other fields included. */
  lemma {:induction false} OverridePersists(st: Store, yaml: seq<Route>, acts: seq<Act>, id: nat, f: RouteField)
    requires ValidStore(st) && Ordinary(acts) && id in st.rows && Content(f) in Overrides(st.rows[id])
    requires forall a :: a in acts ==> !Mentions(a, id, f) && a != Delete(id)
    ensures id in Acts(st, yaml, acts).rows
    ensures Content(f) in Overrides(Acts(st, yaml, acts).rows[id])
    ensures Get(Acts(st, yaml, acts).rows[id].content, f) == Get(st.rows[id].content, f)
    decreases |acts|
  {
    if acts != [] {
      var a := acts[0];
      assert a in acts && forall b :: b in acts[1..] ==> b in acts;
      ActOnRow(st, yaml, a, id);
      if a.Sync? { SyncOnOverriddenField(yaml, a.service, a.routes, id, st.rows[id], f); }
      if a.Edit? && a.target == Some(id) { EditKeepsOverride(st.rows[id], a.body, a.released, f); }
      OverridePersists(Act1(st, yaml, a), yaml, acts[1..], id, f);
    }
  }

  // ---- Everything else follows the manifest -----------------------------------------------------------

  /** A sync of an unlocked row: fields the manifest gives and the user did not override read like the
      manifest's, and any value worth the name arrives as it is; fields it leaves out keep the row's. */
  lemma ManifestFollowed(yaml: seq<Route>, service: string, routes: seq<Route>, id: nat, row: Row, key: string, f: RouteField)
    requires key in ValidKeys(routes) && key !in YamlKeys(yaml) && key != ""
    requires Holds(row, service, key) && !IsLocked(row) && Content(f) !in Overrides(row)
    requires WellFormedRoute(row.content) && WellFormedRoute(FirstRoute(routes, key))
    ensures var r, after := FirstRoute(routes, key), RowAfter(yaml, service, routes, id, row);
      && (f in r ==> ReadsSame(f, r[f], Get(after.content, f)))
      && (f in r && !Blank(f, r[f]) ==> Equivalent(r[f], Get(after.content, f)))
      && (f !in r ==> Get(after.content, f) == Get(row.content, f))
  {
    var r := FirstRoute(routes, key);
    var verdict := HeldVerdict(yaml, service, routes, id, row, key);
    if verdict.Write? {
      WrittenFollows(r, Doc(id, row), f);
    } else {
      assert verdict.Same?;
      if f in r { UnchangedFollows(r, Doc(id, row), f); }
    }
  }

  lemma WrittenFollows(r: Route, ex: Doc, f: RouteField)
    requires Content(f) !in Overrides(ex.row) && WellFormedRoute(r)
    ensures var content := ex.row.content + Merged(r, Some(ex));
      if f in r then Equivalent(r[f], Get(content, f)) else Get(content, f) == Get(ex.row.content, f)
  {
    var content := ex.row.content + Merged(r, Some(ex));
    if f in r {
      assert Get(content, f) == r[f] && WellFormed(r[f]);
      CanonicalDecides(r[f], r[f]);
    }
  }

  lemma UnchangedFollows(r: Route, ex: Doc, f: RouteField)
    requires Content(f) !in Overrides(ex.row) && f in r
    requires WellFormedRoute(r) && WellFormedRoute(ex.row.content)
    requires RouteContent(Merged(r, Some(ex))) == RouteContent(ex.row.content)
    ensures ReadsSame(f, r[f], Get(ex.row.content, f))
  {
    var written := Merged(r, Some(ex));
    assert Get(written, f) == r[f];
    RouteContentDecides(written, ex.row.content);
  }
}
