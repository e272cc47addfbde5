/** The shared store of gateway routes, by its repository contract: rows by id, ids never reused, a
    unique index on `routeKey` whose violation is a conflict, and `updateById` as a merge. */
module RouteStore {
  import opened Options
  import opened RouteManifest

  datatype Source = Microservice | User

  /** A stored route, and also a patch for one: every property is optional. */
  datatype Row = Row(
    content: Route,
    enabled: Option<bool>,
    owner: Option<string>,
    routeKey: Option<string>,
    source: Option<Source>,
    modified: Option<bool>,
    userOverrides: Option<seq<FieldName>>)

  const EMPTY_PATCH := Row(map[], None, None, None, None, None, None)

  /** A row together with its `_id`. */
  datatype Doc = Doc(id: nat, row: Row)

  datatype Store = Store(rows: map<nat, Row>, nextId: nat)

  predicate IsEnabled(r: Row) { r.enabled != Some(false) }

  predicate IsLocked(r: Row) { r.modified == Some(true) }

  /** `owner ?? 'manual'`. */
  function OwnerName(r: Row): string { if r.owner.Some? then r.owner.value else "manual" }

  function Overrides(r: Row): seq<FieldName> {
    if r.userOverrides.Some? then r.userOverrides.value else []
  }

  function Either<T>(patch: Option<T>, stored: Option<T>): Option<T> {
    if patch.Some? then patch else stored
  }

  /** `{ ...row, ...patch }`. */
  function Merge(row: Row, patch: Row): Row {
    Row(row.content + patch.content, Either(patch.enabled, row.enabled), Either(patch.owner, row.owner),
        Either(patch.routeKey, row.routeKey), Either(patch.source, row.source),
        Either(patch.modified, row.modified), Either(patch.userOverrides, row.userOverrides))
  }

  // ---- The unique index ---------------------------------------------------------------------------

  /** Some row other than `except` already holds this key. */
  predicate Taken(st: Store, key: Option<string>, except: Option<nat>) {
    key.Some? && exists id | id in st.rows :: Some(id) != except && st.rows[id].routeKey == key
  }

  ghost predicate UniqueKeys(st: Store) {
    forall i, j :: i in st.rows && j in st.rows && st.rows[i].routeKey.Some? && i != j
      ==> st.rows[i].routeKey != st.rows[j].routeKey
  }

  ghost predicate ValidStore(st: Store) {
    (forall id :: id in st.rows ==> id < st.nextId) && UniqueKeys(st)
  }

  // ---- Writes -------------------------------------------------------------------------------------

  datatype Outcome = Written(id: nat) | Missing | Conflict

  function InsertRow(st: Store, model: Row): (r: (Store, Outcome))
    requires ValidStore(st)
    ensures ValidStore(r.0)
  {
    if Taken(st, model.routeKey, None) then (st, Conflict)
    else (Store(st.rows[st.nextId := model], st.nextId + 1), Written(st.nextId))
  }

  function UpdateRow(st: Store, id: nat, patch: Row): (r: (Store, Outcome))
    requires ValidStore(st)
    ensures ValidStore(r.0)
  {
    if id !in st.rows then (st, Missing)
    else
      var row := Merge(st.rows[id], patch);
      if Taken(st, row.routeKey, Some(id)) then (st, Conflict)
      else (st.(rows := st.rows[id := row]), Written(id))
  }

  function RemoveRow(st: Store, id: nat): (r: Store)
    requires ValidStore(st)
    ensures ValidStore(r)
  {
    st.(rows := map i | i in st.rows && i != id :: st.rows[i])
  }

  // ---- Reads ----------------------------------------------------------------------------------------

  /** The rows `keep` accepts, oldest first, as `filter` lists them. */
  function Scan(st: Store, keep: Row -> bool, upTo: nat): (docs: seq<Doc>)
    ensures forall d :: d in docs <==> d.id < upTo && d.id in st.rows && st.rows[d.id] == d.row && keep(d.row)
    ensures forall i, j :: 0 <= i < j < |docs| ==> docs[i].id < docs[j].id
  {
    if upTo == 0 then []
    else
      var before := Scan(st, keep, upTo - 1);
      if upTo - 1 in st.rows && keep(st.rows[upTo - 1])
      then before + [Doc(upTo - 1, st.rows[upTo - 1])]
      else before
  }

  function FindByOwner(st: Store, owner: string): seq<Doc> {
    Scan(st, (r: Row) => r.owner == Some(owner), st.nextId)
  }

  function FindByRouteKey(st: Store, key: string): seq<Doc> {
    Scan(st, (r: Row) => r.routeKey == Some(key), st.nextId)
  }

  /** First row of the list whose owner (or 'manual') is, or is not, `service`. */
  function FindOwned(docs: seq<Doc>, service: string, mine: bool): (found: Option<Doc>)
    ensures found.Some? ==> found.value in docs && (OwnerName(found.value.row) == service) == mine
    ensures found.None? ==> forall d :: d in docs ==> (OwnerName(d.row) == service) != mine
  {
    if docs == [] then None
    else if (OwnerName(docs[0].row) == service) == mine then Some(docs[0])
    else FindOwned(docs[1..], service, mine)
  }
}
