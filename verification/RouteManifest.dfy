/** Route content: the fields that define how the gateway serves a route, their canonical text, the
    identity `METHOD path`, and how a user's per-field overrides survive a manifest. */
module RouteManifest {
  import opened Options
  import opened Ordering
  import opened CanonicalJson
  import opened Words

  /** The behaviour-defining fields, in the order `canonicalRoute` lists them. */
  datatype RouteField =
    | Name | Method | Path | DataSource | Topic | Action | Mode | Auth | AllowAnonymous | Actions
    | SuccessStatusCode | Timeout | ParseRaw | Binary | Redirect | Headers | ForwardHeaders

  /** A name in `userOverrides`: the `enabled` flag or a content field. */
  datatype FieldName = Enabled | Content(field: RouteField)

  /** The content fields a route object carries; a missing key is an absent property. */
  type Route = map<RouteField, Json>

  const ROUTE_FIELDS: seq<RouteField> :=
    [ Name, Method, Path, DataSource, Topic, Action, Mode, Auth, AllowAnonymous, Actions,
      SuccessStatusCode, Timeout, ParseRaw, Binary, Redirect, Headers, ForwardHeaders ]

  const USER_OVERRIDABLE_FIELDS: set<FieldName> :=
    { Enabled, Content(Actions), Content(AllowAnonymous), Content(Timeout), Content(Redirect),
      Content(SuccessStatusCode) }

  function Position(f: RouteField): (i: nat)
    ensures i < |ROUTE_FIELDS| && ROUTE_FIELDS[i] == f
  {
    match f
    case Name => 0 case Method => 1 case Path => 2 case DataSource => 3 case Topic => 4
    case Action => 5 case Mode => 6 case Auth => 7 case AllowAnonymous => 8 case Actions => 9
    case SuccessStatusCode => 10 case Timeout => 11 case ParseRaw => 12 case Binary => 13
    case Redirect => 14 case Headers => 15 case ForwardHeaders => 16
  }

  function Label(f: RouteField): string {
    match f
    case Name => "name" case Method => "method" case Path => "path" case DataSource => "dataSource"
    case Topic => "topic" case Action => "action" case Mode => "mode" case Auth => "auth"
    case AllowAnonymous => "allowAnonymous" case Actions => "actions"
    case SuccessStatusCode => "successStatusCode" case Timeout => "timeout"
    case ParseRaw => "parseRaw" case Binary => "binary" case Redirect => "redirect"
    case Headers => "headers" case ForwardHeaders => "forwardHeaders"
  }

  function Get(r: Route, f: RouteField): Json { if f in r then r[f] else Absent }

  ghost predicate WellFormedRoute(r: Route) {
    forall f :: f in r ==> WellFormed(r[f])
  }

  // ---- Identity and validity ------------------------------------------------------------------

  function Text(r: Route, f: RouteField): string {
    if Get(r, f).Str? then Get(r, f).s else ""
  }

  function Upper(c: char): char { if 'a' <= c <= 'z' then 'A' + (c - 'a') else c }

  function ToUpper(s: string): (t: string)
    ensures |t| == |s| && forall i :: 0 <= i < |s| ==> t[i] == Upper(s[i])
  {
    seq(|s|, i requires 0 <= i < |s| => Upper(s[i]))
  }

  /** `METHOD path`. */
  function RouteKeyOf(r: Route): (key: string)
    ensures key != ""
  {
    ToUpper(Text(r, Method)) + " " + Text(r, Path)
  }

  /** JavaScript truthiness of a route field. */
  predicate Truthy(v: Json) {
    match v
    case Null => false
    case Absent => false
    case Bool(b) => b
    case Num(t) => t != "0"
    case Str(s) => s != ""
    case _ => true
  }

  predicate IsValidRoute(r: Route) {
    && Truthy(Get(r, Method)) && Truthy(Get(r, Path)) && Truthy(Get(r, Topic)) && Truthy(Get(r, Action))
    && (Get(r, Mode) == Str("rpc") || Get(r, Mode) == Str("event"))
  }

  /** The values a field may not have for its route to be valid. */
  lemma TruthyExact(v: Json)
    ensures !Truthy(v) <==> v in {Null, Absent, Bool(false), Num("0"), Str("")}
  {
  }

  /** A valid route has a method, a path, a topic and an action, none of them falsy, and one of two modes. */
  lemma ValidExact(r: Route)
    ensures IsValidRoute(r) <==>
      && (forall f :: f in {Method, Path, Topic, Action} ==> f in r && r[f] !in {Null, Absent, Bool(false), Num("0"), Str("")})
      && Mode in r && r[Mode] in {Str("rpc"), Str("event")}
  {
    if forall f :: f in {Method, Path, Topic, Action} ==> f in r && r[f] !in {Null, Absent, Bool(false), Num("0"), Str("")} {
      assert Method in r && Path in r && Topic in r && Action in r;
    }
  }

  /** The key's text, letter by letter: the method with its small letters made capital, a blank, the path. */
  lemma RouteKeyText(r: Route, m: string, p: string)
    requires Get(r, Method) == Str(m) && Get(r, Path) == Str(p)
    ensures var key := RouteKeyOf(r);
      && |key| == |m| + 1 + |p| && key[|m|] == ' ' && key[|m| + 1..] == p
      && forall i :: 0 <= i < |m| ==>
           if 'a' <= m[i] <= 'z' then key[i] as int == m[i] as int - 32 else key[i] == m[i]
  {
    var key := RouteKeyOf(r);
    assert key == ToUpper(m) + " " + p;
  }

  /** The same letters, capital or small. */
  predicate SameLetter(c: char, d: char) {
    c == d || ('a' <= c <= 'z' && c as int - d as int == 32) || ('a' <= d <= 'z' && d as int - c as int == 32)
  }

  predicate SameLetters(m: string, n: string) { |m| == |n| && forall i | 0 <= i < |m| :: SameLetter(m[i], n[i]) }

  /** Two routes have one key exactly when they have one path and, letter case aside, one method. */
  lemma SameRouteKeyIff(a: Route, b: Route, m: string, n: string, p: string, q: string)
    requires Get(a, Method) == Str(m) && Get(a, Path) == Str(p) && Free(m, ' ')
    requires Get(b, Method) == Str(n) && Get(b, Path) == Str(q) && Free(n, ' ')
    ensures RouteKeyOf(a) == RouteKeyOf(b) <==> SameLetters(m, n) && p == q
  {
    assert RouteKeyOf(a) == ToUpper(m) + [' '] + p && RouteKeyOf(b) == ToUpper(n) + [' '] + q;
    if RouteKeyOf(a) == RouteKeyOf(b) { CutUnique(ToUpper(m), ToUpper(n), ' ', p, q); }
    if |m| == |n| {
      forall i | 0 <= i < |m| ensures ToUpper(m)[i] == ToUpper(n)[i] <==> SameLetter(m[i], n[i]) { }
      assert ToUpper(m) == ToUpper(n) <==> SameLetters(m, n);
    }
  }

  // ---- Canonical content ------------------------------------------------------------------------

  function OrDefault(v: Json, default: Json): Json { if Nullish(v) then default else v }

  /** The value `canonicalRoute` gives a field: the property, or its default when there is one. */
  function CanonicalField(r: Route, f: RouteField): Json {
    match f
    case Name => Get(r, f) case Method => Get(r, f) case Path => Get(r, f) case DataSource => Get(r, f)
    case Topic => Get(r, f) case Action => Get(r, f) case Mode => Get(r, f)
    case Actions => OrDefault(Get(r, f), Arr([]))
    case Headers => OrDefault(Get(r, f), Obj([]))
    case ForwardHeaders => OrDefault(Get(r, f), Obj([]))
    case _ => OrDefault(Get(r, f), Null)
  }

  function CanonicalRoute(r: Route): Json {
    Obj(seq(|ROUTE_FIELDS|, i requires 0 <= i < |ROUTE_FIELDS| =>
      Field(Label(ROUTE_FIELDS[i]), CanonicalField(r, ROUTE_FIELDS[i]))))
  }

  function RouteContent(r: Route): string { StableStringify(CanonicalRoute(r)) }

  /** The values that count as an absent field: none at all, and for the three structured fields the empty
      list or object. */
  predicate Blank(f: RouteField, v: Json) {
    || v.Null? || v.Absent?
    || (f == Actions && v == Arr([]))
    || ((f == Headers || f == ForwardHeaders) && v == Obj([]))
  }

  ghost predicate ReadsSame(f: RouteField, v: Json, w: Json) { Equivalent(v, w) || (Blank(f, v) && Blank(f, w)) }

  /** Same behaviour, on the values the two routes carry: every field reads the same. */
  ghost predicate SameContent(a: Route, b: Route) {
    forall f :: ReadsSame(f, Get(a, f), Get(b, f))
  }

  lemma CanonicalReads(a: Route, b: Route, f: RouteField)
    ensures Equivalent(CanonicalField(a, f), CanonicalField(b, f)) <==> ReadsSame(f, Get(a, f), Get(b, f))
  {
    var v, w := Get(a, f), Get(b, f);
    if f == Actions {
      ListReads(v, w);
    } else if f == Headers || f == ForwardHeaders {
      ObjectReads(v, w);
    } else {
      PlainReads(a, b, f);
    }
  }

  lemma PlainReads(a: Route, b: Route, f: RouteField)
    requires f !in {Actions, Headers, ForwardHeaders}
    ensures Equivalent(CanonicalField(a, f), CanonicalField(b, f)) <==> Equivalent(Get(a, f), Get(b, f))
  {
  }

  lemma ListReads(v: Json, w: Json)
    ensures Equivalent(OrDefault(v, Arr([])), OrDefault(w, Arr([]))) <==> ReadsSame(Actions, v, w)
  {
  }

  lemma ObjectReads(v: Json, w: Json)
    ensures Equivalent(OrDefault(v, Obj([])), OrDefault(w, Obj([]))) <==> ReadsSame(Headers, v, w)
  {
    if v.Obj? { assert v.fields != [] ==> v.fields[0].key in Keys(v.fields); }
    if w.Obj? { assert w.fields != [] ==> w.fields[0].key in Keys(w.fields); }
    assert Keys([]) == [];
  }

  lemma LabelsDistinct(f: RouteField, g: RouteField)
    requires Label(f) == Label(g)
    ensures f == g
  {
    var x, y := Label(f), Label(g);
    assert |x| == |y| && x[0] == y[0] && x[1] == y[1] && x[2] == y[2];
  }

  lemma CanonicalKeysDistinct(r: Route)
    ensures var keys := Keys(CanonicalRoute(r).fields); forall i, j :: 0 <= i < j < |keys| ==> keys[i] != keys[j]
  {
    var keys := Keys(CanonicalRoute(r).fields);
    forall i, j | 0 <= i < j < |keys| ensures keys[i] != keys[j] {
      if keys[i] == keys[j] { LabelsDistinct(ROUTE_FIELDS[i], ROUTE_FIELDS[j]); }
    }
  }

  lemma CanonicalRouteWellFormed(r: Route)
    requires WellFormedRoute(r)
    ensures WellFormed(CanonicalRoute(r))
  {
    var fields := CanonicalRoute(r).fields;
    CanonicalKeysDistinct(r);
    forall i | 0 <= i < |fields| ensures WellFormed(fields[i].value) {
      assert WellFormed(Get(r, ROUTE_FIELDS[i]));
    }
  }

  lemma CanonicalEquivalence(a: Route, b: Route)
    ensures Equivalent(CanonicalRoute(a), CanonicalRoute(b)) <==> SameContent(a, b)
  {
    var ca, cb := CanonicalRoute(a), CanonicalRoute(b);
    var xs, ys := ca.fields, cb.fields;
    assert Keys(xs) == Keys(ys);
    forall f ensures Equivalent(CanonicalField(a, f), CanonicalField(b, f)) <==> ReadsSame(f, Get(a, f), Get(b, f)) {
      CanonicalReads(a, b, f);
    }
    if SameContent(a, b) {
      forall i, j | 0 <= i < |xs| && 0 <= j < |ys| && xs[i].key == ys[j].key
        ensures Equivalent(xs[i].value, ys[j].value)
      {
        LabelsDistinct(ROUTE_FIELDS[i], ROUTE_FIELDS[j]);
      }
    }
    if Equivalent(ca, cb) {
      forall f ensures ReadsSame(f, Get(a, f), Get(b, f)) {
        var i := Position(f);
        assert xs[i].value == CanonicalField(a, f) && ys[i].value == CanonicalField(b, f);
      }
    }
  }

  /** Comparing the two content strings, as the diff does, decides whether the routes behave alike: every
      one of the seventeen fields carries an equivalent value in both, or none worth the name in either. */
  lemma RouteContentDecides(a: Route, b: Route)
    requires WellFormedRoute(a) && WellFormedRoute(b)
    ensures RouteContent(a) == RouteContent(b) <==> SameContent(a, b)
  {
    CanonicalRouteWellFormed(a);
    CanonicalRouteWellFormed(b);
    var ca, cb := CanonicalRoute(a), CanonicalRoute(b);
    StringifyDecidesEquivalence(ca, cb);
    CanonicalEquivalence(a, b);
  }

  // ---- Per-field user overrides -------------------------------------------------------------------

  function OverriddenFields(names: seq<FieldName>): (fields: set<RouteField>)
    ensures forall f :: f in fields <==> Content(f) in names
  {
    set i | 0 <= i < |names| && names[i].Content? :: names[i].field
  }

  /** The incoming route with the stored value on every overridden content field. */
  function Overridden(incoming: Route, stored: Route, names: seq<FieldName>): Route {
    map f | f in incoming.Keys + OverriddenFields(names) ::
      if f in OverriddenFields(names) then Get(stored, f) else incoming[f]
  }

  lemma OverrideOneMore(incoming: Route, stored: Route, names: seq<FieldName>, name: FieldName)
    ensures Overridden(incoming, stored, names + [name]) == if name.Enabled? then Overridden(incoming, stored, names)
      else Overridden(incoming, stored, names)[name.field := Get(stored, name.field)]
  {
    assert OverriddenFields(names + [name])
        == OverriddenFields(names) + (if name.Enabled? then {} else {name.field});
  }

  method ApplyUserOverrides(incoming: Route, existing: Option<Route>, userOverrides: seq<FieldName>)
    returns (merged: Route)
    ensures existing.None? ==> merged == incoming
    ensures existing.Some? ==> merged == Overridden(incoming, existing.value, userOverrides)
  {
    if |userOverrides| == 0 || existing.None? {
      merged := incoming;
      return;
    }
    merged := incoming;
    for i := 0 to |userOverrides|
      invariant merged == Overridden(incoming, existing.value, userOverrides[..i])
    {
      var name := userOverrides[i];
      OverrideOneMore(incoming, existing.value, userOverrides[..i], name);
      assert userOverrides[..i + 1] == userOverrides[..i] + [name];
      if name.Enabled? { continue; }
      merged := merged[name.field := Get(existing.value, name.field)];
    }
    assert userOverrides[..|userOverrides|] == userOverrides;
  }

  // ---- Which fields changed -------------------------------------------------------------------------

  predicate FieldChanged(before: Route, after: Route, f: RouteField) {
    StableStringify(Get(before, f)) != StableStringify(Get(after, f))
  }

  /** On real values the texts differ exactly when the values do. */
  lemma FieldChangedIff(before: Route, after: Route, f: RouteField)
    requires WellFormedRoute(before) && WellFormedRoute(after)
    ensures FieldChanged(before, after, f) <==> !Equivalent(Get(before, f), Get(after, f))
  {
    StringifyDecidesEquivalence(Get(before, f), Get(after, f));
  }

  /** The fields `diffRouteFields` reports, in field order. */
  function ChangedFields(before: Route, after: Route): seq<RouteField> {
    Select(f => FieldChanged(before, after, f), ROUTE_FIELDS)
  }

  lemma ChangedFieldsExact(before: Route, after: Route, f: RouteField)
    ensures f in ChangedFields(before, after) <==> FieldChanged(before, after, f)
  {
    SelectMember(f => FieldChanged(before, after, f), ROUTE_FIELDS, f);
    assert ROUTE_FIELDS[Position(f)] in ROUTE_FIELDS;
  }

  method DiffRouteFields(before: Route, after: Route) returns (changed: seq<RouteField>)
    ensures changed == ChangedFields(before, after)
  {
    changed := [];
    var report := f => FieldChanged(before, after, f);
    for i := 0 to |ROUTE_FIELDS|
      invariant changed == Select(report, ROUTE_FIELDS[..i])
    {
      assert ROUTE_FIELDS[..i + 1] == ROUTE_FIELDS[..i] + [ROUTE_FIELDS[i]];
      SelectConcat(report, ROUTE_FIELDS[..i], [ROUTE_FIELDS[i]]);
      if StableStringify(Get(before, ROUTE_FIELDS[i])) == StableStringify(Get(after, ROUTE_FIELDS[i])) {
        continue;
      }
      changed := changed + [ROUTE_FIELDS[i]];
    }
    assert ROUTE_FIELDS[..|ROUTE_FIELDS|] == ROUTE_FIELDS;
  }
}
