/** Access grants: `applyGrant` and `applyRevoke` on the record store, `resolveAllowed` over it, and the
    map from (user, company, resource) to a set of roles that they implement. */
module AclGrants {
  import opened Options

  /** The (companyId, resourceId) a request or a grant names. */
  datatype Context = Context(companyId: Option<string>, resourceId: Option<string>)

  datatype Grant = Grant(userId: string, target: Context, friendlyName: Option<string>, roles: seq<string>)

  datatype Role = Role(name: string, actions: seq<string>)

  /** Grant documents by id, in insertion order of ids. */
  datatype GrantStore = GrantStore(rows: map<nat, Grant>, nextId: nat)

  /** Absent and empty ids compare equal. */
  function Norm(v: Option<string>): Option<string> { if v == Some("") then None else v }

  function NormContext(c: Context): Context { Context(Norm(c.companyId), Norm(c.resourceId)) }

  predicate GrantMatchesResource(g: Grant, ctx: Context) {
    Norm(g.target.companyId) == Norm(ctx.companyId) && Norm(g.target.resourceId) == Norm(ctx.resourceId)
  }

  // ---- resolveAllowed ---------------------------------------------------------------------------

  function RoleNames(roles: seq<Role>, actions: seq<string>): set<string> {
    set i | 0 <= i < |roles| && exists a | a in roles[i].actions :: a in actions :: roles[i].name
  }

  /** The decision read from the database: some grant of the user, in scope, has a role with the action. */
  predicate ResolveAllowed(roles: seq<Role>, rows: map<nat, Grant>, userId: string, ctx: Option<Context>,
                           actions: seq<string>)
  {
    var names := RoleNames(roles, actions);
    names != {} &&
    exists id | id in rows ::
      && rows[id].userId == userId
      && (ctx.Some? ==> GrantMatchesResource(rows[id], ctx.value))
      && exists r | r in rows[id].roles :: r in names
  }

  // ---- Writes -----------------------------------------------------------------------------------

  datatype Outcome = BadRequest | NoGrant | Written(id: nat) | Removed(id: nat)

  /** `[...new Set(items)]`. */
  function Dedupe(items: seq<string>): seq<string> {
    if items == [] then []
    else
      var before := Dedupe(items[..|items| - 1]);
      if items[|items| - 1] in before then before else before + [items[|items| - 1]]
  }

  function Minus(items: seq<string>, gone: seq<string>): seq<string> {
    if items == [] then [] else (if items[0] in gone then [] else [items[0]]) + Minus(items[1..], gone)
  }

  predicate IsGrantFor(g: Grant, userId: string, ctx: Context) {
    g.userId == userId && GrantMatchesResource(g, ctx)
  }

  /** `findGrant`: the oldest record of the user that matches the resource exactly. */
  function FindGrant(rows: map<nat, Grant>, upTo: nat, userId: string, ctx: Context): (found: Option<nat>)
    ensures found.Some? ==> found.value in rows && found.value < upTo && IsGrantFor(rows[found.value], userId, ctx)
    ensures found.None? ==> forall id :: id in rows && id < upTo ==> !IsGrantFor(rows[id], userId, ctx)
  {
    if upTo == 0 then None
    else
      var before := FindGrant(rows, upTo - 1, userId, ctx);
      if before.Some? then before
      else if upTo - 1 in rows && IsGrantFor(rows[upTo - 1], userId, ctx) then Some(upTo - 1) else None
  }

  function OrElse<T>(given: Option<T>, stored: Option<T>): Option<T> { if given.Some? then given else stored }

  function ApplyGrant(st: GrantStore, known: set<string>, userId: string, roles: seq<string>, ctx: Context,
                      friendlyName: Option<string>): (GrantStore, Outcome)
  {
    if userId == "" || roles == [] || !(forall r | r in roles :: r in known) then (st, BadRequest)
    else
      var found := FindGrant(st.rows, st.nextId, userId, ctx);
      if found.Some? then
        var g := st.rows[found.value];
        var merged := Grant(g.userId, Context(OrElse(ctx.companyId, g.target.companyId), g.target.resourceId),
                            OrElse(friendlyName, g.friendlyName), Dedupe(g.roles + roles));
        (st.(rows := st.rows[found.value := merged]), Written(found.value))
      else
        (GrantStore(st.rows[st.nextId := Grant(userId, ctx, friendlyName, Dedupe(roles))], st.nextId + 1),
         Written(st.nextId))
  }

  function ApplyRevoke(st: GrantStore, userId: string, roles: seq<string>, ctx: Context): (GrantStore, Outcome) {
    if userId == "" || roles == [] then (st, BadRequest)
    else
      var found := FindGrant(st.rows, st.nextId, userId, ctx);
      if found.None? then (st, NoGrant)
      else
        var g := st.rows[found.value];
        var remaining := Minus(g.roles, roles);
        if remaining != [] then (st.(rows := st.rows[found.value := g.(roles := remaining)]), Written(found.value))
        else (st.(rows := map id | id in st.rows && id != found.value :: st.rows[id]), Removed(found.value))
  }

  // ---- What the writes leave ----------------------------------------------------------------------

  /** Two ids name the same thing: equal, or each absent or empty. */
  predicate SameId(a: Option<string>, b: Option<string>) {
    a == b || ((a.None? || a.value == "") && (b.None? || b.value == ""))
  }

  predicate IsFor(g: Grant, userId: string, ctx: Context) {
    g.userId == userId && SameId(g.target.companyId, ctx.companyId) && SameId(g.target.resourceId, ctx.resourceId)
  }

  lemma IsForExact(g: Grant, userId: string, ctx: Context)
    ensures IsGrantFor(g, userId, ctx) <==> IsFor(g, userId, ctx)
    ensures TripleOf(g) == Triple(userId, NormContext(ctx)) <==> IsFor(g, userId, ctx)
  {
  }

  ghost predicate Recorded(st: GrantStore, userId: string, ctx: Context) {
    exists id :: id in st.rows && IsFor(st.rows[id], userId, ctx)
  }

  predicate NoTwice(items: seq<string>) { forall i, j | 0 <= i < j < |items| :: items[i] != items[j] }

  /** A grant is refused exactly for want of a user, of roles, or of a known role. Otherwise the user's one
      record for the target gains the roles, each once, and takes the names given; or it is new. */
  ghost predicate Grants(before: GrantStore, after: GrantStore, known: set<string>, userId: string, roles: seq<string>,
                         ctx: Context, friendlyName: Option<string>, outcome: Outcome)
  {
    match outcome
    case BadRequest => after == before && (userId == "" || roles == [] || exists r :: r in roles && r !in known)
    case Written(id) =>
      && userId != "" && roles != [] && (forall r :: r in roles ==> r in known)
      && id in after.rows && after.rows == before.rows[id := after.rows[id]] && NoTwice(after.rows[id].roles)
      && var g := after.rows[id];
         if id in before.rows then
           && IsFor(before.rows[id], userId, ctx) && after.nextId == before.nextId
           && Elements(g.roles) == Elements(before.rows[id].roles) + Elements(roles)
           && g.userId == userId && g.target.resourceId == before.rows[id].target.resourceId
           && g.target.companyId == (if ctx.companyId.Some? then ctx.companyId else before.rows[id].target.companyId)
           && g.friendlyName == (if friendlyName.Some? then friendlyName else before.rows[id].friendlyName)
         else
           && !Recorded(before, userId, ctx) && after.nextId == before.nextId + 1
           && Elements(g.roles) == Elements(roles)
           && g.userId == userId && g.target == ctx && g.friendlyName == friendlyName
    case _ => false
  }

  /** A revoke is refused exactly for want of a user or of roles, answers that there is no grant exactly when
      none is recorded, and otherwise takes the roles from the record, or removes it when none is left. */
  ghost predicate Revokes(before: GrantStore, after: GrantStore, userId: string, roles: seq<string>, ctx: Context,
                          outcome: Outcome)
  {
    match outcome
    case BadRequest => after == before && (userId == "" || roles == [])
    case NoGrant => after == before && userId != "" && roles != [] && !Recorded(before, userId, ctx)
    case Written(id) =>
      && userId != "" && roles != []
      && id in before.rows && id in after.rows && IsFor(before.rows[id], userId, ctx)
      && after == before.(rows := before.rows[id := before.rows[id].(roles := after.rows[id].roles)])
      && Elements(after.rows[id].roles) == Elements(before.rows[id].roles) - Elements(roles) != {}
    case Removed(id) =>
      && userId != "" && roles != []
      && id in before.rows && IsFor(before.rows[id], userId, ctx)
      && after == before.(rows := before.rows - {id})
      && Elements(before.rows[id].roles) <= Elements(roles)
  }

  /** Ids are handed out in order. */
  predicate OldIds(st: GrantStore) { forall id | id in st.rows :: id < st.nextId }

  lemma FoundExact(st: GrantStore, userId: string, ctx: Context)
    requires OldIds(st)
    ensures var found := FindGrant(st.rows, st.nextId, userId, ctx);
      && (found.Some? ==> found.value in st.rows && IsFor(st.rows[found.value], userId, ctx))
      && (found.Some? <==> Recorded(st, userId, ctx))
  {
    forall id | id in st.rows ensures IsGrantFor(st.rows[id], userId, ctx) <==> IsFor(st.rows[id], userId, ctx) {
      IsForExact(st.rows[id], userId, ctx);
    }
  }

  lemma GrantEffect(st: GrantStore, known: set<string>, userId: string, roles: seq<string>, ctx: Context,
                    friendlyName: Option<string>)
    requires OldIds(st)
    ensures var r := ApplyGrant(st, known, userId, roles, ctx, friendlyName);
      Grants(st, r.0, known, userId, roles, ctx, friendlyName, r.1)
  {
    var found := FindGrant(st.rows, st.nextId, userId, ctx);
    FoundExact(st, userId, ctx);
    if userId == "" || roles == [] || !(forall r | r in roles :: r in known) {
    } else if found.Some? {
      var g := st.rows[found.value];
      DedupeElements(g.roles + roles);
      assert Elements(g.roles + roles) == Elements(g.roles) + Elements(roles);
      var after := ApplyGrant(st, known, userId, roles, ctx, friendlyName).0;
      assert after.rows[found.value].roles == Dedupe(g.roles + roles);
    } else {
      DedupeElements(roles);
      var after := ApplyGrant(st, known, userId, roles, ctx, friendlyName).0;
      assert after.rows[st.nextId].roles == Dedupe(roles);
    }
  }

  lemma RevokeEffect(st: GrantStore, userId: string, roles: seq<string>, ctx: Context)
    requires OldIds(st)
    ensures var r := ApplyRevoke(st, userId, roles, ctx); Revokes(st, r.0, userId, roles, ctx, r.1)
  {
    var found := FindGrant(st.rows, st.nextId, userId, ctx);
    FoundExact(st, userId, ctx);
    if found.Some? {
      var had := Elements(st.rows[found.value].roles);
      MinusElements(st.rows[found.value].roles, roles);
      assert (map id | id in st.rows && id != found.value :: st.rows[id]) == st.rows - {found.value};
      if had - Elements(roles) == {} {
        assert forall r :: r in had ==> r !in had - Elements(roles) ==> r in Elements(roles);
      }
    }
  }

  /** The service object over its grant repository; `invalidated` lists the users whose cached decisions
      it dropped, in order. */
  class AclManagementService {
    var grants: GrantStore
    var invalidated: seq<string>

    constructor (grants: GrantStore)
      ensures this.grants == grants && invalidated == []
    {
      this.grants, this.invalidated := grants, [];
    }

    method AdminGrant(known: set<string>, userId: string, roles: seq<string>, ctx: Context, friendlyName: Option<string>)
      returns (outcome: Outcome)
      modifies this
      ensures (grants, outcome) == ApplyGrant(old(grants), known, userId, roles, ctx, friendlyName)
      ensures OldIds(old(grants)) ==> Grants(old(grants), grants, known, userId, roles, ctx, friendlyName, outcome)
      ensures invalidated == old(invalidated) + (if outcome.BadRequest? then [] else [userId])
      ensures grants != old(grants) ==> invalidated == old(invalidated) + [userId]
    {
      if OldIds(grants) { GrantEffect(grants, known, userId, roles, ctx, friendlyName); }
      if userId == "" || |roles| == 0 { return BadRequest; }
      if exists r | r in roles :: r !in known { return BadRequest; }
      var existing := FindGrant(grants.rows, grants.nextId, userId, ctx);
      if existing.Some? {
        var g := grants.rows[existing.value];
        var merged := Dedupe(g.roles + roles);
        var companyId := if ctx.companyId.Some? then ctx.companyId else g.target.companyId;
        var name := if friendlyName.Some? then friendlyName else g.friendlyName;
        grants := grants.(rows := grants.rows[existing.value :=
          g.(roles := merged, target := g.target.(companyId := companyId), friendlyName := name)]);
        outcome := Written(existing.value);
      } else {
        outcome := Written(grants.nextId);
        grants := GrantStore(grants.rows[grants.nextId := Grant(userId, ctx, friendlyName, Dedupe(roles))],
                             grants.nextId + 1);
      }
      invalidated := invalidated + [userId];
    }

    method AdminRevoke(userId: string, roles: seq<string>, ctx: Context) returns (outcome: Outcome)
      modifies this
      ensures (grants, outcome) == ApplyRevoke(old(grants), userId, roles, ctx)
      ensures OldIds(old(grants)) ==> Revokes(old(grants), grants, userId, roles, ctx, outcome)
      ensures invalidated == old(invalidated) + (if outcome.Written? || outcome.Removed? then [userId] else [])
      ensures grants != old(grants) ==> invalidated == old(invalidated) + [userId]
      ensures OldIds(old(grants)) && userId != "" && roles != [] ==>
        (invalidated == old(invalidated) + [userId] <==> Recorded(old(grants), userId, ctx))
    {
      if OldIds(grants) { RevokeEffect(grants, userId, roles, ctx); }
      if userId == "" || |roles| == 0 { return BadRequest; }
      var existing := FindGrant(grants.rows, grants.nextId, userId, ctx);
      if existing.None? { return NoGrant; }
      var g := grants.rows[existing.value];
      var remaining := Minus(g.roles, roles);
      if |remaining| > 0 {
        grants := grants.(rows := grants.rows[existing.value := g.(roles := remaining)]);
        outcome := Written(existing.value);
      } else {
        grants := grants.(rows := map id | id in grants.rows && id != existing.value :: grants.rows[id]);
        outcome := Removed(existing.value);
      }
      invalidated := invalidated + [userId];
    }
  }

  // ---- The abstract access table ------------------------------------------------------------------

  datatype Triple = Triple(user: string, target: Context)

  type Access = map<Triple, set<string>>

  function TripleOf(g: Grant): Triple { Triple(g.userId, NormContext(g.target)) }

  function Elements(items: seq<string>): set<string> { set r | r in items }

  ghost predicate ValidGrants(st: GrantStore) {
    && (forall id :: id in st.rows ==> id < st.nextId && st.rows[id].roles != [])
    && (forall i, j :: i in st.rows && j in st.rows && i != j ==> TripleOf(st.rows[i]) != TripleOf(st.rows[j]))
  }

  ghost predicate Shows(access: Access, st: GrantStore) {
    && (forall id :: id in st.rows ==> TripleOf(st.rows[id]) in access)
    && (forall id :: id in st.rows ==> access[TripleOf(st.rows[id])] == Elements(st.rows[id].roles))
    && (forall t :: t in access ==> HasRecord(st, t))
  }

  ghost predicate HasRecord(st: GrantStore, t: Triple) { exists id :: id in st.rows && TripleOf(st.rows[id]) == t }

  datatype Op =
    | GrantRoles(user: string, roles: seq<string>, target: Context, friendlyName: Option<string>)
    | RevokeRoles(user: string, roles: seq<string>, target: Context)

  function Concrete(st: GrantStore, known: set<string>, op: Op): GrantStore {
    match op
    case GrantRoles(user, roles, target, name) => ApplyGrant(st, known, user, roles, target, name).0
    case RevokeRoles(user, roles, target) => ApplyRevoke(st, user, roles, target).0
  }

  function RolesAt(access: Access, t: Triple): set<string> { if t in access then access[t] else {} }

  /** Grant is union, revoke is difference, and an empty role set is no entry. */
  function Abstract(access: Access, known: set<string>, op: Op): Access {
    var t := Triple(op.user, NormContext(op.target));
    if op.user == "" || op.roles == [] then access
    else match op
      case GrantRoles(_, roles, _, _) =>
        if Elements(roles) <= known then access[t := RolesAt(access, t) + Elements(roles)] else access
      case RevokeRoles(_, roles, _) =>
        var left := RolesAt(access, t) - Elements(roles);
        if left == {} then access - {t} else access[t := left]
  }

  lemma {:induction false} DedupeElements(items: seq<string>)
    ensures Elements(Dedupe(items)) == Elements(items) && (items != [] ==> Dedupe(items) != []) && NoTwice(Dedupe(items))
  {
    if items != [] {
      var n := |items| - 1;
      DedupeElements(items[..n]);
      assert items == items[..n] + [items[n]];
      assert Elements(items) == Elements(items[..n]) + {items[n]};
      var before := Dedupe(items[..n]);
      if items[n] in before {
        assert items[n] in Elements(before);
      } else {
        assert Elements(before + [items[n]]) == Elements(before) + {items[n]};
      }
    }
  }

  lemma {:induction false} MinusElements(items: seq<string>, gone: seq<string>)
    ensures Elements(Minus(items, gone)) == Elements(items) - Elements(gone)
    ensures Minus(items, gone) == [] <==> Elements(items) - Elements(gone) == {}
  {
    if items != [] {
      MinusElements(items[1..], gone);
      var rest := Minus(items[1..], gone);
      assert Elements(items) == {items[0]} + Elements(items[1..]) by { assert items == [items[0]] + items[1..]; }
      if items[0] !in gone {
        assert Elements([items[0]] + rest) == {items[0]} + Elements(rest);
        assert items[0] in Elements(items) - Elements(gone);
      }
    }
  }

  /** `findGrant` finds the one record of a triple, or there is none. */
  lemma FindGrantIsLookup(st: GrantStore, access: Access, userId: string, ctx: Context)
    requires ValidGrants(st) && Shows(access, st)
    ensures var found, t := FindGrant(st.rows, st.nextId, userId, ctx), Triple(userId, NormContext(ctx));
      && (found.Some? ==> found.value in st.rows && TripleOf(st.rows[found.value]) == t)
      && (found.Some? <==> t in access)
  {
    var found, t := FindGrant(st.rows, st.nextId, userId, ctx), Triple(userId, NormContext(ctx));
    forall id | id in st.rows ensures IsGrantFor(st.rows[id], userId, ctx) <==> TripleOf(st.rows[id]) == t {
    }
    if t in access { assert HasRecord(st, t); }
  }

  /** Triples already recorded stay recorded when the record they are in keeps its triple. */
  lemma RecordsKept(st: GrantStore, access: Access, id: nat, g: Grant)
    requires forall t :: t in access ==> HasRecord(st, t)
    requires id in st.rows ==> TripleOf(g) == TripleOf(st.rows[id])
    ensures forall t :: t in access || t == TripleOf(g) ==> HasRecord(st.(rows := st.rows[id := g]), t)
  {
    var after := st.(rows := st.rows[id := g]);
    assert TripleOf(after.rows[id]) == TripleOf(g);
    forall t | t in access ensures HasRecord(after, t) {
      assert HasRecord(st, t);
      var i :| i in st.rows && TripleOf(st.rows[i]) == t;
      assert TripleOf(after.rows[i]) == t;
    }
  }

  lemma ReplaceRecord(st: GrantStore, access: Access, id: nat, g: Grant)
    requires ValidGrants(st) && Shows(access, st) && id in st.rows && g.roles != []
    requires TripleOf(g) == TripleOf(st.rows[id])
    ensures ValidGrants(st.(rows := st.rows[id := g]))
    ensures Shows(access[TripleOf(g) := Elements(g.roles)], st.(rows := st.rows[id := g]))
  {
    RecordsKept(st, access, id, g);
  }

  lemma AddRecord(st: GrantStore, access: Access, g: Grant)
    requires ValidGrants(st) && Shows(access, st) && g.roles != [] && TripleOf(g) !in access
    ensures var after := GrantStore(st.rows[st.nextId := g], st.nextId + 1);
      ValidGrants(after) && Shows(access[TripleOf(g) := Elements(g.roles)], after)
  {
    var after := GrantStore(st.rows[st.nextId := g], st.nextId + 1);
    RecordsKept(st, access, st.nextId, g);
    forall t | t in access || t == TripleOf(g) ensures HasRecord(after, t) {
      assert HasRecord(st.(rows := st.rows[st.nextId := g]), t);
    }
  }

  lemma DropRecord(st: GrantStore, access: Access, id: nat)
    requires ValidGrants(st) && Shows(access, st) && id in st.rows
    ensures var after := st.(rows := map i | i in st.rows && i != id :: st.rows[i]);
      ValidGrants(after) && Shows(access - {TripleOf(st.rows[id])}, after)
  {
    var after := st.(rows := map i | i in st.rows && i != id :: st.rows[i]);
    forall t | t in access - {TripleOf(st.rows[id])} ensures HasRecord(after, t) {
      assert HasRecord(st, t);
      var i :| i in st.rows && TripleOf(st.rows[i]) == t;
      assert i in after.rows;
    }
  }

  /** One grant or revoke on the records is one union or difference on the table. */
  lemma OpRefines(st: GrantStore, access: Access, known: set<string>, op: Op)
    requires ValidGrants(st) && Shows(access, st)
    ensures ValidGrants(Concrete(st, known, op)) && Shows(Abstract(access, known, op), Concrete(st, known, op))
  {
    var t := Triple(op.user, NormContext(op.target));
    FindGrantIsLookup(st, access, op.user, op.target);
    var found := FindGrant(st.rows, st.nextId, op.user, op.target);
    match op
    case GrantRoles(user, roles, target, name) =>
      assert Elements(roles) <= known <==> forall r :: r in roles ==> r in known;
      if user != "" && roles != [] && Elements(roles) <= known {
        GrantRefines(st, access, known, op);
      }
    case RevokeRoles(user, roles, target) =>
      if user != "" && roles != [] {
        if found.Some? {
          var g := st.rows[found.value];
          MinusElements(g.roles, roles);
          assert RolesAt(access, t) == Elements(g.roles);
          if Minus(g.roles, roles) != [] {
            ReplaceRecord(st, access, found.value, g.(roles := Minus(g.roles, roles)));
          } else {
            DropRecord(st, access, found.value);
          }
        } else {
          assert access - {t} == access;
        }
      }
  }

  lemma GrantRefines(st: GrantStore, access: Access, known: set<string>, op: Op)
    requires ValidGrants(st) && Shows(access, st) && op.GrantRoles?
    requires op.user != "" && op.roles != [] && Elements(op.roles) <= known
    ensures ValidGrants(Concrete(st, known, op)) && Shows(Abstract(access, known, op), Concrete(st, known, op))
  {
    assert forall r :: r in op.roles ==> r in Elements(op.roles);
    FindGrantIsLookup(st, access, op.user, op.target);
    var found := FindGrant(st.rows, st.nextId, op.user, op.target);
    if found.Some? {
      var g := st.rows[found.value];
      DedupeElements(g.roles + op.roles);
      assert Elements(g.roles + op.roles) == Elements(g.roles) + Elements(op.roles);
      var merged := Grant(g.userId, Context(OrElse(op.target.companyId, g.target.companyId), g.target.resourceId),
                          OrElse(op.friendlyName, g.friendlyName), Dedupe(g.roles + op.roles));
      assert TripleOf(merged) == TripleOf(g);
      ReplaceRecord(st, access, found.value, merged);
    } else {
      DedupeElements(op.roles);
      AddRecord(st, access, Grant(op.user, op.target, op.friendlyName, Dedupe(op.roles)));
    }
  }

  function ConcreteRun(st: GrantStore, known: set<string>, ops: seq<Op>): GrantStore
    decreases |ops|
  {
    if ops == [] then st else ConcreteRun(Concrete(st, known, ops[0]), known, ops[1..])
  }

  function AbstractRun(access: Access, known: set<string>, ops: seq<Op>): Access
    decreases |ops|
  {
    if ops == [] then access else AbstractRun(Abstract(access, known, ops[0]), known, ops[1..])
  }

  /** Over every run of grants and revokes the records are exactly the table: one record per triple,
      never an empty one. */
  lemma {:induction false} RunRefines(st: GrantStore, access: Access, known: set<string>, ops: seq<Op>)
    requires ValidGrants(st) && Shows(access, st)
    ensures ValidGrants(ConcreteRun(st, known, ops))
    ensures Shows(AbstractRun(access, known, ops), ConcreteRun(st, known, ops))
    decreases |ops|
  {
    if ops != [] {
      OpRefines(st, access, known, ops[0]);
      RunRefines(Concrete(st, known, ops[0]), Abstract(access, known, ops[0]), known, ops[1..]);
    }
  }

  /** The table lets the user do one of the actions in the context (any context when there is none). */
  ghost predicate Permits(access: Access, roles: seq<Role>, userId: string, ctx: Option<Context>, actions: seq<string>) {
    exists t, r, a :: t in access && t.user == userId && (ctx.Some? ==> t.target == NormContext(ctx.value))
      && r in access[t] && a in actions && Carries(roles, r, a)
  }

  ghost predicate Carries(roles: seq<Role>, name: string, action: string) {
    exists i :: 0 <= i < |roles| && roles[i].name == name && action in roles[i].actions
  }

  /** `resolveAllowed` on the records is the table's own answer. */
  lemma ResolveIsPermits(st: GrantStore, access: Access, roles: seq<Role>, userId: string, ctx: Option<Context>,
                         actions: seq<string>)
    requires Shows(access, st)
    ensures ResolveAllowed(roles, st.rows, userId, ctx, actions) <==> Permits(access, roles, userId, ctx, actions)
  {
    var names := RoleNames(roles, actions);
    if ResolveAllowed(roles, st.rows, userId, ctx, actions) {
      var id :| id in st.rows && st.rows[id].userId == userId
        && (ctx.Some? ==> GrantMatchesResource(st.rows[id], ctx.value))
        && exists r :: r in st.rows[id].roles && r in names;
      var r :| r in st.rows[id].roles && r in names;
      var i :| 0 <= i < |roles| && roles[i].name == r && exists a :: a in roles[i].actions && a in actions;
      var a :| a in roles[i].actions && a in actions;
      var t := TripleOf(st.rows[id]);
      assert t in access && r in access[t] && Carries(roles, r, a);
    }
    if Permits(access, roles, userId, ctx, actions) {
      var t, r, a :| t in access && t.user == userId && (ctx.Some? ==> t.target == NormContext(ctx.value))
        && r in access[t] && a in actions && Carries(roles, r, a);
      assert HasRecord(st, t);
      var id :| id in st.rows && TripleOf(st.rows[id]) == t;
      assert r in st.rows[id].roles && r in names;
    }
  }
}
