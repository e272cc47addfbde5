/** The string keys of the decision cache: when two checks share a key, and what invalidating a user
    removes. */
module AclKeys {
  import opened Options
  import opened Ordering
  import opened Words
  import opened AclGrants

  /** One authorization question. */
  datatype Query = Query(userId: string, ctx: Option<Context>, actions: seq<string>)

  function IdText(id: Option<string>): string { if id.Some? then id.value else "*" }

  function ScopeKey(ctx: Option<Context>): string {
    match ctx
    case None => "agnostic"
    case Some(c) => IdText(c.companyId) + "|" + IdText(c.resourceId)
  }

  function ActionsKey(actions: seq<string>): string { Join(StableSort(LexLeq, actions), ',') }

  function UserPrefix(userId: string): string { "acl/" + userId + "/" }

  function CacheKey(q: Query): string {
    UserPrefix(q.userId) + "act:" + ScopeKey(q.ctx) + ":" + ActionsKey(q.actions)
  }

  /** The decision read from the database, with the early refusal of an empty user or action list. */
  predicate Decide(roles: seq<Role>, rows: map<nat, Grant>, q: Query) {
    q.userId != "" && q.actions != [] && ResolveAllowed(roles, rows, q.userId, q.ctx, q.actions)
  }

  /** Which is the access table's own answer, except that nobody is allowed nothing. */
  lemma DecideIsPermits(st: GrantStore, access: Access, roles: seq<Role>, q: Query)
    requires Shows(access, st)
    ensures Decide(roles, st.rows, q) <==> q.userId != "" && Permits(access, roles, q.userId, q.ctx, q.actions)
  {
    ResolveIsPermits(st, access, roles, q.userId, q.ctx, q.actions);
  }

  // ---- Ids that cannot imitate the delimiters ---------------------------------------------------

  predicate PlainId(id: Option<string>) {
    id.Some? ==> id.value != "*" && Free(id.value, '|') && Free(id.value, ':')
  }

  predicate PlainQuery(q: Query) {
    && Free(q.userId, '/')
    && (q.ctx.Some? ==> PlainId(q.ctx.value.companyId) && PlainId(q.ctx.value.resourceId))
    && q.actions != []
    && forall i :: 0 <= i < |q.actions| ==> Free(q.actions[i], ',')
  }

  lemma ScopeKeyPlain(ctx: Option<Context>)
    requires ctx.Some? ==> PlainId(ctx.value.companyId) && PlainId(ctx.value.resourceId)
    ensures Free(ScopeKey(ctx), ':')
    ensures ctx.Some? ==> Free(IdText(ctx.value.companyId), '|') && Free(IdText(ctx.value.resourceId), '|')
    ensures ctx.Some? <==> '|' in ScopeKey(ctx)
  {
    if ctx.Some? {
      var a, b := IdText(ctx.value.companyId), IdText(ctx.value.resourceId);
      assert (a + "|" + b)[|a|] == '|';
    }
  }

  lemma ScopeKeyUnique(x: Option<Context>, y: Option<Context>)
    requires x.Some? ==> PlainId(x.value.companyId) && PlainId(x.value.resourceId)
    requires y.Some? ==> PlainId(y.value.companyId) && PlainId(y.value.resourceId)
    ensures ScopeKey(x) == ScopeKey(y) <==> x == y
  {
    ScopeKeyPlain(x);
    ScopeKeyPlain(y);
    if ScopeKey(x) == ScopeKey(y) && x.Some? {
      CutUnique(IdText(x.value.companyId), IdText(y.value.companyId), '|',
                IdText(x.value.resourceId), IdText(y.value.resourceId));
    }
  }

  lemma ActionsKeyUnique(a: seq<string>, b: seq<string>)
    requires a != [] && b != []
    requires forall i :: 0 <= i < |a| ==> Free(a[i], ',')
    requires forall i :: 0 <= i < |b| ==> Free(b[i], ',')
    ensures ActionsKey(a) == ActionsKey(b) <==> multiset(a) == multiset(b)
  {
    LexOrder();
    SortCanonical(LexLeq, a, b);
    SortMultiset(LexLeq, a);
    SortMultiset(LexLeq, b);
    SortMembers(LexLeq, a);
    SortMembers(LexLeq, b);
    var x, y := StableSort(LexLeq, a), StableSort(LexLeq, b);
    forall i | 0 <= i < |x| ensures Free(x[i], ',') { assert x[i] in a; }
    forall i | 0 <= i < |y| ensures Free(y[i], ',') { assert y[i] in b; }
    SplitJoin(x, ',');
    SplitJoin(y, ',');
  }

  lemma KeyParts(q: Query)
    ensures CacheKey(q) == "acl/" + (q.userId + ['/'] + ("act:" + (ScopeKey(q.ctx) + [':'] + ActionsKey(q.actions))))
  {
  }

  /** Two plain checks share a cache key exactly when they ask the same thing: same user, same context,
      same actions up to order. */
  lemma SameKeyIff(a: Query, b: Query)
    requires PlainQuery(a) && PlainQuery(b)
    ensures CacheKey(a) == CacheKey(b)
      <==> a.userId == b.userId && a.ctx == b.ctx && multiset(a.actions) == multiset(b.actions)
  {
    ActionsKeyUnique(a.actions, b.actions);
    ScopeKeyUnique(a.ctx, b.ctx);
    ScopeKeyPlain(a.ctx);
    ScopeKeyPlain(b.ctx);
    if CacheKey(a) == CacheKey(b) {
      KeyParts(a);
      KeyParts(b);
      var x, y := ScopeKey(a.ctx) + [':'] + ActionsKey(a.actions), ScopeKey(b.ctx) + [':'] + ActionsKey(b.actions);
      DropHead("acl/", a.userId + ['/'] + ("act:" + x), b.userId + ['/'] + ("act:" + y));
      CutUnique(a.userId, b.userId, '/', "act:" + x, "act:" + y);
      DropHead("act:", x, y);
      CutUnique(ScopeKey(a.ctx), ScopeKey(b.ctx), ':', ActionsKey(a.actions), ActionsKey(b.actions));
    }
  }

  lemma DropHead(head: string, s: string, t: string)
    requires head + s == head + t
    ensures s == t
  {
    assert s == (head + s)[|head|..] && t == (head + t)[|head|..];
  }

  /** The order and the repetition of the actions do not matter to a decision. */
  lemma DecideByActionSet(roles: seq<Role>, rows: map<nat, Grant>, a: Query, b: Query)
    requires a.userId == b.userId && a.ctx == b.ctx && multiset(a.actions) == multiset(b.actions)
    ensures Decide(roles, rows, a) == Decide(roles, rows, b)
  {
    forall x ensures x in a.actions <==> x in b.actions {
      assert x in multiset(a.actions) <==> x in multiset(b.actions);
    }
    assert |a.actions| == |multiset(a.actions)| == |b.actions|;
    assert RoleNames(roles, a.actions) == RoleNames(roles, b.actions);
  }

  /** So one key never mixes two decisions, whatever the roles and grants. */
  lemma SameKeySameDecision(roles: seq<Role>, rows: map<nat, Grant>, a: Query, b: Query)
    requires PlainQuery(a) && PlainQuery(b) && CacheKey(a) == CacheKey(b)
    ensures Decide(roles, rows, a) == Decide(roles, rows, b)
  {
    SameKeyIff(a, b);
    DecideByActionSet(roles, rows, a, b);
  }

  /** Invalidating a user reaches every key of that user, plain or not, and with plain user ids no key
      of anybody else. */
  lemma PrefixReachesUser(userId: string, q: Query)
    ensures q.userId == userId ==> UserPrefix(userId) <= CacheKey(q)
    ensures Free(userId, '/') && Free(q.userId, '/') && UserPrefix(userId) <= CacheKey(q) ==> q.userId == userId
  {
    var rest := "act:" + (ScopeKey(q.ctx) + [':'] + ActionsKey(q.actions));
    if Free(userId, '/') && Free(q.userId, '/') && UserPrefix(userId) <= CacheKey(q) {
      var tail := CacheKey(q)[|UserPrefix(userId)|..];
      assert CacheKey(q) == UserPrefix(userId) + tail;
      PrefixUnique(userId, q.userId, tail, rest);
    }
  }

  lemma PrefixUnique(a: string, b: string, s: string, t: string)
    requires Free(a, '/') && Free(b, '/') && UserPrefix(a) + s == UserPrefix(b) + t
    ensures a == b
  {
    assert UserPrefix(a) + s == "acl/" + (a + ['/'] + s);
    assert UserPrefix(b) + t == "acl/" + (b + ['/'] + t);
    DropHead("acl/", a + ['/'] + s, b + ['/'] + t);
    CutUnique(a, b, '/', s, t);
  }

  // ---- Why '*' is excluded --------------------------------------------------------------------------

  /** A company literally named '*' shares its key with the absent company, and the two checks differ. */
  lemma StarCompanyCollides()
    ensures
      var star := Query("u", Some(Context(Some("*"), None)), ["a"]);
      var none := Query("u", Some(Context(None, None)), ["a"]);
      var roles := [Role("r", ["a"])];
      var rows: map<nat, Grant> := map[0 := Grant("u", Context(None, None), None, ["r"])];
      CacheKey(star) == CacheKey(none) && !Decide(roles, rows, star) && Decide(roles, rows, none)
  {
    var roles := [Role("r", ["a"])];
    assert roles[0].actions == ["a"] && "a" in roles[0].actions && "a" in ["a"];
    assert RoleNames(roles, ["a"]) == {"r"};
    var rows: map<nat, Grant> := map[0 := Grant("u", Context(None, None), None, ["r"])];
    assert rows[0].roles[0] == "r";
  }
}
