/** What the RAM-only deployment guarantees over every run: no stale entry, and exact answers once an
    instance has caught up with a user's mutations. */
module AclCoherence {
  import opened Options
  import opened AclGrants
  import opened AclKeys
  import opened AclCache
  import opened AclSystem

  /** In every run, an entry of an instance's cache was resolved from a version of the grants no older than
      the last mutation of that user the instance has applied, and is that version's decision. */
  lemma NoStaleEntry(c: Config, w: World, events: seq<Event>, i: nat, s: Slot, q: Query)
    requires Initial(w) && PlainQuery(q)
    requires var r := Run(c, w, events); i in r.instances && s in r.instances[i].ram && CacheKey(q) == s.key
    ensures var r := Run(c, w, events);
      Applied(r.instances[i], q.userId) <= s.version < |r.db| && s.v == Decide(c.roles, r.db[s.version].rows, q)
  {
    RunKeeps(c, w, events);
    var r := Run(c, w, events);
    assert InstanceOk(c, r.db, r.instances[i]) && SlotOk(c, r.db, r.instances[i], s);
    assert FreshSince(c, r.db, q, s.v, s.version, Applied(r.instances[i], q.userId));
  }

  /** What a user's grants decide depends on that user's grants only. */
  lemma DecideOnlyUser(roles: seq<Role>, before: map<nat, Grant>, after: map<nat, Grant>, user: string, q: Query)
    requires OnlyUser(before, after, user) && q.userId != user
    ensures Decide(roles, before, q) == Decide(roles, after, q)
  {
  }

  lemma {:induction false} UntouchedSince(c: Config, db: seq<Version>, q: Query, k: nat)
    requires HistoryOk(db) && k < |db|
    requires forall j :: k < j < |db| ==> db[j].user != q.userId
    ensures Decide(c.roles, db[k].rows, q) == Decide(c.roles, db[|db| - 1].rows, q)
    decreases |db| - k
  {
    if k < |db| - 1 {
      DecideOnlyUser(c.roles, db[k].rows, db[k + 1].rows, db[k + 1].user, q);
      UntouchedSince(c, db, q, k + 1);
    }
  }

  /** The instance has applied the invalidation of every mutation of the user. */
  ghost predicate CaughtUp(r: World, i: nat, userId: string) {
    i in r.instances && forall j :: Applied(r.instances[i], userId) < j < |r.db| ==> r.db[j].user != userId
  }

  ghost predicate DecidedNow(c: Config, r: World, q: Query, v: bool) {
    r.db != [] && v == Decide(c.roles, r.db[|r.db| - 1].rows, q)
  }

  lemma CaughtUpSlot(c: Config, r: World, i: nat, q: Query, s: Slot)
    requires Coherent(c, r) && PlainQuery(q) && CaughtUp(r, i, q.userId)
    requires s in r.instances[i].ram && s.key == CacheKey(q)
    ensures DecidedNow(c, r, q, s.v)
  {
    assert InstanceOk(c, r.db, r.instances[i]) && SlotOk(c, r.db, r.instances[i], s);
    assert FreshSince(c, r.db, q, s.v, s.version, Applied(r.instances[i], q.userId));
    UntouchedSince(c, r.db, q, s.version);
  }

  /** Once an instance has applied the invalidation of the user's latest mutation, every cache hit it
      serves for that user is exactly what the database would decide now. */
  lemma CaughtUpIsExact(c: Config, w: World, events: seq<Event>, i: nat, q: Query, now: int)
    requires Initial(w) && PlainQuery(q) && CaughtUp(Run(c, w, events), i, q.userId)
    ensures var answer := LookupRam(Run(c, w, events).instances[i].ram, CacheKey(q), now).0;
      answer.Hit? ==> DecidedNow(c, Run(c, w, events), q, answer.v)
  {
    RunKeeps(c, w, events);
    var r := Run(c, w, events);
    var found := Find(r.instances[i].ram, CacheKey(q));
    if found.Some? { CaughtUpSlot(c, r, i, q, found.value); }
  }

  /** The writes of `applyGrant` and `applyRevoke` are writes of this system. */
  lemma GrantWritesOnlyUser(st: GrantStore, known: set<string>, userId: string, roles: seq<string>, ctx: Context,
                            friendlyName: Option<string>)
    requires forall id :: id in st.rows ==> id < st.nextId
    ensures OnlyUser(st.rows, ApplyGrant(st, known, userId, roles, ctx, friendlyName).0.rows, userId)
    ensures OnlyUser(st.rows, ApplyRevoke(st, userId, roles, ctx).0.rows, userId)
  {
  }

  // ---- It is not won by doing nothing -----------------------------------------------------------------

  lemma FinishCaches(c: Config, w: World, id: nat, at: nat, q: Query, v: bool, version: nat, now: int, later: int)
    requires at in w.instances && DistinctSlots(w.instances[at].ram) && later < now + c.ramTtlMs
    requires id in w.checks && w.checks[id] == Check(at, q, Resolved(w.instances[at].gen, v, version))
    ensures var r := Next(c, w, Finish(id, now));
      at in r.instances && r.db == w.db && id !in r.checks && LookupRam(r.instances[at].ram, CacheKey(q), later).0 == Hit(v)
  {
    var ram := w.instances[at].ram;
    var slot := Slot(CacheKey(q), v, now + c.ramTtlMs, now, version);
    RamSetEffect(ram, c.cap, slot);
    FindMember(RamSet(ram, c.cap, slot), slot);
  }

  lemma MissResolves(c: Config, w: World, id: nat, at: nat, q: Query, now: int)
    requires w.db != [] && id !in w.checks && at in w.instances && q.userId != "" && PlainQuery(q)
    requires LookupRam(w.instances[at].ram, CacheKey(q), now).0.Miss?
    ensures var looked := Next(c, w, Lookup(id, at, q, now));
      var resolved := Next(c, Next(c, looked, Snapshot(id)), Resolve(id));
      && at in looked.instances && resolved.instances == looked.instances && resolved.db == w.db
      && id in resolved.checks
      && resolved.checks[id] == Check(at, q, Resolved(looked.instances[at].gen, Decide(c.roles, w.db[|w.db| - 1].rows, q), |w.db| - 1))
  {
  }

  /** A check that misses, undisturbed, leaves its decision in the cache, which answers with it for as long
      as entries live. */
  lemma UndisturbedCheckCached(c: Config, w: World, id: nat, at: nat, q: Query, now: int, later: int)
    requires Coherent(c, w) && id !in w.checks && at in w.instances && q.userId != "" && PlainQuery(q)
    requires LookupRam(w.instances[at].ram, CacheKey(q), now).0.Miss? && later < now + c.ramTtlMs
    ensures var r := Next(c, Next(c, Next(c, Next(c, w, Lookup(id, at, q, now)), Snapshot(id)), Resolve(id)), Finish(id, now));
      && at in r.instances && r.db == w.db && id !in r.checks
      && LookupRam(r.instances[at].ram, CacheKey(q), later).0 == Hit(Decide(c.roles, w.db[|w.db| - 1].rows, q))
  {
    var looked := Next(c, w, Lookup(id, at, q, now));
    StepKeeps(c, w, Lookup(id, at, q, now));
    assert at in looked.instances && InstanceOk(c, looked.db, looked.instances[at]);
    MissResolves(c, w, id, at, q, now);
    FinishCaches(c, Next(c, Next(c, looked, Snapshot(id)), Resolve(id)), id, at, q,
      Decide(c.roles, w.db[|w.db| - 1].rows, q), |w.db| - 1, now, later);
  }

  /** What a check resolved before its instance was flushed or told of a mutation, of whichever user, is not
      cached there any more. */
  lemma OutdatedCheckNotCached(c: Config, w: World, id: nat, e: Event, now: int)
    requires Coherent(c, w) && id in w.checks && w.checks[id].phase.Resolved?
    requires e == Flush(w.checks[id].at) || (e.Deliver? && e.msg in w.inbox && e.msg.dest == w.checks[id].at)
    ensures var told := Next(c, w, e);
      && w.checks[id].at in told.instances
      && Next(c, told, Finish(id, now)).instances == told.instances && id !in Next(c, told, Finish(id, now)).checks
  {
    assert CheckOk(c, w.db, w.instances[w.checks[id].at], w.checks[id]);
  }

  /** A mutation, cleared where it was written and broadcast, reaches every instance: once it has applied the
      broadcast it is caught up with that user. */
  lemma MutationCatchesUp(c: Config, w: World, at: nat, user: string, rows: map<nat, Grant>, i: nat)
    requires w.db != [] && user != "" && OnlyUser(w.db[|w.db| - 1].rows, rows, user) && i in w.instances
    ensures var n := |w.db|;
      var sent := Next(c, Next(c, Next(c, w, Write(at, user, rows)), Clear(n)), Broadcast(n));
      && Message(i, user, n) in sent.inbox
      && CaughtUp(Next(c, sent, Deliver(Message(i, user, n))), i, user)
  {
    var n := |w.db|;
    var written := Next(c, w, Write(at, user, rows));
    var cleared := Next(c, written, Clear(n));
    assert written.pending[n] == Mutation(at, user, false) && cleared.pending[n] == Mutation(at, user, true);
    var sent := Next(c, cleared, Broadcast(n));
    assert i in cleared.instances && Message(i, user, n) in sent.inbox;
    var r := Next(c, sent, Deliver(Message(i, user, n)));
    assert Applied(r.instances[i], user) >= n && |r.db| == n + 1;
  }

  /** And it stays caught up whatever happens, broadcasts arriving out of order or never included, until the
      user's grants are written again; so does every other instance that is. */
  lemma StaysCaughtUp(c: Config, w: World, e: Event, i: nat, user: string)
    requires CaughtUp(w, i, user) && !(e.Write? && e.user == user)
    ensures CaughtUp(Next(c, w, e), i, user)
  {
    var r := Next(c, w, e);
    assert i in r.instances && Applied(w.instances[i], user) <= Applied(r.instances[i], user);
  }

  /** A lost broadcast is never applied, and a restarted instance answers nothing and resumes no check. */
  lemma LossIsFinal(c: Config, w: World, m: Message, i: nat, q: Query, now: int)
    ensures Next(c, Next(c, w, Lose(m)), Deliver(m)) == Next(c, w, Lose(m))
    ensures i in w.instances ==> var r := Next(c, w, Restart(i));
      && i in r.instances && LookupRam(r.instances[i].ram, CacheKey(q), now).0.Miss?
      && forall id :: id in r.checks ==> r.checks[id].at != i
  {
  }
}
