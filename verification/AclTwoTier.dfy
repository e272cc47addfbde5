/** The two-tier deployment when grants change: checks in flight with the generation they saw, grant
    mutations, and their notifications on top of the tiers of `AclStaleness`. A decision resolved before a
    mutation is old; the subject is when an old decision can still be served once everybody was notified. */
module AclTwoTier {
  import opened AclKeys
  import opened AclCache
  import opened AclStaleness

  /** A decision resolved but not yet set, with the generation its check saw first. */
  datatype Check = Check(at: nat, key: string, v: bool, version: nat, seenGen: nat)

  /** `current` numbers the states of the grants, `gens` are the generation counters of the instances. */
  datatype System = System(tiers: World, current: nat, gens: map<nat, nat>, checks: map<nat, Check>)

  datatype Move =
    | Tier(e: Event)
    | Resolve(id: nat, at: nat, key: string, v: bool, seenGen: nat)
    | Set(id: nat, store: nat)
    | Abandon(id: nat)
    | Mutate
    | Notify(at: nat, userId: string)

  /** `set`: a moved generation drops the decision. */
  function SetMove(c: Config, x: System, id: nat, store: nat): System {
    if id in x.checks then
      var k := x.checks[id];
      var done := x.(checks := x.checks - {id});
      if k.at in x.gens && k.seenGen == x.gens[k.at]
      then done.(tiers := AcceptStep(c, x.tiers, k.at, k.key, k.v, store, k.version))
      else done
    else x
  }

  function Do(c: Config, x: System, m: Move): System {
    match m
    case Tier(e) => if e.Accept? || e.InvalidateLocal? then x else x.(tiers := Next(c, x.tiers, e))
    case Resolve(id, at, key, v, seenGen) =>
      if id !in x.checks && at in x.gens && seenGen <= x.gens[at]
      then x.(checks := x.checks[id := Check(at, key, v, x.current, seenGen)])
      else x
    case Set(id, store) => SetMove(c, x, id, store)
    case Abandon(id) => x.(checks := x.checks - {id})
    case Mutate => x.(current := x.current + 1)
    case Notify(at, userId) =>
      if at in x.gens
      then x.(gens := x.gens[at := x.gens[at] + 1], tiers := Next(c, x.tiers, InvalidateLocal(at, userId)))
      else x
  }

  function Play(c: Config, x: System, moves: seq<Move>): System
    decreases |moves|
  {
    if moves == [] then x else Play(c, Do(c, x, moves[0]), moves[1..])
  }

  /** What every reachable state satisfies. */
  ghost predicate Wired(c: Config, x: System) {
    && Bounded(c, x.tiers)
    && x.gens.Keys == x.tiers.rams.Keys != {}
    && (forall id :: id in x.checks && x.checks[id].at in x.gens ==> x.checks[id].seenGen <= x.gens[x.checks[id].at])
  }

  lemma DoWired(c: Config, x: System, m: Move)
    requires Wired(c, x)
    ensures Wired(c, Do(c, x, m))
  {
    match m
    case Tier(e) => StepKeeps(c, x.tiers, e); RamsKept(c, x.tiers, e);
    case Set(id, store) =>
      if id in x.checks {
        var k := x.checks[id];
        AcceptKeeps(c, x.tiers, k.at, k.key, k.v, store, k.version);
      }
    case Notify(at, userId) => StepKeeps(c, x.tiers, InvalidateLocal(at, userId));
    case _ =>
  }

  lemma RamsKept(c: Config, w: World, e: Event)
    ensures Next(c, w, e).rams.Keys == w.rams.Keys
  {
  }

  lemma {:induction false} PlayWired(c: Config, x: System, moves: seq<Move>)
    requires Wired(c, x)
    ensures Wired(c, Play(c, x, moves))
    decreases |moves|
  {
    if moves != [] {
      DoWired(c, x, moves[0]);
      PlayWired(c, Do(c, x, moves[0]), moves[1..]);
    }
  }

  /** Nobody cached anything yet, and nothing is in flight. */
  predicate Fresh(x: System) { Initial(x.tiers) && x.gens.Keys == x.tiers.rams.Keys != {} && x.checks == map[] }

  lemma FreshWired(c: Config, x: System)
    requires Fresh(x)
    ensures Wired(c, x)
  {
    forall i | i in x.tiers.rams ensures RamOk(c, x.tiers, x.tiers.rams[i]) { assert x.tiers.rams[i] == []; }
  }

  lemma RunWired(c: Config, start: System, moves: seq<Move>)
    requires Fresh(start)
    ensures Wired(c, Play(c, start, moves))
  {
    FreshWired(c, start);
    PlayWired(c, start, moves);
  }

  // ---- Where an old decision can hide ---------------------------------------------------------------

  /** The check's own generation test would still pass. */
  predicate OldCheck(gens: map<nat, nat>, k: Check, key: string, since: nat) {
    k.key == key && k.version < since && k.at in gens && k.seenGen == gens[k.at]
  }

  predicate OldSlot(now: int, s: Slot, key: string, since: nat) { s.key == key && s.version < since && now < s.exp }

  predicate OldEntry(w: World, key: string, since: nat) {
    key in w.l2 && w.l2[key].version < since && w.now < w.l2[key].exp
  }

  /** A `store.get` that was answered and has not been given up. */
  predicate OldFetch(c: Config, w: World, f: StoreRead, key: string, since: nat) {
    f.key == key && f.served.Some? && f.served.value.version < since && w.now <= f.issued + c.callMs && f.at in w.rams
  }

  predicate OldWrite(c: Config, now: int, d: Decision, key: string, since: nat) {
    d.key == key && d.version < since && now <= d.born + c.callMs
  }

  ghost predicate HasOldCheck(x: System, key: string, since: nat) {
    exists id :: id in x.checks && OldCheck(x.gens, x.checks[id], key, since)
  }

  ghost predicate HasOldFetch(c: Config, w: World, key: string, since: nat) {
    exists id :: id in w.fetches && OldFetch(c, w, w.fetches[id], key, since)
  }

  ghost predicate HasOldWrite(c: Config, w: World, key: string, since: nat) {
    exists id :: id in w.stores && OldWrite(c, w.now, w.stores[id].decision, key, since)
  }

  /** On the shared side: a live entry, an open fetch that holds it, or, where the store keeps anything at
      all, a write on its way or a check that may still send one. */
  ghost predicate SharedHolds(c: Config, x: System, key: string, since: nat) {
    || OldEntry(x.tiers, key, since)
    || HasOldFetch(c, x.tiers, key, since)
    || (c.l2TtlSec > 0 && (HasOldWrite(c, x.tiers, key, since) || HasOldCheck(x, key, since)))
  }

  /** In one instance: a live entry, or, where entries live at all, a check that may still put one. */
  ghost predicate RamHolds(c: Config, x: System, i: nat, key: string, since: nat) {
    || (i in x.tiers.rams && exists s :: s in x.tiers.rams[i] && OldSlot(x.tiers.now, s, key, since))
    || (c.ramTtlMs > 0 && exists id :: id in x.checks && x.checks[id].at == i && OldCheck(x.gens, x.checks[id], key, since))
  }

  ghost predicate Holds(c: Config, x: System, key: string, since: nat) {
    SharedHolds(c, x, key, since) || exists i :: RamHolds(c, x, i, key, since)
  }

  predicate ServedOld(x: System, key: string, since: nat) {
    exists a | a in x.tiers.answers :: a.key == key && a.version < since
  }

  // ---- The shared side stays free -------------------------------------------------------------------

  lemma TierEntry(c: Config, w: World, e: Event, key: string, since: nat)
    requires !OldEntry(w, key, since) && !e.Accept? && (c.l2TtlSec > 0 ==> !HasOldWrite(c, w, key, since))
    ensures !OldEntry(Next(c, w, e), key, since)
  {
    if e.WriteLands? && e.id in w.stores {
      assert c.l2TtlSec > 0 ==> !OldWrite(c, w.now, w.stores[e.id].decision, key, since);
    }
  }

  lemma TierFetch(c: Config, w: World, e: Event, key: string, since: nat)
    requires !OldEntry(w, key, since) && !HasOldFetch(c, w, key, since) && !e.Accept?
    ensures !HasOldFetch(c, Next(c, w, e), key, since)
  {
    var after := Next(c, w, e);
    RamsKept(c, w, e);
    forall id | id in after.fetches ensures !OldFetch(c, after, after.fetches[id], key, since) {
      if id in w.fetches { assert !OldFetch(c, w, w.fetches[id], key, since); }
    }
  }

  lemma TierWrite(c: Config, w: World, e: Event, key: string, since: nat)
    requires !HasOldWrite(c, w, key, since) && !e.Accept?
    ensures !HasOldWrite(c, Next(c, w, e), key, since)
  {
    var after := Next(c, w, e);
    forall id | id in after.stores ensures !OldWrite(c, after.now, after.stores[id].decision, key, since) {
      assert id in w.stores && after.stores[id] == w.stores[id];
      assert !OldWrite(c, w.now, w.stores[id].decision, key, since);
    }
  }

  lemma TierShared(c: Config, x: System, e: Event, key: string, since: nat)
    requires !SharedHolds(c, x, key, since) && !e.Accept?
    ensures !SharedHolds(c, x.(tiers := Next(c, x.tiers, e)), key, since)
  {
    TierEntry(c, x.tiers, e, key, since);
    TierFetch(c, x.tiers, e, key, since);
    if c.l2TtlSec > 0 {
      TierWrite(c, x.tiers, e, key, since);
      assert HasOldCheck(x.(tiers := Next(c, x.tiers, e)), key, since) <==> HasOldCheck(x, key, since);
    }
  }

  lemma SetShared(c: Config, x: System, id: nat, store: nat, key: string, since: nat)
    requires Wired(c, x) && !SharedHolds(c, x, key, since)
    ensures !SharedHolds(c, SetMove(c, x, id, store), key, since)
  {
    if id in x.checks { assert c.l2TtlSec > 0 ==> !OldCheck(x.gens, x.checks[id], key, since); }
  }

  lemma DoShared(c: Config, x: System, m: Move, key: string, since: nat)
    requires Wired(c, x) && !SharedHolds(c, x, key, since) && since <= x.current
    ensures !SharedHolds(c, Do(c, x, m), key, since) && since <= Do(c, x, m).current
  {
    match m
    case Tier(e) => if !e.Accept? { TierShared(c, x, e, key, since); }
    case Set(id, store) => SetShared(c, x, id, store, key, since);
    case Notify(at, userId) => TierShared(c, x, InvalidateLocal(at, userId), key, since);
    case _ =>
  }

  // ---- An instance stays free, and an invalidation frees it -----------------------------------------

  predicate RamFree(now: int, ram: Ram, key: string, since: nat) {
    forall s | s in ram :: !OldSlot(now, s, key, since)
  }

  lemma SetFree(now: int, ram: Ram, cap: int, slot: Slot, key: string, since: nat)
    requires DistinctSlots(ram) && RamFree(now, ram, key, since) && !OldSlot(now, slot, key, since)
    ensures RamFree(now, RamSet(ram, cap, slot), key, since)
  {
    RamSetEffect(ram, cap, slot);
  }

  lemma DropFree(now: int, ram: Ram, k: string, key: string, since: nat)
    requires RamFree(now, ram, key, since)
    ensures RamFree(now, Drop(ram, k), key, since)
  {
    forall s | s in Drop(ram, k) ensures s in ram { DropMember(ram, k, s); }
  }

  /** Invalidating nobody in particular invalidates everybody. */
  predicate Covers(userId: string, key: string) { userId == "" || UserPrefix(userId) <= key }

  lemma InvalidateFree(now: int, ram: Ram, userId: string, key: string, since: nat)
    requires DistinctSlots(ram) && (RamFree(now, ram, key, since) || Covers(userId, key))
    ensures RamFree(now, InvalidateRam(ram, userId), key, since)
  {
    InvalidateEffect(ram, userId);
  }

  lemma TierRam(c: Config, w: World, e: Event, i: nat, key: string, since: nat)
    requires Bounded(c, w) && !e.Accept? && !HasOldFetch(c, w, key, since)
    requires i in w.rams && RamFree(w.now, w.rams[i], key, since)
    ensures i in Next(c, w, e).rams && RamFree(Next(c, w, e).now, Next(c, w, e).rams[i], key, since)
  {
    assert RamOk(c, w, w.rams[i]);
    match e
    case Get(at, k, id) => DropFree(w.now, w.rams[i], k, key, since);
    case Finish(id) =>
      if id in w.fetches && w.fetches[id].served.Some? && w.fetches[id].at in w.rams && w.now <= w.fetches[id].issued + c.callMs {
        var r, f := w.fetches[id], w.fetches[id].served.value;
        assert !OldFetch(c, w, r, key, since);
        SetFree(w.now, w.rams[i], c.cap, Slot(r.key, f.value == "1", w.now + c.ramTtlMs, f.born, f.version), key, since);
      }
    case InvalidateLocal(at, userId) => InvalidateFree(w.now, w.rams[i], userId, key, since);
    case _ =>
  }

  ghost predicate Free(c: Config, x: System, i: nat, key: string, since: nat) {
    !SharedHolds(c, x, key, since) && !RamHolds(c, x, i, key, since)
  }

  lemma SetRam(c: Config, x: System, id: nat, store: nat, i: nat, key: string, since: nat)
    requires Wired(c, x) && i in x.gens && Free(c, x, i, key, since)
    ensures !RamHolds(c, SetMove(c, x, id, store), i, key, since)
  {
    assert RamOk(c, x.tiers, x.tiers.rams[i]);
    if id in x.checks {
      var k := x.checks[id];
      assert RamFree(x.tiers.now, x.tiers.rams[i], key, since);
      assert c.ramTtlMs > 0 && k.at == i ==> !OldCheck(x.gens, k, key, since);
      if k.at == i && k.seenGen == x.gens[i] {
        SetFree(x.tiers.now, x.tiers.rams[i], c.cap,
          Slot(k.key, k.v, x.tiers.now + c.ramTtlMs, x.tiers.now, k.version), key, since);
      }
    }
  }

  lemma DoFree(c: Config, x: System, m: Move, i: nat, key: string, since: nat)
    requires Wired(c, x) && i in x.gens && since <= x.current
    requires Free(c, x, i, key, since)
    ensures i in Do(c, x, m).gens && Free(c, Do(c, x, m), i, key, since)
  {
    DoShared(c, x, m, key, since);
    match m
    case Tier(e) => if !e.Accept? { TierRam(c, x.tiers, e, i, key, since); }
    case Set(id, store) => SetRam(c, x, id, store, i, key, since);
    case Notify(at, userId) => TierRam(c, x.tiers, InvalidateLocal(at, userId), i, key, since);
    case _ =>
  }

  /** A notification that covers the key frees its instance, whatever it held. */
  lemma NotifyFrees(c: Config, x: System, i: nat, userId: string, key: string, since: nat)
    requires Wired(c, x) && i in x.gens && Covers(userId, key) && !SharedHolds(c, x, key, since)
    ensures Free(c, Do(c, x, Notify(i, userId)), i, key, since)
  {
    TierShared(c, x, InvalidateLocal(i, userId), key, since);
    assert RamOk(c, x.tiers, x.tiers.rams[i]);
    InvalidateFree(x.tiers.now, x.tiers.rams[i], userId, key, since);
  }

  // ---- Nothing held, nothing served -----------------------------------------------------------------

  lemma FreeEverywhere(c: Config, x: System, key: string, since: nat)
    requires Wired(c, x)
    ensures !Holds(c, x, key, since) <==> forall i :: i in x.gens ==> Free(c, x, i, key, since)
  {
    var some :| some in x.gens;
    if forall i :: i in x.gens ==> Free(c, x, i, key, since) {
      assert Free(c, x, some, key, since);
      forall i ensures !RamHolds(c, x, i, key, since) {
        if i in x.gens { assert Free(c, x, i, key, since); }
      }
    }
  }

  lemma DoHolds(c: Config, x: System, m: Move, key: string, since: nat)
    requires Wired(c, x) && since <= x.current && !Holds(c, x, key, since)
    ensures !Holds(c, Do(c, x, m), key, since) && since <= Do(c, x, m).current
  {
    var y := Do(c, x, m);
    DoWired(c, x, m);
    DoShared(c, x, m, key, since);
    FreeEverywhere(c, x, key, since);
    FreeEverywhere(c, y, key, since);
    GensKept(c, x, m);
    forall i | i in y.gens ensures Free(c, y, i, key, since) { DoFree(c, x, m, i, key, since); }
  }

  lemma GensKept(c: Config, x: System, m: Move)
    ensures Do(c, x, m).gens.Keys == x.gens.Keys
  {
  }

  lemma NothingServed(c: Config, x: System, m: Move, key: string, since: nat)
    requires Wired(c, x) && !Holds(c, x, key, since) && !ServedOld(x, key, since)
    ensures !ServedOld(Do(c, x, m), key, since)
  {
    if m.Tier? && m.e.Get? && m.e.at in x.tiers.rams {
      var found := Find(x.tiers.rams[m.e.at], m.e.key);
      assert !RamHolds(c, x, m.e.at, key, since);
      assert found.Some? ==> !OldSlot(x.tiers.now, found.value, key, since);
    } else if m.Tier? && m.e.Finish? && m.e.id in x.tiers.fetches {
      assert !OldFetch(c, x.tiers, x.tiers.fetches[m.e.id], key, since);
    }
  }

  lemma {:induction false} RunServesNothing(c: Config, x: System, moves: seq<Move>, key: string, since: nat)
    requires Wired(c, x) && since <= x.current && !Holds(c, x, key, since) && !ServedOld(x, key, since)
    ensures !ServedOld(Play(c, x, moves), key, since)
    decreases |moves|
  {
    if moves != [] {
      DoWired(c, x, moves[0]);
      DoHolds(c, x, moves[0], key, since);
      NothingServed(c, x, moves[0], key, since);
      RunServesNothing(c, Do(c, x, moves[0]), moves[1..], key, since);
    }
  }

  // ---- Whatever is held can be served ---------------------------------------------------------------

  /** Some run from here serves an old decision. */
  ghost predicate Serves(c: Config, x: System, key: string, since: nat) {
    exists moves :: ServedOld(Play(c, x, moves), key, since)
  }

  lemma ServedNow(c: Config, x: System, key: string, since: nat)
    requires ServedOld(x, key, since)
    ensures Serves(c, x, key, since)
  {
    assert Play(c, x, []) == x;
  }

  lemma PlayCons(c: Config, x: System, m: Move, moves: seq<Move>)
    ensures Play(c, x, [m] + moves) == Play(c, Do(c, x, m), moves)
  {
    assert ([m] + moves)[1..] == moves;
  }

  lemma ServesAfter(c: Config, x: System, m: Move, key: string, since: nat)
    requires Serves(c, Do(c, x, m), key, since)
    ensures Serves(c, x, key, since)
  {
    var moves :| ServedOld(Play(c, Do(c, x, m), moves), key, since);
    PlayCons(c, x, m, moves);
  }

  /** A number above every one of a finite set. */
  lemma {:induction false} Above(ids: set<nat>) returns (n: nat)
    ensures forall id :: id in ids ==> id < n
    decreases |ids|
  {
    if ids == {} { return 0; }
    var id :| id in ids;
    var rest := Above(ids - {id});
    n := if id < rest then rest else id + 1;
    forall other | other in ids ensures other < n { assert other == id || other in ids - {id}; }
  }

  lemma SlotServes(c: Config, x: System, i: nat, s: Slot, key: string, since: nat)
    requires Wired(c, x) && i in x.tiers.rams && s in x.tiers.rams[i] && OldSlot(x.tiers.now, s, key, since)
    ensures Serves(c, x, key, since)
  {
    assert RamOk(c, x.tiers, x.tiers.rams[i]);
    FindMember(x.tiers.rams[i], s);
    var id := Above(x.tiers.fetches.Keys);
    var y := Do(c, x, Tier(Get(i, key, id)));
    assert Decision(key, s.v, x.tiers.now, s.version) in y.tiers.answers;
    ServedNow(c, y, key, since);
    ServesAfter(c, x, Tier(Get(i, key, id)), key, since);
  }

  lemma FetchServes(c: Config, x: System, id: nat, key: string, since: nat)
    requires Wired(c, x) && id in x.tiers.fetches && OldFetch(c, x.tiers, x.tiers.fetches[id], key, since)
    ensures Serves(c, x, key, since)
  {
    var f := x.tiers.fetches[id];
    assert ReadOk(c, x.tiers, f);
    var y := Do(c, x, Tier(Finish(id)));
    assert Decision(key, f.served.value.value == "1", x.tiers.now, f.served.value.version) in y.tiers.answers;
    ServedNow(c, y, key, since);
    ServesAfter(c, x, Tier(Finish(id)), key, since);
  }

  lemma AskedServes(c: Config, x: System, id: nat, key: string, since: nat)
    requires Wired(c, x) && OldEntry(x.tiers, key, since)
    requires id in x.tiers.fetches && x.tiers.fetches[id].key == key && x.tiers.fetches[id].served.None?
    requires x.tiers.now == x.tiers.fetches[id].issued && x.tiers.fetches[id].at in x.tiers.rams
    ensures Serves(c, x, key, since)
  {
    DoWired(c, x, Tier(Serve(id)));
    FetchServes(c, Do(c, x, Tier(Serve(id))), id, key, since);
    ServesAfter(c, x, Tier(Serve(id)), key, since);
  }

  lemma EmptyServes(c: Config, x: System, i: nat, key: string, since: nat)
    requires Wired(c, x) && OldEntry(x.tiers, key, since) && i in x.tiers.rams && x.tiers.rams[i] == []
    ensures Serves(c, x, key, since)
  {
    var id := Above(x.tiers.fetches.Keys);
    DoWired(c, x, Tier(Get(i, key, id)));
    AskedServes(c, Do(c, x, Tier(Get(i, key, id))), id, key, since);
    ServesAfter(c, x, Tier(Get(i, key, id)), key, since);
  }

  /** Flush an instance and ask it: it reads the entry from the store. */
  lemma EntryServes(c: Config, x: System, key: string, since: nat)
    requires Wired(c, x) && OldEntry(x.tiers, key, since)
    ensures Serves(c, x, key, since)
  {
    var i :| i in x.gens;
    DoWired(c, x, Notify(i, ""));
    EmptyServes(c, Do(c, x, Notify(i, "")), i, key, since);
    ServesAfter(c, x, Notify(i, ""), key, since);
  }

  lemma WriteServes(c: Config, x: System, id: nat, key: string, since: nat)
    requires Wired(c, x) && c.l2TtlSec > 0
    requires id in x.tiers.stores && OldWrite(c, x.tiers.now, x.tiers.stores[id].decision, key, since)
    ensures Serves(c, x, key, since)
  {
    DoWired(c, x, Tier(WriteLands(id)));
    EntryServes(c, Do(c, x, Tier(WriteLands(id))), key, since);
    ServesAfter(c, x, Tier(WriteLands(id)), key, since);
  }

  /** The check's decision is accepted: the store write is on its way and the entry is in. */
  lemma CheckSets(c: Config, x: System, id: nat, key: string, since: nat) returns (store: nat)
    requires Wired(c, x) && id in x.checks && OldCheck(x.gens, x.checks[id], key, since)
    ensures var y, k := Do(c, x, Set(id, store)), x.checks[id];
      && store in y.tiers.stores && OldWrite(c, y.tiers.now, y.tiers.stores[store].decision, key, since)
      && k.at in y.tiers.rams && Slot(key, k.v, x.tiers.now + c.ramTtlMs, x.tiers.now, k.version) in y.tiers.rams[k.at]
      && y.tiers.now == x.tiers.now
  {
    store := Above(x.tiers.stores.Keys);
    var k := x.checks[id];
    assert RamOk(c, x.tiers, x.tiers.rams[k.at]);
    RamSetEffect(x.tiers.rams[k.at], c.cap, Slot(key, k.v, x.tiers.now + c.ramTtlMs, x.tiers.now, k.version));
  }

  lemma CheckServes(c: Config, x: System, id: nat, key: string, since: nat)
    requires Wired(c, x) && (c.ramTtlMs > 0 || c.l2TtlSec > 0)
    requires id in x.checks && OldCheck(x.gens, x.checks[id], key, since)
    ensures Serves(c, x, key, since)
  {
    var store := CheckSets(c, x, id, key, since);
    var y, k := Do(c, x, Set(id, store)), x.checks[id];
    DoWired(c, x, Set(id, store));
    if c.l2TtlSec > 0 {
      WriteServes(c, y, store, key, since);
    } else {
      SlotServes(c, y, k.at, Slot(key, k.v, x.tiers.now + c.ramTtlMs, x.tiers.now, k.version), key, since);
    }
    ServesAfter(c, x, Set(id, store), key, since);
  }

  lemma SharedServes(c: Config, x: System, key: string, since: nat)
    requires Wired(c, x) && SharedHolds(c, x, key, since)
    ensures Serves(c, x, key, since)
  {
    if OldEntry(x.tiers, key, since) {
      EntryServes(c, x, key, since);
    } else if HasOldFetch(c, x.tiers, key, since) {
      var id :| id in x.tiers.fetches && OldFetch(c, x.tiers, x.tiers.fetches[id], key, since);
      FetchServes(c, x, id, key, since);
    } else if HasOldWrite(c, x.tiers, key, since) {
      var id :| id in x.tiers.stores && OldWrite(c, x.tiers.now, x.tiers.stores[id].decision, key, since);
      WriteServes(c, x, id, key, since);
    } else {
      var id :| id in x.checks && OldCheck(x.gens, x.checks[id], key, since);
      CheckServes(c, x, id, key, since);
    }
  }

  lemma RamServes(c: Config, x: System, i: nat, key: string, since: nat)
    requires Wired(c, x) && RamHolds(c, x, i, key, since)
    ensures Serves(c, x, key, since)
  {
    if i in x.tiers.rams && exists s :: s in x.tiers.rams[i] && OldSlot(x.tiers.now, s, key, since) {
      var s :| s in x.tiers.rams[i] && OldSlot(x.tiers.now, s, key, since);
      SlotServes(c, x, i, s, key, since);
    } else {
      var id :| id in x.checks && OldCheck(x.gens, x.checks[id], key, since);
      CheckServes(c, x, id, key, since);
    }
  }

  // ---- Exactly when an old decision can be served ---------------------------------------------------

  /** Nobody has been answered yet. */
  function Listen(x: System): System { x.(tiers := x.tiers.(answers := {})) }

  lemma ListenHolds(c: Config, x: System, key: string, since: nat)
    requires Wired(c, x)
    ensures Wired(c, Listen(x)) && (Holds(c, Listen(x), key, since) <==> Holds(c, x, key, since))
    ensures SharedHolds(c, Listen(x), key, since) <==> SharedHolds(c, x, key, since)
  {
    var y := Listen(x);
    forall i ensures RamHolds(c, x, i, key, since) <==> RamHolds(c, y, i, key, since) { }
    forall i | i in y.tiers.rams ensures RamOk(c, y.tiers, y.tiers.rams[i]) {
      assert RamOk(c, x.tiers, x.tiers.rams[i]);
      forall s | s in y.tiers.rams[i] ensures SlotOk(c, y.tiers, s) { assert SlotOk(c, x.tiers, s); }
    }
  }

  /** From any state the runs can reach, an answer from before version `since` is possible if and only if
      one is still held: live in an instance or in the store, in an open fetch, in an outstanding store
      write, or in a check its own generation test would still accept. */
  lemma StaleIff(c: Config, x: System, key: string, since: nat)
    requires Wired(c, x) && since <= x.current
    ensures Serves(c, Listen(x), key, since) <==> Holds(c, x, key, since)
  {
    var y := Listen(x);
    ListenHolds(c, x, key, since);
    if SharedHolds(c, y, key, since) {
      SharedServes(c, y, key, since);
    } else if Holds(c, y, key, since) {
      var i :| RamHolds(c, y, i, key, since);
      RamServes(c, y, i, key, since);
    } else {
      forall moves ensures !ServedOld(Play(c, y, moves), key, since) { RunServesNothing(c, y, moves, key, since); }
    }
  }

  /** So at every point of every run from a fresh deployment, for every state of the grants so far. */
  lemma StaleInRunsIff(c: Config, start: System, moves: seq<Move>, key: string, since: nat)
    requires Fresh(start) && since <= Play(c, start, moves).current
    ensures var x := Play(c, start, moves);
      Serves(c, Listen(x), key, since) <==> Holds(c, x, key, since)
  {
    RunWired(c, start, moves);
    StaleIff(c, Play(c, start, moves), key, since);
  }
}
