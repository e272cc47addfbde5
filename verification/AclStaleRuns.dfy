/** Four runs from a cold start of two instances in which a decision from before a mutation is served after
    both were notified and the store was emptied. */
module AclStaleRuns {
  import opened Options
  import opened AclCache
  import opened AclStaleness
  import opened AclTwoTier
  import opened AclInvalidation

  const START := System(COLD, 0, map[0 := 0, 1 := 0], map[])

  lemma PlayFrom(c: Config, x: System, moves: seq<Move>, k: nat)
    requires k < |moves|
    ensures Play(c, x, moves[k..]) == Play(c, Do(c, x, moves[k]), moves[k + 1..])
  {
  }

  /** Both instances were told of the mutation and the store was emptied; listened to only from then on,
      the run goes on and answers with the decision from before the mutation. */
  ghost predicate StaleRun(c: Config, before: seq<Move>, after: seq<Move>, userId: string, key: string) {
    var x := Play(c, START, before);
    && AllTold({0, 1}, userId, before) && Mutate in before && Tier(Delete({key})) in before
    && x.current == 1 && key !in x.tiers.l2
    && (forall m :: m in after ==> m.Tier?)
    && ServedOld(Play(c, Listen(x), after), key, 1)
  }

  /** The decision of version 0 is in an open call of instance 1. */
  predicate Fetching(x: System, key: string, v: bool) {
    && x.tiers.now == 0 && x.tiers.rams.Keys == x.gens.Keys == {0, 1}
    && x.tiers.fetches.Keys == {0}
    && x.tiers.fetches[0].at == 1 && x.tiers.fetches[0].key == key && x.tiers.fetches[0].issued == 0
    && x.tiers.fetches[0].served.Some?
    && x.tiers.fetches[0].served.value.version == 0 && x.tiers.fetches[0].served.value.value == Text(v)
  }

  /** The decision of version 0 is in an outstanding write, and nowhere else. */
  predicate Writing(x: System, key: string, v: bool) {
    && x.tiers.now == 0 && x.tiers.fetches == map[] && x.tiers.l2 == map[]
    && x.tiers.rams == map[0 := [], 1 := []] && x.tiers.stores == map[0 := StoreWrite(Decision(key, v, 0, 0))]
  }

  /** Instance 0 resolved, set and stored. */
  function Kept(c: Config, key: string, v: bool): System {
    var w := World(0, map[0 := [Slot(key, v, c.ramTtlMs, 0, 0)], 1 := []],
                   map[key := Entry(Text(v), c.l2TtlSec * 1000, 0, 0)], map[], map[], {Decision(key, v, 0, 0)}, {});
    System(w, 0, map[0 := 0, 1 := 0], map[])
  }

  lemma {:induction false} PlayConcat(c: Config, x: System, a: seq<Move>, b: seq<Move>)
    ensures Play(c, x, a + b) == Play(c, Play(c, x, a), b)
    decreases |a|
  {
    if a == [] {
      assert a + b == b;
    } else {
      assert (a + b)[1..] == a[1..] + b;
      PlayConcat(c, Do(c, x, a[0]), a[1..], b);
    }
  }

  lemma Keeping(c: Config, moves: seq<Move>, key: string, v: bool)
    requires |moves| == 3 && moves[0] == Resolve(0, 0, key, v, 0) && moves[1] == Set(0, 0) && moves[2] == Tier(WriteLands(0))
    ensures Play(c, START, moves) == Kept(c, key, v)
  {
    assert moves[0..] == moves;
    PlayFrom(c, START, moves, 0);
    var a := Do(c, START, moves[0]);
    PlayFrom(c, a, moves, 1);
    var b := Do(c, a, moves[1]);
    PlayFrom(c, b, moves, 2);
    var slot := Slot(key, v, c.ramTtlMs, 0, 0);
    assert a.checks[0] == Check(0, key, v, 0, 0) && RamSet([], c.cap, slot) == [slot];
    assert b.checks == map[] && b.tiers.stores == map[0 := StoreWrite(Decision(key, v, 0, 0))];
    var d := Do(c, b, moves[2]);
    assert d.tiers.stores == map[] && d.tiers.rams == Kept(c, key, v).tiers.rams;
    assert d == Kept(c, key, v);
  }

  lemma Reading(c: Config, key: string, v: bool)
    requires c.l2TtlSec > 0
    ensures var x := Play(c, Kept(c, key, v), [Tier(Get(1, key, 0)), Tier(Serve(0))]); Fetching(x, key, v) && x.current == 0
  {
    var moves := [Tier(Get(1, key, 0)), Tier(Serve(0))];
    assert moves[0..] == moves;
    var kept := Kept(c, key, v);
    PlayFrom(c, kept, moves, 0);
    var a := Do(c, kept, moves[0]);
    PlayFrom(c, a, moves, 1);
    assert a.tiers.fetches == map[0 := StoreRead(1, key, 0, None)];
  }

  /** The mutation of the user's grants: the write, instance 0 clears itself and the store, instance 1 is
      told. */
  function Invalidation(userId: string, key: string): seq<Move> {
    [Mutate, Notify(0, userId), Tier(Delete({key})), Notify(1, userId)]
  }

  function Invalidated(c: Config, x: System, userId: string, key: string): System {
    Do(c, Do(c, Do(c, Do(c, x, Mutate), Notify(0, userId)), Tier(Delete({key}))), Notify(1, userId))
  }

  lemma Invalidating(c: Config, x: System, userId: string, key: string)
    ensures Play(c, x, Invalidation(userId, key)) == Invalidated(c, x, userId, key)
  {
    var moves := Invalidation(userId, key);
    assert moves[0..] == moves;
    PlayFrom(c, x, moves, 0);
    var a := Do(c, x, moves[0]);
    PlayFrom(c, a, moves, 1);
    var b := Do(c, a, moves[1]);
    PlayFrom(c, b, moves, 2);
    PlayFrom(c, Do(c, b, moves[2]), moves, 3);
  }

  lemma InvalidationTells(first: seq<Move>, userId: string, key: string)
    ensures var moves := first + Invalidation(userId, key);
      AllTold({0, 1}, userId, moves) && Mutate in moves && Tier(Delete({key})) in moves
  {
    var last := Invalidation(userId, key);
    var moves := first + last;
    forall k | 0 <= k < 4 ensures last[k] in moves { assert moves[|first| + k] == last[k]; }
    assert last[0] == Mutate && last[1] == Notify(0, userId) && last[2] == Tier(Delete({key})) && last[3] == Notify(1, userId);
  }

  lemma FetchingSurvives(c: Config, x: System, userId: string, key: string, v: bool)
    requires Fetching(x, key, v) && x.current == 0
    ensures var y := Invalidated(c, x, userId, key); Fetching(y, key, v) && y.current == 1 && key !in y.tiers.l2
  {
  }

  lemma FetchingServes(c: Config, x: System, key: string, v: bool)
    requires Fetching(x, key, v)
    ensures ServedOld(Play(c, x, [Tier(Finish(0))]), key, 1)
  {
    PlayFrom(c, x, [Tier(Finish(0))], 0);
    assert Decision(key, v, 0, 0) in Do(c, x, Tier(Finish(0))).tiers.answers;
  }

  lemma PromotionReads(c: Config, key: string, v: bool)
    requires c.l2TtlSec > 0
    ensures var x := Play(c, START, PromotionFirst(key, v)); Fetching(x, key, v) && x.current == 0
  {
    var keep, read := [Resolve(0, 0, key, v, 0), Set(0, 0), Tier(WriteLands(0))], [Tier(Get(1, key, 0)), Tier(Serve(0))];
    assert PromotionFirst(key, v) == keep + read;
    PlayConcat(c, START, keep, read);
    Keeping(c, keep, key, v);
    Reading(c, key, v);
  }

  /** Instance 0 caches and stores a decision, instance 1 reads it from the store. */
  function PromotionFirst(key: string, v: bool): seq<Move> {
    [Resolve(0, 0, key, v, 0), Set(0, 0), Tier(WriteLands(0)), Tier(Get(1, key, 0)), Tier(Serve(0))]
  }

  /** A value read from the store before its deletion is promoted, and answered, after everybody was told. */
  lemma LatePromotion(c: Config, userId: string, key: string, v: bool)
    requires c.l2TtlSec > 0
    ensures StaleRun(c, PromotionFirst(key, v) + Invalidation(userId, key), [Tier(Finish(0))], userId, key)
  {
    InvalidationTells(PromotionFirst(key, v), userId, key);
    PromotionReads(c, key, v);
    var x := Play(c, START, PromotionFirst(key, v));
    PlayConcat(c, START, PromotionFirst(key, v), Invalidation(userId, key));
    Invalidating(c, x, userId, key);
    FetchingSurvives(c, x, userId, key, v);
    FetchingServes(c, Listen(Invalidated(c, x, userId, key)), key, v);
  }

  /** The write lands, and instance 0 reads it back. */
  function Landing(key: string): seq<Move> {
    [Tier(WriteLands(0)), Tier(Get(0, key, 0)), Tier(Serve(0)), Tier(Finish(0))]
  }

  lemma WritingLands(c: Config, x: System, moves: seq<Move>, key: string, v: bool) returns (y: System)
    requires Writing(x, key, v) && c.l2TtlSec > 0 && moves == Landing(key)
    ensures Play(c, x, moves) == Play(c, y, moves[2..])
    ensures y.tiers.now == 0 && y.tiers.l2 == map[key := Entry(Text(v), c.l2TtlSec * 1000, 0, 0)]
    ensures 0 in y.tiers.rams && y.tiers.fetches == map[0 := StoreRead(0, key, 0, None)]
  {
    assert moves[0..] == moves;
    PlayFrom(c, x, moves, 0);
    var a := Do(c, x, moves[0]);
    PlayFrom(c, a, moves, 1);
    y := Do(c, a, moves[1]);
  }

  lemma WritingServes(c: Config, x: System, key: string, v: bool)
    requires Writing(x, key, v) && c.l2TtlSec > 0
    ensures ServedOld(Play(c, x, Landing(key)), key, 1)
  {
    var moves := Landing(key);
    var b := WritingLands(c, x, moves, key, v);
    PlayFrom(c, b, moves, 2);
    var d := Do(c, b, moves[2]);
    PlayFrom(c, d, moves, 3);
    assert d.tiers.fetches == map[0 := StoreRead(0, key, 0, Some(b.tiers.l2[key]))];
    assert Decision(key, v, 0, 0) in Do(c, d, moves[3]).tiers.answers;
  }

  /** Instance 1 accepted the decision, and its store write is on its way. */
  function Sent(c: Config, key: string, v: bool): System {
    var w := World(0, map[0 := [], 1 := [Slot(key, v, c.ramTtlMs, 0, 0)]], map[],
                   map[0 := StoreWrite(Decision(key, v, 0, 0))], map[], {Decision(key, v, 0, 0)}, {});
    System(w, 0, map[0 := 0, 1 := 0], map[])
  }

  lemma Sending(c: Config, moves: seq<Move>, key: string, v: bool)
    requires |moves| == 2 && moves[0] == Resolve(0, 1, key, v, 0) && moves[1] == Set(0, 0)
    ensures Play(c, START, moves) == Sent(c, key, v)
  {
    assert moves[0..] == moves;
    PlayFrom(c, START, moves, 0);
    var a := Do(c, START, moves[0]);
    PlayFrom(c, a, moves, 1);
    var slot := Slot(key, v, c.ramTtlMs, 0, 0);
    assert a.checks[0] == Check(1, key, v, 0, 0) && RamSet([], c.cap, slot) == [slot];
    assert Do(c, a, moves[1]) == Sent(c, key, v);
  }

  lemma Occupied(ram: Ram)
    ensures ram == [] || exists s :: s in ram
  {
    if ram != [] { assert ram[0] in ram; }
  }

  lemma OneSlotCleared(slot: Slot, userId: string)
    requires Covers(userId, slot.key)
    ensures InvalidateRam([slot], userId) == [] && InvalidateRam([], userId) == []
  {
    InvalidateEffect([slot], userId);
    InvalidateEffect([], userId);
    Occupied(InvalidateRam([slot], userId));
  }

  lemma SendingSurvives(c: Config, userId: string, key: string, v: bool)
    requires Covers(userId, key)
    ensures var y := Invalidated(c, Sent(c, key, v), userId, key); Writing(y, key, v) && y.current == 1
  {
    OneSlotCleared(Slot(key, v, c.ramTtlMs, 0, 0), userId);
  }

  /** A store write accepted before the mutation lands after everybody was told. */
  lemma LateWrite(c: Config, userId: string, key: string, v: bool)
    requires c.l2TtlSec > 0 && Covers(userId, key)
    ensures StaleRun(c, [Resolve(0, 1, key, v, 0), Set(0, 0)] + Invalidation(userId, key), Landing(key), userId, key)
  {
    var first := [Resolve(0, 1, key, v, 0), Set(0, 0)];
    InvalidationTells(first, userId, key);
    Sending(c, first, key, v);
    PlayConcat(c, START, first, Invalidation(userId, key));
    Invalidating(c, Sent(c, key, v), userId, key);
    SendingSurvives(c, userId, key, v);
    WritingServes(c, Listen(Invalidated(c, Sent(c, key, v), userId, key)), key, v);
  }

  /** An instance that is told last accepts its check, resolved before the mutation, after the deletion. */
  function PeerAccepts(userId: string, key: string, v: bool): seq<Move> {
    [Resolve(0, 1, key, v, 0), Mutate, Notify(0, userId), Tier(Delete({key})), Set(0, 0), Notify(1, userId)]
  }

  lemma PeerWaits(c: Config, moves: seq<Move>, userId: string, key: string, v: bool) returns (x: System)
    requires moves == PeerAccepts(userId, key, v)
    ensures Play(c, START, moves) == Play(c, x, moves[4..]) && Waiting(x, key, v)
  {
    assert moves[0..] == moves;
    PlayFrom(c, START, moves, 0);
    var a := Do(c, START, moves[0]);
    PlayFrom(c, a, moves, 1);
    var b := Do(c, a, moves[1]);
    PlayFrom(c, b, moves, 2);
    var d := Do(c, b, moves[2]);
    PlayFrom(c, d, moves, 3);
    x := Do(c, d, moves[3]);
    assert x.checks[0] == Check(1, key, v, 0, 0);
  }

  /** Instance 1 still holds the check and has not been told. */
  predicate Waiting(x: System, key: string, v: bool) {
    && x.current == 1 && x.tiers == COLD && x.gens.Keys == {0, 1} && x.gens[1] == 0
    && x.checks == map[0 := Check(1, key, v, 0, 0)]
  }

  lemma PeerSends(c: Config, moves: seq<Move>, userId: string, key: string, v: bool)
    requires Covers(userId, key) && moves == PeerAccepts(userId, key, v)
    ensures Writing(Play(c, START, moves), key, v) && Play(c, START, moves).current == 1
  {
    var x := PeerWaits(c, moves, userId, key, v);
    PlayFrom(c, x, moves, 4);
    PeerAccepted(c, x, key, v);
    PlayFrom(c, Do(c, x, moves[4]), moves, 5);
    OneSlotCleared(Slot(key, v, c.ramTtlMs, 0, 0), userId);
  }

  lemma PeerAccepted(c: Config, x: System, key: string, v: bool)
    requires Waiting(x, key, v)
    ensures var y := Do(c, x, Set(0, 0));
      && y.tiers.rams == map[0 := [], 1 := [Slot(key, v, c.ramTtlMs, 0, 0)]]
      && y.tiers.stores == map[0 := StoreWrite(Decision(key, v, 0, 0))]
  {
    var slot := Slot(key, v, c.ramTtlMs, 0, 0);
    assert RamSet([], c.cap, slot) == [slot];
  }

  /** A check under way at an instance not yet told is accepted after the deletion, and its store write lands. */
  lemma LateCheck(c: Config, userId: string, key: string, v: bool)
    requires c.l2TtlSec > 0 && Covers(userId, key)
    ensures StaleRun(c, PeerAccepts(userId, key, v), Landing(key), userId, key)
  {
    var before := PeerAccepts(userId, key, v);
    PeerSends(c, before, userId, key, v);
    WritingServes(c, Listen(Play(c, START, before)), key, v);
    assert before[1] == Mutate && before[2] == Notify(0, userId) && before[3] == Tier(Delete({key})) && before[5] == Notify(1, userId);
  }

  /** Instance 0 clears itself, reads the store before it is emptied, and only then empties it. */
  function EarlyReader(userId: string, key: string): seq<Move> {
    [Mutate, Notify(0, userId), Tier(Get(0, key, 0)), Tier(Serve(0)), Tier(Finish(0)), Tier(Delete({key})), Notify(1, userId)]
  }

  /** Told, instance 0 has the old decision in an open call of its own. */
  predicate Rereading(c: Config, x: System, key: string, v: bool) {
    && x.current == 1 && x.tiers.now == 0 && x.gens.Keys == {0, 1} && x.tiers.rams == map[0 := [], 1 := []]
    && x.tiers.fetches == map[0 := StoreRead(0, key, 0, Some(Entry(Text(v), c.l2TtlSec * 1000, 0, 0)))]
  }

  lemma ClearedKept(c: Config, userId: string, key: string, v: bool)
    requires Covers(userId, key)
    ensures var x := Do(c, Do(c, Kept(c, key, v), Mutate), Notify(0, userId));
      && x.current == 1 && x.tiers.now == 0 && x.gens.Keys == {0, 1} && x.tiers.rams == map[0 := [], 1 := []]
      && x.tiers.fetches == map[] && x.tiers.l2 == Kept(c, key, v).tiers.l2
  {
    OneSlotCleared(Slot(key, v, c.ramTtlMs, 0, 0), userId);
  }

  lemma EarlyReads(c: Config, moves: seq<Move>, userId: string, key: string, v: bool) returns (x: System)
    requires Covers(userId, key) && c.l2TtlSec > 0 && moves == EarlyReader(userId, key)
    ensures Play(c, Kept(c, key, v), moves) == Play(c, x, moves[4..]) && Rereading(c, x, key, v)
  {
    assert moves[0..] == moves;
    var kept := Kept(c, key, v);
    PlayFrom(c, kept, moves, 0);
    var a := Do(c, kept, moves[0]);
    PlayFrom(c, a, moves, 1);
    var b := Do(c, a, moves[1]);
    ClearedKept(c, userId, key, v);
    PlayFrom(c, b, moves, 2);
    var d := Do(c, b, moves[2]);
    PlayFrom(c, d, moves, 3);
    x := Do(c, d, moves[3]);
    assert d.tiers.fetches == map[0 := StoreRead(0, key, 0, None)];
  }

  /** Instance 0 holds the old decision, and nobody clears it any more. */
  predicate Rehung(c: Config, x: System, key: string, v: bool) {
    && x.current == 1 && x.tiers.now == 0 && key !in x.tiers.l2 && x.tiers.fetches == map[]
    && x.tiers.rams == map[0 := [Slot(key, v, c.ramTtlMs, 0, 0)], 1 := []]
  }

  lemma RereadingPromotes(c: Config, x: System, key: string, v: bool)
    requires Rereading(c, x, key, v)
    ensures var y := Do(c, x, Tier(Finish(0)));
      && y.current == 1 && y.tiers.now == 0 && y.gens.Keys == {0, 1} && y.tiers.fetches == map[]
      && y.tiers.rams == map[0 := [Slot(key, v, c.ramTtlMs, 0, 0)], 1 := []]
  {
    assert RamSet([], c.cap, Slot(key, v, c.ramTtlMs, 0, 0)) == [Slot(key, v, c.ramTtlMs, 0, 0)];
  }

  lemma EarlyPromotes(c: Config, x: System, moves: seq<Move>, userId: string, key: string, v: bool)
    requires Rereading(c, x, key, v) && moves == EarlyReader(userId, key)
    ensures Rehung(c, Play(c, x, moves[4..]), key, v)
  {
    RereadingPromotes(c, x, key, v);
    PlayFrom(c, x, moves, 4);
    var a := Do(c, x, moves[4]);
    PlayFrom(c, a, moves, 5);
    var b := Do(c, a, moves[5]);
    PlayFrom(c, b, moves, 6);
    OneSlotCleared(Slot(key, v, c.ramTtlMs, 0, 0), "");
    assert Do(c, b, moves[6]).tiers.rams[1] == InvalidateRam([], userId) == [];
  }

  lemma RehungServes(c: Config, x: System, key: string, v: bool)
    requires Rehung(c, x, key, v) && c.ramTtlMs > 0
    ensures ServedOld(Play(c, Listen(x), [Tier(Get(0, key, 0))]), key, 1)
  {
    var y := Listen(x);
    PlayFrom(c, y, [Tier(Get(0, key, 0))], 0);
    assert Decision(key, v, 0, 0) in Do(c, y, Tier(Get(0, key, 0))).tiers.answers;
  }

  /** The instance that writes the mutation promotes the old value between its two steps. */
  lemma EarlyPromotion(c: Config, userId: string, key: string, v: bool)
    requires c.l2TtlSec > 0 && c.ramTtlMs > 0 && Covers(userId, key)
    ensures StaleRun(c, [Resolve(0, 0, key, v, 0), Set(0, 0), Tier(WriteLands(0))] + EarlyReader(userId, key),
                     [Tier(Get(0, key, 0))], userId, key)
  {
    var first, last := [Resolve(0, 0, key, v, 0), Set(0, 0), Tier(WriteLands(0))], EarlyReader(userId, key);
    Keeping(c, first, key, v);
    PlayConcat(c, START, first, last);
    var x := EarlyReads(c, last, userId, key, v);
    EarlyPromotes(c, x, last, userId, key, v);
    RehungServes(c, Play(c, START, first + last), key, v);
    EarlyTells(first, userId, key);
  }

  lemma EarlyTells(first: seq<Move>, userId: string, key: string)
    ensures var moves := first + EarlyReader(userId, key);
      AllTold({0, 1}, userId, moves) && Mutate in moves && Tier(Delete({key})) in moves
  {
    var last := EarlyReader(userId, key);
    forall k | 0 <= k < 7 ensures last[k] in first + last { assert (first + last)[|first| + k] == last[k]; }
    assert last[0] == Mutate && last[1] == Notify(0, userId) && last[5] == Tier(Delete({key})) && last[6] == Notify(1, userId);
  }
}
