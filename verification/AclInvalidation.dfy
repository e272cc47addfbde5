/** When invalidating a user everywhere is enough: exactly what may still make an instance serve a decision
    from before a mutation after every instance was notified of it. */
module AclInvalidation {
  import opened AclStaleness
  import opened AclTwoTier

  /** These instances are all notified of the user in these moves. */
  ghost predicate AllTold(pending: set<nat>, userId: string, moves: seq<Move>) {
    forall i :: i in pending ==> Notify(i, userId) in moves
  }

  /** Some run in which the pending instances are all notified of the user, and only then listened to,
      serves an old decision. */
  ghost predicate ServesDespite(c: Config, x: System, pending: set<nat>, userId: string, key: string, since: nat) {
    exists moves :: AllTold(pending, userId, moves) && Serves(c, Listen(Play(c, x, moves)), key, since)
  }

  /** What the pending notifications cannot remove: whatever the shared side holds, and whatever an
      instance holds that will not be told. */
  ghost predicate Stays(c: Config, x: System, pending: set<nat>, key: string, since: nat) {
    SharedHolds(c, x, key, since) || exists i :: i !in pending && RamHolds(c, x, i, key, since)
  }

  lemma {:induction false} SharedFreeRun(c: Config, x: System, moves: seq<Move>, key: string, since: nat)
    requires Wired(c, x) && since <= x.current && !SharedHolds(c, x, key, since)
    ensures var y := Play(c, x, moves); Wired(c, y) && since <= y.current && !SharedHolds(c, y, key, since)
    ensures Play(c, x, moves).gens.Keys == x.gens.Keys
    decreases |moves|
  {
    if moves != [] {
      DoWired(c, x, moves[0]);
      DoShared(c, x, moves[0], key, since);
      GensKept(c, x, moves[0]);
      SharedFreeRun(c, Do(c, x, moves[0]), moves[1..], key, since);
    }
  }

  /** An instance that is free, or is told on the way, is free in the end. */
  lemma {:induction false} ToldIsFree(c: Config, x: System, moves: seq<Move>, i: nat, userId: string, key: string, since: nat)
    requires Wired(c, x) && since <= x.current && i in x.gens && !SharedHolds(c, x, key, since)
    requires Covers(userId, key) && (Free(c, x, i, key, since) || Notify(i, userId) in moves)
    ensures Free(c, Play(c, x, moves), i, key, since)
    decreases |moves|
  {
    if moves != [] {
      var y := Do(c, x, moves[0]);
      DoWired(c, x, moves[0]);
      DoShared(c, x, moves[0], key, since);
      GensKept(c, x, moves[0]);
      if Free(c, x, i, key, since) {
        DoFree(c, x, moves[0], i, key, since);
      } else if moves[0] == Notify(i, userId) {
        NotifyFrees(c, x, i, userId, key, since);
      }
      ToldIsFree(c, y, moves[1..], i, userId, key, since);
    }
  }

  lemma ToldIsEnough(c: Config, x: System, moves: seq<Move>, pending: set<nat>, userId: string, key: string, since: nat)
    requires Wired(c, x) && since <= x.current && !Stays(c, x, pending, key, since)
    requires Covers(userId, key) && AllTold(pending, userId, moves)
    ensures !Serves(c, Listen(Play(c, x, moves)), key, since)
  {
    var y := Play(c, x, moves);
    SharedFreeRun(c, x, moves, key, since);
    forall i | i in y.gens ensures Free(c, y, i, key, since) {
      assert i !in pending ==> !RamHolds(c, x, i, key, since);
      ToldIsFree(c, x, moves, i, userId, key, since);
    }
    FreeEverywhere(c, y, key, since);
    StaleIff(c, y, key, since);
  }

  /** Telling the pending instances and nothing else. */
  lemma {:induction false} TellAll(pending: set<nat>, userId: string) returns (moves: seq<Move>)
    ensures AllTold(pending, userId, moves)
    ensures forall m :: m in moves ==> m.Notify? && m.at in pending
    decreases |pending|
  {
    if pending == {} { return []; }
    var i :| i in pending;
    var rest := TellAll(pending - {i}, userId);
    moves := [Notify(i, userId)] + rest;
    forall j | j in pending ensures Notify(j, userId) in moves {
      if j == i { assert moves[0] == Notify(i, userId); } else { assert j in pending - {i} && Notify(j, userId) in rest; }
    }
  }

  /** What no notification reaches. */
  ghost predicate OutOfReach(c: Config, w: World, key: string, since: nat) {
    OldEntry(w, key, since) || HasOldFetch(c, w, key, since) || (c.l2TtlSec > 0 && HasOldWrite(c, w, key, since))
  }

  lemma NotifyMisses(c: Config, x: System, at: nat, userId: string, key: string, since: nat)
    requires OutOfReach(c, x.tiers, key, since)
    ensures OutOfReach(c, Do(c, x, Notify(at, userId)).tiers, key, since)
  {
    var y := Do(c, x, Notify(at, userId));
    assert y.tiers.fetches == x.tiers.fetches && y.tiers.stores == x.tiers.stores && y.tiers.now == x.tiers.now;
    assert y.tiers.rams.Keys == x.tiers.rams.Keys && y.tiers.l2 == x.tiers.l2;
    if HasOldFetch(c, x.tiers, key, since) {
      var id :| id in x.tiers.fetches && OldFetch(c, x.tiers, x.tiers.fetches[id], key, since);
      assert OldFetch(c, y.tiers, y.tiers.fetches[id], key, since);
    }
  }

  lemma OthersKeep(c: Config, x: System, at: nat, userId: string, i: nat, key: string, since: nat)
    requires RamHolds(c, x, i, key, since) && i != at
    ensures RamHolds(c, Do(c, x, Notify(at, userId)), i, key, since)
  {
    var y := Do(c, x, Notify(at, userId));
    assert y.checks == x.checks && y.tiers.now == x.tiers.now && (i in x.tiers.rams ==> y.tiers.rams[i] == x.tiers.rams[i]);
    if !(i in x.tiers.rams && exists s :: s in x.tiers.rams[i] && OldSlot(x.tiers.now, s, key, since)) {
      var id :| id in x.checks && x.checks[id].at == i && OldCheck(x.gens, x.checks[id], key, since);
      assert OldCheck(y.gens, y.checks[id], key, since);
    }
  }

  /** The part of what stays that needs no further step to stay. */
  ghost predicate Left(c: Config, x: System, pending: set<nat>, key: string, since: nat) {
    OutOfReach(c, x.tiers, key, since) || exists i :: i !in pending && RamHolds(c, x, i, key, since)
  }

  lemma NotifyLeaves(c: Config, x: System, at: nat, userId: string, pending: set<nat>, key: string, since: nat)
    requires Left(c, x, pending, key, since) && at in pending
    ensures Left(c, Do(c, x, Notify(at, userId)), pending, key, since)
  {
    if OutOfReach(c, x.tiers, key, since) {
      NotifyMisses(c, x, at, userId, key, since);
    } else {
      var i :| i !in pending && RamHolds(c, x, i, key, since);
      OthersKeep(c, x, at, userId, i, key, since);
    }
  }

  lemma {:induction false} TellingLeaves(c: Config, x: System, moves: seq<Move>, pending: set<nat>, key: string, since: nat)
    requires Wired(c, x) && since <= x.current && Left(c, x, pending, key, since)
    requires forall m :: m in moves ==> m.Notify? && m.at in pending
    ensures var y := Play(c, x, moves); Wired(c, y) && since <= y.current && Left(c, y, pending, key, since)
    decreases |moves|
  {
    if moves != [] {
      assert moves[0] in moves;
      DoWired(c, x, moves[0]);
      NotifyLeaves(c, x, moves[0].at, moves[0].userId, pending, key, since);
      TellingLeaves(c, Do(c, x, moves[0]), moves[1..], pending, key, since);
    }
  }

  lemma LeftServes(c: Config, x: System, pending: set<nat>, userId: string, key: string, since: nat)
    requires Wired(c, x) && since <= x.current && Left(c, x, pending, key, since)
    ensures ServesDespite(c, x, pending, userId, key, since)
  {
    var moves := TellAll(pending, userId);
    TellingLeaves(c, x, moves, pending, key, since);
    var y := Play(c, x, moves);
    assert Holds(c, y, key, since);
    StaleIff(c, y, key, since);
  }

  lemma ToldLater(c: Config, x: System, m: Move, pending: set<nat>, userId: string, key: string, since: nat)
    requires ServesDespite(c, Do(c, x, m), pending, userId, key, since)
    ensures ServesDespite(c, x, pending, userId, key, since)
  {
    var moves :| AllTold(pending, userId, moves) && Serves(c, Listen(Play(c, Do(c, x, m), moves)), key, since);
    PlayCons(c, x, m, moves);
    assert AllTold(pending, userId, [m] + moves);
  }

  /** A check that is still accepted sends its write out of reach. */
  lemma CheckServesDespite(c: Config, x: System, pending: set<nat>, userId: string, key: string, since: nat)
    requires Wired(c, x) && since <= x.current && c.l2TtlSec > 0 && HasOldCheck(x, key, since)
    ensures ServesDespite(c, x, pending, userId, key, since)
  {
    var id :| id in x.checks && OldCheck(x.gens, x.checks[id], key, since);
    var store := CheckSets(c, x, id, key, since);
    DoWired(c, x, Set(id, store));
    LeftServes(c, Do(c, x, Set(id, store)), pending, userId, key, since);
    ToldLater(c, x, Set(id, store), pending, userId, key, since);
  }

  lemma EnoughUnlessStays(c: Config, x: System, pending: set<nat>, userId: string, key: string, since: nat)
    requires Wired(c, x) && since <= x.current && Covers(userId, key) && !Stays(c, x, pending, key, since)
    ensures !ServesDespite(c, x, pending, userId, key, since)
  {
    forall moves | AllTold(pending, userId, moves) ensures !Serves(c, Listen(Play(c, x, moves)), key, since) {
      ToldIsEnough(c, x, moves, pending, userId, key, since);
    }
  }

  /** In any state, with some notifications of a user pending, an old decision for one of the user's keys can
      still be served after all of them were applied if and only if the shared side holds one now or an
      instance with no notification pending does. */
  lemma InvalidationFailsIff(c: Config, x: System, pending: set<nat>, userId: string, key: string, since: nat)
    requires Wired(c, x) && since <= x.current && Covers(userId, key)
    ensures ServesDespite(c, x, pending, userId, key, since) <==> Stays(c, x, pending, key, since)
  {
    if Left(c, x, pending, key, since) {
      LeftServes(c, x, pending, userId, key, since);
    } else if Stays(c, x, pending, key, since) {
      CheckServesDespite(c, x, pending, userId, key, since);
    } else {
      EnoughUnlessStays(c, x, pending, userId, key, since);
    }
  }

  /** The moment the store deletion lands, with the other instances still to be told: a decision from before
      the mutation can be served once they were if and only if an open call holds one, or an instance that
      is not to be told again does, or, where the store keeps anything at all, one is in an outstanding
      write or in a check its instance would still accept, not having been told since it began. */
  lemma DeletionFailsIff(c: Config, x: System, keys: set<string>, pending: set<nat>, userId: string, key: string, since: nat)
    requires Wired(c, x) && since <= x.current && Covers(userId, key) && key in keys
    ensures ServesDespite(c, Do(c, x, Tier(Delete(keys))), pending, userId, key, since)
      <==> HasOldFetch(c, x.tiers, key, since)
           || (exists i :: i !in pending && RamHolds(c, x, i, key, since))
           || (c.l2TtlSec > 0 && (HasOldWrite(c, x.tiers, key, since) || HasOldCheck(x, key, since)))
  {
    var y := Do(c, x, Tier(Delete(keys)));
    DoWired(c, x, Tier(Delete(keys)));
    InvalidationFailsIff(c, y, pending, userId, key, since);
    DeletionLeaves(c, x, keys, key, since);
  }

  /** The same at every point of every run from a fresh deployment. */
  lemma InvalidationInRunsFailsIff(c: Config, start: System, moves: seq<Move>, pending: set<nat>, userId: string,
                                   key: string, since: nat)
    requires Fresh(start) && since <= Play(c, start, moves).current && Covers(userId, key)
    ensures var x := Play(c, start, moves);
      ServesDespite(c, x, pending, userId, key, since) <==> Stays(c, x, pending, key, since)
  {
    RunWired(c, start, moves);
    InvalidationFailsIff(c, Play(c, start, moves), pending, userId, key, since);
  }

  lemma DeletionInRunsFailsIff(c: Config, start: System, moves: seq<Move>, keys: set<string>, pending: set<nat>,
                               userId: string, key: string, since: nat)
    requires Fresh(start) && since <= Play(c, start, moves).current && Covers(userId, key) && key in keys
    ensures var x := Play(c, start, moves);
      ServesDespite(c, Do(c, x, Tier(Delete(keys))), pending, userId, key, since)
      <==> HasOldFetch(c, x.tiers, key, since)
           || (exists i :: i !in pending && RamHolds(c, x, i, key, since))
           || (c.l2TtlSec > 0 && (HasOldWrite(c, x.tiers, key, since) || HasOldCheck(x, key, since)))
  {
    RunWired(c, start, moves);
    DeletionFailsIff(c, Play(c, start, moves), keys, pending, userId, key, since);
  }

  lemma DeletionLeaves(c: Config, x: System, keys: set<string>, key: string, since: nat)
    requires key in keys
    ensures var y := Do(c, x, Tier(Delete(keys)));
      && !OldEntry(y.tiers, key, since)
      && (HasOldFetch(c, y.tiers, key, since) <==> HasOldFetch(c, x.tiers, key, since))
      && (HasOldWrite(c, y.tiers, key, since) <==> HasOldWrite(c, x.tiers, key, since))
      && (HasOldCheck(y, key, since) <==> HasOldCheck(x, key, since))
      && forall i :: RamHolds(c, y, i, key, since) <==> RamHolds(c, x, i, key, since)
  {
    var y := Do(c, x, Tier(Delete(keys)));
    assert y.tiers.fetches == x.tiers.fetches && y.tiers.stores == x.tiers.stores && y.tiers.rams == x.tiers.rams;
    forall id | id in x.tiers.fetches
      ensures OldFetch(c, y.tiers, y.tiers.fetches[id], key, since) <==> OldFetch(c, x.tiers, x.tiers.fetches[id], key, since)
    {
    }
    forall i ensures RamHolds(c, y, i, key, since) <==> RamHolds(c, x, i, key, since) { }
  }
}
