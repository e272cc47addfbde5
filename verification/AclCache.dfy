/** `AclCacheService`: the in-process tier of the decision cache, as functions on its ordered map and as
    the service object that runs them, plus the check that reads through it. Times are milliseconds.
    `born` and `version` are stamps of the model, when `set` accepted the decision and which state of the
    grants it was resolved from; no code reads them. */
module AclCache {
  import opened Options
  import opened Ordering
  import opened AclGrants
  import opened AclKeys

  datatype Slot = Slot(key: string, v: bool, exp: int, born: int, version: nat)

  /** A JavaScript Map from key to entry, oldest insertion first. */
  type Ram = seq<Slot>

  predicate DistinctSlots(ram: Ram) {
    forall i, j :: 0 <= i < j < |ram| ==> ram[i].key != ram[j].key
  }

  function Find(ram: Ram, key: string): (s: Option<Slot>)
    ensures s.Some? ==> s.value in ram && s.value.key == key
    ensures s.None? ==> forall i :: 0 <= i < |ram| ==> ram[i].key != key
  {
    if ram == [] then None else if ram[0].key == key then Some(ram[0]) else Find(ram[1..], key)
  }

  function Drop(ram: Ram, key: string): Ram { Select((s: Slot) => s.key != key, ram) }

  function DropPrefix(ram: Ram, prefix: string): Ram { Select((s: Slot) => !(prefix <= s.key), ram) }

  /** The size cap: evict from the front; a cap of zero or less is no cap. */
  function Trim(ram: Ram, cap: int): Ram {
    if cap > 0 && |ram| > cap then ram[|ram| - cap..] else ram
  }

  function RamSet(ram: Ram, cap: int, slot: Slot): Ram { Trim(Drop(ram, slot.key) + [slot], cap) }

  function InvalidateRam(ram: Ram, userId: string): Ram {
    if userId == "" then [] else DropPrefix(ram, UserPrefix(userId))
  }

  datatype Answer = Hit(v: bool) | Miss

  /** A read at time `now`: a live entry answers, an expired one is removed. */
  function LookupRam(ram: Ram, key: string, now: int): (Answer, Ram) {
    var local := Find(ram, key);
    if local.Some? && local.value.exp > now then (Hit(local.value.v), ram)
    else (Miss, if local.Some? then Drop(ram, key) else ram)
  }

  // ---- Facts about the map -----------------------------------------------------------------------

  lemma {:induction false} SelectDistinct(keep: Slot -> bool, ram: Ram)
    requires DistinctSlots(ram)
    ensures DistinctSlots(Select(keep, ram)) && |Select(keep, ram)| <= |ram|
  {
    if ram != [] {
      SelectDistinct(keep, ram[1..]);
      var rest := Select(keep, ram[1..]);
      forall i | 0 <= i < |rest| ensures rest[i].key != ram[0].key {
        SelectMember(keep, ram[1..], rest[i]);
        var j :| 0 <= j < |ram[1..]| && ram[1..][j] == rest[i];
        assert ram[j + 1] == rest[i];
      }
    }
  }

  lemma DropMember(ram: Ram, key: string, s: Slot)
    ensures s in Drop(ram, key) <==> s in ram && s.key != key
  {
    SelectMember((t: Slot) => t.key != key, ram, s);
  }

  lemma DropPrefixMember(ram: Ram, prefix: string, s: Slot)
    ensures s in DropPrefix(ram, prefix) <==> s in ram && !(prefix <= s.key)
  {
    SelectMember((t: Slot) => !(prefix <= t.key), ram, s);
  }

  /** Inserting keeps keys distinct, respects a positive cap, and always keeps the new entry, last. */
  lemma RamSetEffect(ram: Ram, cap: int, slot: Slot)
    requires DistinctSlots(ram)
    ensures var after := RamSet(ram, cap, slot);
      && DistinctSlots(after)
      && (cap > 0 ==> |after| <= cap)
      && after != [] && after[|after| - 1] == slot
      && forall s :: s in after ==> s == slot || (s in ram && s.key != slot.key)
  {
    var rest := Drop(ram, slot.key);
    SelectDistinct((t: Slot) => t.key != slot.key, ram);
    forall s ensures s in rest <==> s in ram && s.key != slot.key { DropMember(ram, slot.key, s); }
    var all := rest + [slot];
    forall i, j | 0 <= i < j < |all| ensures all[i].key != all[j].key {
      if j == |rest| { assert all[i] in rest; }
    }
    var after := RamSet(ram, cap, slot);
    forall s | s in after ensures s in all {
      var i :| 0 <= i < |after| && after[i] == s;
      assert cap > 0 && |all| > cap ==> all[|all| - cap + i] == s;
    }
  }

  lemma {:induction false} DropOrder(ram: Ram, key: string, i: nat, j: nat) returns (p: nat, q: nat)
    requires i < j < |ram| && ram[i].key != key && ram[j].key != key
    ensures p < q < |Drop(ram, key)| && Drop(ram, key)[p] == ram[i] && Drop(ram, key)[q] == ram[j]
    decreases |ram|
  {
    if i == 0 {
      DropMember(ram[1..], key, ram[j]);
      assert ram[1..][j - 1] == ram[j];
      var k :| 0 <= k < |Drop(ram[1..], key)| && Drop(ram[1..], key)[k] == ram[j];
      p, q := 0, k + 1;
    } else {
      p, q := DropOrder(ram[1..], key, i - 1, j - 1);
      if ram[0].key != key { p, q := p + 1, q + 1; }
    }
  }

  /** Only what the cap forces out goes, and it goes oldest first. */
  lemma RamSetEvictsOldest(ram: Ram, cap: int, slot: Slot)
    requires DistinctSlots(ram)
    ensures var after, others := RamSet(ram, cap, slot), |Drop(ram, slot.key)|;
      && |after| == (if cap > 0 && others + 1 > cap then cap else others + 1)
      && forall i, j :: 0 <= i < j < |ram| && ram[j].key != slot.key && ram[i].key != slot.key && ram[i] in after ==>
           ram[j] in after
  {
    var rest := Drop(ram, slot.key);
    var all, after := rest + [slot], RamSet(ram, cap, slot);
    SelectDistinct((t: Slot) => t.key != slot.key, ram);
    forall i, j | 0 <= i < j < |ram| && ram[j].key != slot.key && ram[i].key != slot.key && ram[i] in after
      ensures ram[j] in after
    {
      var p, q := DropOrder(ram, slot.key, i, j);
      var k := |all| - |after|;
      assert after == all[k..];
      var n :| 0 <= n < |after| && after[n] == ram[i];
      assert all[k + n] == all[p] && all[q] == ram[j];
      assert after[q - k] == ram[j];
    }
  }

  /** A read answers exactly from a live entry of the key, and then changes nothing; otherwise whatever is
      left of the key goes. */
  lemma LookupEffect(ram: Ram, key: string, now: int)
    requires DistinctSlots(ram)
    ensures var (answer, after) := LookupRam(ram, key, now);
      && (forall v :: answer == Hit(v) <==> exists s :: s in ram && s.key == key && s.exp > now && s.v == v)
      && (answer.Hit? ==> after == ram)
      && (answer.Miss? ==> forall s :: s in after <==> s in ram && s.key != key)
  {
    forall s | s in ram && s.key == key ensures Find(ram, key) == Some(s) { FindMember(ram, s); }
    forall s ensures s in Drop(ram, key) <==> s in ram && s.key != key { DropMember(ram, key, s); }
  }

  /** Invalidation leaves only entries that were there, and none of the user's. */
  lemma InvalidateEffect(ram: Ram, userId: string)
    requires DistinctSlots(ram)
    ensures var after := InvalidateRam(ram, userId);
      && DistinctSlots(after) && |after| <= |ram|
      && forall s :: s in after <==> s in ram && userId != "" && !(UserPrefix(userId) <= s.key)
  {
    if userId != "" {
      SelectDistinct((t: Slot) => !(UserPrefix(userId) <= t.key), ram);
      forall s ensures s in InvalidateRam(ram, userId) <==> s in ram && !(UserPrefix(userId) <= s.key) {
        DropPrefixMember(ram, UserPrefix(userId), s);
      }
    }
  }

  lemma FindMember(ram: Ram, s: Slot)
    requires DistinctSlots(ram) && s in ram
    ensures Find(ram, s.key) == Some(s)
  {
    var found := Find(ram, s.key);
    var i :| 0 <= i < |ram| && ram[i] == s;
    var j :| 0 <= j < |ram| && ram[j] == found.value;
  }

  // ---- The service object -----------------------------------------------------------------------

  class AclCacheService {
    var ram: Ram
    var gen: nat
    const ramTtlMs: int
    const maxRamEntries: int

    constructor (ramTtlMs: int, maxRamEntries: int)
      ensures this.ramTtlMs == ramTtlMs && this.maxRamEntries == maxRamEntries && ram == [] && gen == 0
      ensures Valid()
    {
      this.ramTtlMs, this.maxRamEntries, this.ram, this.gen := ramTtlMs, maxRamEntries, [], 0;
    }

    /** Distinct keys, and never more entries than a positive cap allows. */
    predicate Valid()
      reads this
    {
      DistinctSlots(ram) && (maxRamEntries > 0 ==> |ram| <= maxRamEntries)
    }

    method Insert(slot: Slot)
      requires Valid()
      modifies this`ram
      ensures Valid() && ram == RamSet(old(ram), maxRamEntries, slot)
    {
      RamSetEffect(ram, maxRamEntries, slot);
      ram := Drop(ram, slot.key);
      ram := ram + [slot];
      ghost var all := ram;
      if maxRamEntries > 0 {
        ghost var evicted := 0;
        while |ram| > maxRamEntries
          invariant 0 <= evicted <= |all| && ram == all[evicted..]
          invariant evicted > 0 ==> |ram| >= maxRamEntries
        {
          ram := ram[1..];
          evicted := evicted + 1;
        }
      }
    }

    /** The in-process part of `get`: an expired entry is removed. */
    method GetLocal(userId: string, action: string, now: int) returns (answer: Answer)
      requires Valid()
      modifies this`ram
      ensures Valid()
      ensures (answer, ram) == LookupRam(old(ram), UserPrefix(userId) + action, now)
    {
      var key := UserPrefix(userId) + action;
      var local := Find(ram, key);
      if local.Some? && local.value.exp > now { return Hit(local.value.v); }
      if local.Some? {
        SelectDistinct((t: Slot) => t.key != key, ram);
        ram := Drop(ram, key);
      }
      answer := Miss;
    }

    /** The second half of `get` once the shared store answered: no generation is consulted. */
    method Promote(userId: string, action: string, v: bool, now: int, born: int, version: nat)
      requires Valid()
      modifies this`ram
      ensures Valid() && ram == RamSet(old(ram), maxRamEntries, Slot(UserPrefix(userId) + action, v, now + ramTtlMs, born, version))
    {
      Insert(Slot(UserPrefix(userId) + action, v, now + ramTtlMs, born, version));
    }

    /** The in-process part of `set`. */
    method SetLocal(userId: string, action: string, v: bool, seenGen: Option<nat>, now: int, version: nat) returns (accepted: bool)
      requires Valid()
      modifies this`ram
      ensures Valid() && accepted == (seenGen.None? || seenGen.value == gen)
      ensures ram == if accepted then RamSet(old(ram), maxRamEntries, Slot(UserPrefix(userId) + action, v, now + ramTtlMs, now, version))
                     else old(ram)
    {
      if seenGen.Some? && seenGen.value != gen { return false; }
      Insert(Slot(UserPrefix(userId) + action, v, now + ramTtlMs, now, version));
      accepted := true;
    }

    method InvalidateLocalRam(userId: string)
      requires Valid()
      modifies this
      ensures Valid() && gen == old(gen) + 1 && ram == InvalidateRam(old(ram), userId)
    {
      InvalidateEffect(ram, userId);
      gen := gen + 1;
      if userId == "" {
        ram := [];
        return;
      }
      ram := DropPrefix(ram, UserPrefix(userId));
    }

    /** Every entry answers every plain query of its key as the database would now. */
    ghost predicate AgreesWith(roles: seq<Role>, rows: map<nat, Grant>)
      reads this
    {
      forall s, q :: s in ram && PlainQuery(q) && CacheKey(q) == s.key ==> s.v == Decide(roles, rows, q)
    }

    /** `checkAction` with nobody in between: over a cache that agrees with the database it returns the
        uncached decision, and leaves a cache that still agrees. */
    method CheckAction(roles: seq<Role>, rows: map<nat, Grant>, q: Query, now: int, version: nat) returns (allowed: bool)
      requires Valid() && AgreesWith(roles, rows)
      requires q.userId != "" && q.actions != [] ==> PlainQuery(q)
      modifies this
      ensures allowed == Decide(roles, rows, q)
      ensures Valid() && AgreesWith(roles, rows) && gen == old(gen)
    {
      if q.userId == "" || |q.actions| == 0 { return false; }
      var cacheAction := "act:" + ScopeKey(q.ctx) + ":" + ActionsKey(q.actions);
      assert CacheKey(q) == UserPrefix(q.userId) + cacheAction;
      var cached := GetLocal(q.userId, cacheAction, now);
      forall s | s in ram ensures s in old(ram) { DropMember(old(ram), CacheKey(q), s); }
      if cached.Hit? { return cached.v; }
      var seenGen := gen;
      label resolved:
      allowed := ResolveAllowed(roles, rows, q.userId, q.ctx, q.actions);
      var slot := Slot(CacheKey(q), allowed, now + ramTtlMs, now, version);
      RamSetEffect(ram, maxRamEntries, slot);
      var accepted := SetLocal(q.userId, cacheAction, allowed, Some(seenGen), now, version);
      forall s, p | s in ram && PlainQuery(p) && CacheKey(p) == s.key ensures s.v == Decide(roles, rows, p) {
        if s == slot { SameKeySameDecision(roles, rows, p, q); }
      }
    }
  }
}
