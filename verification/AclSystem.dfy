/** The RAM-only deployment as a transition system: checks in flight on several instances, grant
    mutations (write, clear the local cache, broadcast), peers applying or losing the broadcast, flushes
    and restarts, in any order. Roles are fixed. Its subject is the generation counter: a decision
    resolved before an invalidation never survives it, an invariant every step keeps. */
module AclSystem {
  import opened AclGrants
  import opened AclKeys
  import opened AclCache

  datatype Config = Config(roles: seq<Role>, ramTtlMs: int, cap: int)

  /** One state of the grant collection, and the user whose grants the write that produced it changed. */
  datatype Version = Version(rows: map<nat, Grant>, user: string)

  /** Where a check stands after its cache miss. */
  datatype Phase = Missed | Snapped(seenGen: nat) | Resolved(seenGen: nat, v: bool, version: nat)

  datatype Check = Check(at: nat, q: Query, phase: Phase)

  /** One process. `applied` is a stamp of the model: the latest version of each user's grants whose
      invalidation this instance has applied. */
  datatype Instance = Instance(ram: Ram, gen: nat, applied: map<string, nat>)

  /** A mutation that has written version `index` (its key) and still has to clear or to broadcast. */
  datatype Mutation = Mutation(at: nat, user: string, cleared: bool)

  datatype Message = Message(dest: nat, user: string, index: nat)

  datatype World = World(db: seq<Version>, instances: map<nat, Instance>, checks: map<nat, Check>,
                         pending: map<nat, Mutation>, inbox: set<Message>)

  datatype Event =
    | Lookup(id: nat, at: nat, q: Query, now: int)
    | Snapshot(id: nat)
    | Resolve(id: nat)
    | Finish(id: nat, now: int)
    | Abandon(id: nat)
    | Write(at: nat, user: string, rows: map<nat, Grant>)
    | Clear(index: nat)
    | Broadcast(index: nat)
    | Deliver(msg: Message)
    | Lose(msg: Message)
    | Flush(at: nat)
    | Restart(at: nat)

  // ---- Steps ------------------------------------------------------------------------------------

  function Applied(inst: Instance, user: string): nat {
    if user in inst.applied then inst.applied[user] else 0
  }

  function Max(a: nat, b: nat): nat { if a < b then b else a }

  /** `invalidateLocalRam` for the mutation that wrote version `index`. */
  function Invalidated(inst: Instance, user: string, index: nat): Instance {
    Instance(InvalidateRam(inst.ram, user), inst.gen + 1, inst.applied[user := Max(Applied(inst, user), index)])
  }

  /** The write of a grant or revoke leaves every grant of everybody else as it was. */
  ghost predicate OnlyUser(before: map<nat, Grant>, after: map<nat, Grant>, user: string) {
    && (forall id :: id in before && before[id].userId != user ==> id in after && after[id] == before[id])
    && (forall id :: id in after && after[id].userId != user ==> id in before && before[id] == after[id])
  }

  function Drop1<K, V>(m: map<K, V>, k: K): map<K, V> { map x | x in m && x != k :: m[x] }

  function SetInstance(w: World, at: nat, inst: Instance): World { w.(instances := w.instances[at := inst]) }

  predicate InFlight(w: World, id: nat) { id in w.checks && w.checks[id].at in w.instances }

  function LookupStep(w: World, id: nat, at: nat, q: Query, now: int): World {
    if id !in w.checks && at in w.instances && q.userId != "" && PlainQuery(q) then
      var (answer, ram) := LookupRam(w.instances[at].ram, CacheKey(q), now);
      var read := SetInstance(w, at, w.instances[at].(ram := ram));
      if answer.Hit? then read else read.(checks := w.checks[id := Check(at, q, Missed)])
    else w
  }

  function SnapshotStep(w: World, id: nat): World {
    if InFlight(w, id) && w.checks[id].phase.Missed? then
      var check := w.checks[id];
      w.(checks := w.checks[id := check.(phase := Snapped(w.instances[check.at].gen))])
    else w
  }

  function ResolveStep(c: Config, w: World, id: nat): World {
    if InFlight(w, id) && w.checks[id].phase.Snapped? && w.db != [] then
      var check := w.checks[id];
      var last := |w.db| - 1;
      var v := Decide(c.roles, w.db[last].rows, check.q);
      w.(checks := w.checks[id := check.(phase := Resolved(check.phase.seenGen, v, last))])
    else w
  }

  function FinishStep(c: Config, w: World, id: nat, now: int): World {
    if InFlight(w, id) && w.checks[id].phase.Resolved? then
      var check := w.checks[id];
      var inst, done := w.instances[check.at], w.(checks := Drop1(w.checks, id));
      if check.phase.seenGen == inst.gen then
        var slot := Slot(CacheKey(check.q), check.phase.v, now + c.ramTtlMs, now, check.phase.version);
        SetInstance(done, check.at, inst.(ram := RamSet(inst.ram, c.cap, slot)))
      else done
    else w
  }

  ghost function WriteStep(w: World, at: nat, user: string, rows: map<nat, Grant>): World {
    if w.db != [] && user != "" && OnlyUser(w.db[|w.db| - 1].rows, rows, user) then
      w.(db := w.db + [Version(rows, user)], pending := w.pending[|w.db| := Mutation(at, user, false)])
    else w
  }

  function InvalidateAt(w: World, at: nat, user: string, index: nat): World {
    if at in w.instances then SetInstance(w, at, Invalidated(w.instances[at], user, index)) else w
  }

  function ClearStep(w: World, index: nat): World {
    if index in w.pending && !w.pending[index].cleared then
      var m := w.pending[index];
      InvalidateAt(w.(pending := w.pending[index := m.(cleared := true)]), m.at, m.user, index)
    else w
  }

  function BroadcastStep(w: World, index: nat): World {
    if index in w.pending && w.pending[index].cleared then
      var copies := set i | i in w.instances :: Message(i, w.pending[index].user, index);
      w.(pending := Drop1(w.pending, index), inbox := w.inbox + copies)
    else w
  }

  function DeliverStep(w: World, m: Message): World {
    if m in w.inbox then InvalidateAt(w.(inbox := w.inbox - {m}), m.dest, m.user, m.index) else w
  }

  function FlushStep(w: World, at: nat): World {
    if at in w.instances then
      var inst := w.instances[at];
      SetInstance(w, at, inst.(ram := [], gen := inst.gen + 1))
    else w
  }

  function RestartStep(w: World, at: nat): World {
    if at in w.instances then
      SetInstance(w, at, Instance([], 0, w.instances[at].applied))
        .(checks := map id | id in w.checks && w.checks[id].at != at :: w.checks[id])
    else w
  }

  ghost function Next(c: Config, w: World, e: Event): World {
    match e
    case Lookup(id, at, q, now) => LookupStep(w, id, at, q, now)
    case Snapshot(id) => SnapshotStep(w, id)
    case Resolve(id) => ResolveStep(c, w, id)
    case Finish(id, now) => FinishStep(c, w, id, now)
    case Abandon(id) => w.(checks := Drop1(w.checks, id))
    case Write(at, user, rows) => WriteStep(w, at, user, rows)
    case Clear(index) => ClearStep(w, index)
    case Broadcast(index) => BroadcastStep(w, index)
    case Deliver(m) => DeliverStep(w, m)
    case Lose(m) => w.(inbox := w.inbox - {m})
    case Flush(at) => FlushStep(w, at)
    case Restart(at) => RestartStep(w, at)
  }

  ghost function Run(c: Config, w: World, events: seq<Event>): World
    decreases |events|
  {
    if events == [] then w else Run(c, Next(c, w, events[0]), events[1..])
  }

  /** Cold caches over one version of the grants, nothing in flight. */
  ghost predicate Initial(w: World) {
    && |w.db| == 1
    && (forall i :: i in w.instances ==> w.instances[i].ram == [] && w.instances[i].applied == map[])
    && w.checks == map[] && w.pending == map[] && w.inbox == {}
  }

  // ---- What every step keeps ----------------------------------------------------------------------

  /** `v` is the decision of the version it is stamped with, one no older than `since`. */
  predicate FreshSince(c: Config, db: seq<Version>, q: Query, v: bool, version: nat, since: nat) {
    since <= version < |db| && v == Decide(c.roles, db[version].rows, q)
  }

  ghost predicate SlotOk(c: Config, db: seq<Version>, inst: Instance, s: Slot) {
    forall q :: PlainQuery(q) && CacheKey(q) == s.key ==> FreshSince(c, db, q, s.v, s.version, Applied(inst, q.userId))
  }

  ghost predicate InstanceOk(c: Config, db: seq<Version>, inst: Instance) {
    && DistinctSlots(inst.ram)
    && (forall u :: u in inst.applied ==> inst.applied[u] < |db|)
    && (forall s :: s in inst.ram ==> SlotOk(c, db, inst, s))
  }

  /** A decision still in flight is as fresh as the cache it would enter, unless the generation moved. */
  ghost predicate CheckOk(c: Config, db: seq<Version>, inst: Instance, check: Check) {
    && PlainQuery(check.q)
    && (check.phase.Missed? || check.phase.seenGen <= inst.gen)
    && (check.phase.Resolved? && check.phase.seenGen == inst.gen ==>
          FreshSince(c, db, check.q, check.phase.v, check.phase.version, Applied(inst, check.q.userId)))
  }

  ghost predicate InstancesOk(c: Config, w: World) {
    forall i :: i in w.instances ==> InstanceOk(c, w.db, w.instances[i])
  }

  ghost predicate ChecksOk(c: Config, w: World) {
    forall id :: id in w.checks ==>
      w.checks[id].at in w.instances && CheckOk(c, w.db, w.instances[w.checks[id].at], w.checks[id])
  }

  ghost predicate StampsOk(w: World) {
    && w.db != []
    && (forall index :: index in w.pending ==> index < |w.db|)
    && (forall m :: m in w.inbox ==> m.index < |w.db|)
  }

  /** Consecutive versions differ only in the grants of the user the later one was written for. */
  ghost predicate HistoryOk(db: seq<Version>) {
    forall k :: 0 < k < |db| ==> OnlyUser(db[k - 1].rows, db[k].rows, db[k].user)
  }

  ghost predicate Coherent(c: Config, w: World) {
    InstancesOk(c, w) && ChecksOk(c, w) && StampsOk(w) && HistoryOk(w.db)
  }

  // ---- One instance -------------------------------------------------------------------------------

  lemma InvalidatedOk(c: Config, db: seq<Version>, inst: Instance, user: string, index: nat)
    requires InstanceOk(c, db, inst) && index < |db|
    ensures InstanceOk(c, db, Invalidated(inst, user, index))
  {
    var after := Invalidated(inst, user, index);
    InvalidateEffect(inst.ram, user);
    forall s | s in after.ram ensures SlotOk(c, db, after, s) {
      assert SlotOk(c, db, inst, s);
      forall q | PlainQuery(q) && CacheKey(q) == s.key ensures FreshSince(c, db, q, s.v, s.version, Applied(after, q.userId)) {
        PrefixReachesUser(user, q);
        assert q.userId != user;
      }
    }
  }

  lemma LookupOk(c: Config, db: seq<Version>, inst: Instance, q: Query, now: int)
    requires InstanceOk(c, db, inst)
    ensures InstanceOk(c, db, inst.(ram := LookupRam(inst.ram, CacheKey(q), now).1))
  {
    var after := inst.(ram := LookupRam(inst.ram, CacheKey(q), now).1);
    Dropped(inst.ram, CacheKey(q));
    forall s | s in after.ram ensures SlotOk(c, db, after, s) {
      assert s in inst.ram && SlotOk(c, db, inst, s);
    }
  }

  lemma Dropped(ram: Ram, key: string)
    requires DistinctSlots(ram)
    ensures DistinctSlots(Drop(ram, key)) && forall s :: s in Drop(ram, key) ==> s in ram
  {
    SelectDistinct((s: Slot) => s.key != key, ram);
    forall s | s in Drop(ram, key) ensures s in ram { DropMember(ram, key, s); }
  }

  lemma FinishOk(c: Config, db: seq<Version>, inst: Instance, check: Check, now: int)
    requires InstanceOk(c, db, inst) && CheckOk(c, db, inst, check)
    requires check.phase.Resolved? && check.phase.seenGen == inst.gen
    ensures InstanceOk(c, db, inst.(ram := RamSet(inst.ram, c.cap, Slot(CacheKey(check.q), check.phase.v, now + c.ramTtlMs, now, check.phase.version))))
  {
    var slot := Slot(CacheKey(check.q), check.phase.v, now + c.ramTtlMs, now, check.phase.version);
    var after := inst.(ram := RamSet(inst.ram, c.cap, slot));
    RamSetEffect(inst.ram, c.cap, slot);
    forall s | s in after.ram ensures SlotOk(c, db, after, s) {
      if s == slot { NewSlotOk(c, db, after, check, s); } else { assert SlotOk(c, db, inst, s); }
    }
  }

  lemma NewSlotOk(c: Config, db: seq<Version>, inst: Instance, check: Check, s: Slot)
    requires PlainQuery(check.q) && check.phase.Resolved? && s.key == CacheKey(check.q) && s.v == check.phase.v
    requires s.version == check.phase.version
    requires FreshSince(c, db, check.q, check.phase.v, check.phase.version, Applied(inst, check.q.userId))
    ensures SlotOk(c, db, inst, s)
  {
    forall q | PlainQuery(q) && CacheKey(q) == s.key ensures FreshSince(c, db, q, s.v, s.version, Applied(inst, q.userId)) {
      SameKeyIff(q, check.q);
      SameKeySameDecision(c.roles, db[s.version].rows, q, check.q);
    }
  }

  lemma LongerHistory(c: Config, db: seq<Version>, v: Version, inst: Instance)
    requires InstanceOk(c, db, inst)
    ensures InstanceOk(c, db + [v], inst)
  {
    forall s | s in inst.ram ensures SlotOk(c, db + [v], inst, s) {
      assert SlotOk(c, db, inst, s);
      forall q | PlainQuery(q) && CacheKey(q) == s.key
        ensures FreshSince(c, db + [v], q, s.v, s.version, Applied(inst, q.userId))
      {
        StillFresh(c, db, v, q, s.v, s.version, Applied(inst, q.userId));
      }
    }
  }

  lemma StillFresh(c: Config, db: seq<Version>, v: Version, q: Query, allowed: bool, version: nat, since: nat)
    requires FreshSince(c, db, q, allowed, version, since)
    ensures FreshSince(c, db + [v], q, allowed, version, since)
  {
    assert (db + [v])[version] == db[version];
  }

  // ---- Steps keep coherence -----------------------------------------------------------------------

  lemma InvalidateAtKeeps(c: Config, w: World, at: nat, user: string, index: nat)
    requires Coherent(c, w) && index < |w.db|
    ensures Coherent(c, InvalidateAt(w, at, user, index))
  {
    if at in w.instances {
      InvalidatedOk(c, w.db, w.instances[at], user, index);
      // The generation moved past every decision in flight, so none of them has to be fresh any more.
      forall id | id in w.checks && w.checks[id].at == at
        ensures CheckOk(c, w.db, Invalidated(w.instances[at], user, index), w.checks[id])
      {
        assert CheckOk(c, w.db, w.instances[at], w.checks[id]);
      }
    }
  }

  /** Only the cached entries of one instance change. */
  lemma NewRamKeeps(c: Config, w: World, at: nat, ram: Ram)
    requires Coherent(c, w) && at in w.instances && InstanceOk(c, w.db, w.instances[at].(ram := ram))
    ensures Coherent(c, SetInstance(w, at, w.instances[at].(ram := ram)))
  {
    var inst := w.instances[at].(ram := ram);
    forall id | id in w.checks && w.checks[id].at == at ensures CheckOk(c, w.db, inst, w.checks[id]) {
      assert CheckOk(c, w.db, w.instances[at], w.checks[id]);
      assert forall user :: Applied(inst, user) == Applied(w.instances[at], user);
    }
  }

  lemma ForgetKeeps(c: Config, w: World, id: nat)
    requires Coherent(c, w)
    ensures Coherent(c, w.(checks := Drop1(w.checks, id)))
  {
  }

  lemma NewCheckKeeps(c: Config, w: World, id: nat, check: Check)
    requires Coherent(c, w) && check.at in w.instances && PlainQuery(check.q) && check.phase.Missed?
    ensures Coherent(c, w.(checks := w.checks[id := check]))
  {
  }

  lemma LookupKeeps(c: Config, w: World, id: nat, at: nat, q: Query, now: int)
    requires Coherent(c, w)
    ensures Coherent(c, LookupStep(w, id, at, q, now))
  {
    if id !in w.checks && at in w.instances && q.userId != "" && PlainQuery(q) {
      var (answer, ram) := LookupRam(w.instances[at].ram, CacheKey(q), now);
      LookupOk(c, w.db, w.instances[at], q, now);
      NewRamKeeps(c, w, at, ram);
      NewCheckKeeps(c, SetInstance(w, at, w.instances[at].(ram := ram)), id, Check(at, q, Missed));
    }
  }

  lemma ResolveKeeps(c: Config, w: World, id: nat)
    requires Coherent(c, w)
    ensures Coherent(c, ResolveStep(c, w, id))
  {
    if InFlight(w, id) && w.checks[id].phase.Snapped? {
      var check, last := w.checks[id], |w.db| - 1;
      var inst := w.instances[check.at];
      assert InstanceOk(c, w.db, inst);
      assert Applied(inst, check.q.userId) <= last;
      assert FreshSince(c, w.db, check.q, Decide(c.roles, w.db[last].rows, check.q), last, Applied(inst, check.q.userId));
    }
  }

  lemma FinishKeeps(c: Config, w: World, id: nat, now: int)
    requires Coherent(c, w)
    ensures Coherent(c, FinishStep(c, w, id, now))
  {
    ForgetKeeps(c, w, id);
    if InFlight(w, id) && w.checks[id].phase.Resolved? {
      var check := w.checks[id];
      if check.phase.seenGen == w.instances[check.at].gen { AcceptKeeps(c, w, id, check, now); }
    }
  }

  lemma AcceptKeeps(c: Config, w: World, id: nat, check: Check, now: int)
    requires Coherent(c, w) && InFlight(w, id) && check == w.checks[id] && check.phase.Resolved?
    requires check.phase.seenGen == w.instances[check.at].gen
    ensures Coherent(c, FinishStep(c, w, id, now))
  {
    var inst := w.instances[check.at];
    var slot := Slot(CacheKey(check.q), check.phase.v, now + c.ramTtlMs, now, check.phase.version);
    var done := w.(checks := Drop1(w.checks, id));
    var ram := RamSet(inst.ram, c.cap, slot);
    assert FinishStep(c, w, id, now) == SetInstance(done, check.at, inst.(ram := ram));
    FinishOk(c, w.db, inst, check, now);
    ForgetKeeps(c, w, id);
    NewRamKeeps(c, done, check.at, ram);
  }

  lemma WriteKeeps(c: Config, w: World, at: nat, user: string, rows: map<nat, Grant>)
    requires Coherent(c, w)
    ensures Coherent(c, WriteStep(w, at, user, rows))
  {
    var v := Version(rows, user);
    forall i | i in w.instances ensures InstanceOk(c, w.db + [v], w.instances[i]) {
      LongerHistory(c, w.db, v, w.instances[i]);
    }
    forall id | id in w.checks
      ensures w.checks[id].at in w.instances && CheckOk(c, w.db + [v], w.instances[w.checks[id].at], w.checks[id])
    {
      var check := w.checks[id];
      var inst := w.instances[check.at];
      if check.phase.Resolved? && check.phase.seenGen == inst.gen {
        StillFresh(c, w.db, v, check.q, check.phase.v, check.phase.version, Applied(inst, check.q.userId));
      }
    }
  }

  lemma FlushKeeps(c: Config, w: World, at: nat)
    requires Coherent(c, w)
    ensures Coherent(c, FlushStep(w, at))
  {
  }

  lemma RestartKeeps(c: Config, w: World, at: nat)
    requires Coherent(c, w)
    ensures Coherent(c, RestartStep(w, at))
  {
  }

  lemma StepKeeps(c: Config, w: World, e: Event)
    requires Coherent(c, w)
    ensures Coherent(c, Next(c, w, e))
  {
    match e
    case Lookup(id, at, q, now) => LookupKeeps(c, w, id, at, q, now);
    case Snapshot(id) =>
    case Resolve(id) => ResolveKeeps(c, w, id);
    case Finish(id, now) => FinishKeeps(c, w, id, now);
    case Abandon(id) =>
    case Write(at, user, rows) => WriteKeeps(c, w, at, user, rows);
    case Clear(index) =>
      if index in w.pending {
        var m := w.pending[index];
        InvalidateAtKeeps(c, w.(pending := w.pending[index := m.(cleared := true)]), m.at, m.user, index);
      }
    case Broadcast(index) =>
    case Deliver(m) =>
      if m in w.inbox { InvalidateAtKeeps(c, w.(inbox := w.inbox - {m}), m.dest, m.user, m.index); }
    case Lose(m) =>
    case Flush(at) => FlushKeeps(c, w, at);
    case Restart(at) => RestartKeeps(c, w, at);
  }

  lemma {:induction false} RunKeeps(c: Config, w: World, events: seq<Event>)
    requires Coherent(c, w)
    ensures Coherent(c, Run(c, w, events))
    decreases |events|
  {
    if events != [] {
      StepKeeps(c, w, events[0]);
      RunKeeps(c, Next(c, w, events[0]), events[1..]);
    }
  }
}
