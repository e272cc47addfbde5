/** The two-tier deployment: in-process caches over one shared store with a time-to-live. A promotion
    ignores the generation and a store write outlives it, so coherence fails here; the result is a bound on
    the age of every answer. `AclInvalidation` says when an invalidation is enough. */
module AclStaleness {
  import opened Options
  import opened AclCache

  // ---- The shared store -------------------------------------------------------------------------

  /** `born` and `version` are stamps of the model, as in the in-process tier. */
  datatype Entry = Entry(value: string, exp: int, born: int, version: nat)

  type L2 = map<string, Entry>

  function StoreGet(l2: L2, key: string, now: int): (Option<Entry>, L2) {
    if key !in l2 then (None, l2)
    else if l2[key].exp <= now then (None, l2 - {key})
    else (Some(l2[key]), l2)
  }

  function StoreSet(l2: L2, key: string, value: string, ttlSeconds: int, now: int, born: int, version: nat): L2 {
    l2[key := Entry(value, now + ttlSeconds * 1000, born, version)]
  }

  predicate AnswersAt(l2: L2, key: string, t: int) { StoreGet(l2, key, t).0.Some? }

  /** After a set the key answers its value up to, and not including, the moment its time to live is over;
      every other key answers as before. */
  lemma SetThenGet(l2: L2, key: string, value: string, ttlSeconds: int, now: int, born: int, version: nat, k: string, t: int)
    ensures var after := StoreSet(l2, key, value, ttlSeconds, now, born, version);
      && (AnswersAt(after, key, t) <==> t < now + ttlSeconds * 1000)
      && (AnswersAt(after, key, t) ==> StoreGet(after, key, t).0.value.value == value)
      && (k != key ==> StoreGet(after, k, t).0 == StoreGet(l2, k, t).0)
  {
  }

  class InMemoryAclStore {
    var store: L2

    constructor ()
      ensures store == map[]
    {
      store := map[];
    }

    method Get(key: string, now: int) returns (value: Option<string>)
      modifies this
      ensures store == StoreGet(old(store), key, now).1
      ensures value == match StoreGet(old(store), key, now).0 case Some(e) => Some(e.value) case None => None
      ensures value.Some? <==> key in old(store) && now < old(store)[key].exp
      ensures value.Some? ==> value.value == old(store)[key].value
      ensures store == if value.Some? then old(store) else old(store) - {key}
    {
      if key !in store { return None; }
      var entry := store[key];
      if entry.exp <= now {
        store := store - {key};
        return None;
      }
      value := Some(entry.value);
    }

    method Set(key: string, value: string, ttlSeconds: int, now: int, born: int, version: nat)
      modifies this
      ensures store == StoreSet(old(store), key, value, ttlSeconds, now, born, version)
      ensures forall t :: AnswersAt(store, key, t) <==> t < now + ttlSeconds * 1000
      ensures forall t :: t < now + ttlSeconds * 1000 ==> StoreGet(store, key, t).0.value.value == value
      ensures forall k, t :: k != key ==> StoreGet(store, k, t).0 == StoreGet(old(store), k, t).0
    {
      store := store[key := Entry(value, now + ttlSeconds * 1000, born, version)];
    }

    method Del(keys: seq<string>)
      modifies this
      ensures store == old(store) - (set k | k in keys)
    {
      for i := 0 to |keys|
        invariant store == old(store) - (set k | k in keys[..i])
      {
        store := store - {keys[i]};
      }
      assert keys[..|keys|] == keys;
    }
  }

  // ---- The deployment ---------------------------------------------------------------------------

  /** `callMs`: a call to the shared store answers within this time or not at all. */
  datatype Config = Config(ramTtlMs: int, l2TtlSec: int, cap: int, callMs: nat)

  datatype Decision = Decision(key: string, v: bool, born: int, version: nat)

  /** A `store.set` on its way. It was issued when its decision was accepted. */
  datatype StoreWrite = StoreWrite(decision: Decision)

  /** A `store.get` on its way, with what the store answered once it has. */
  datatype StoreRead = StoreRead(at: nat, key: string, issued: int, served: Option<Entry>)

  /** `accepted`: every decision `set` took into the cache. `answers`: every cached decision `get`
      returned, with the time it did. */
  datatype World = World(now: int, rams: map<nat, Ram>, l2: L2, stores: map<nat, StoreWrite>,
                         fetches: map<nat, StoreRead>, accepted: set<Decision>, answers: set<Decision>)

  datatype Event =
    | Tick(ms: nat)
    | Get(at: nat, key: string, id: nat)
    | Serve(id: nat)
    | Finish(id: nat)
    | Accept(at: nat, key: string, v: bool, id: nat, version: nat)
    | WriteLands(id: nat)
    | CallFails(id: nat)
    | InvalidateLocal(at: nat, userId: string)
    | Delete(keys: set<string>)

  function Text(v: bool): string { if v then "1" else "0" }

  function GetStep(w: World, at: nat, key: string, id: nat): World {
    if at in w.rams && id !in w.fetches then
      var (answer, ram) := LookupRam(w.rams[at], key, w.now);
      var w' := w.(rams := w.rams[at := ram]);
      if answer.Hit? then w'.(answers := w.answers + {Decision(key, answer.v, w.now, Find(w.rams[at], key).value.version)})
      else w'.(fetches := w.fetches[id := StoreRead(at, key, w.now, None)])
    else w
  }

  function ServeStep(w: World, id: nat): World {
    if id in w.fetches && w.fetches[id].served.None? then
      var (entry, l2) := StoreGet(w.l2, w.fetches[id].key, w.now);
      w.(l2 := l2, fetches := if entry.Some? then w.fetches[id := w.fetches[id].(served := entry)] else w.fetches - {id})
    else w
  }

  /** The answer is back: a recognised value is promoted and returned. */
  function FinishStep(c: Config, w: World, id: nat): World {
    if id in w.fetches && w.fetches[id].served.Some? && w.fetches[id].at in w.rams && w.now <= w.fetches[id].issued + c.callMs then
      var r, e := w.fetches[id], w.fetches[id].served.value;
      var done := w.(fetches := w.fetches - {id});
      if e.value == "1" || e.value == "0" then
        done.(rams := w.rams[r.at := RamSet(w.rams[r.at], c.cap, Slot(r.key, e.value == "1", w.now + c.ramTtlMs, e.born, e.version))],
              answers := w.answers + {Decision(r.key, e.value == "1", w.now, e.version)})
      else done
    else w
  }

  /** `set` past its generation check: into the in-process tier now, to the shared store in flight. */
  function AcceptStep(c: Config, w: World, at: nat, key: string, v: bool, id: nat, version: nat): World {
    if at in w.rams && id !in w.stores then
      var d := Decision(key, v, w.now, version);
      w.(rams := w.rams[at := RamSet(w.rams[at], c.cap, Slot(key, v, w.now + c.ramTtlMs, w.now, version))],
         stores := w.stores[id := StoreWrite(d)], accepted := w.accepted + {d})
    else w
  }

  function WriteLandsStep(c: Config, w: World, id: nat): World {
    if id in w.stores && w.now <= w.stores[id].decision.born + c.callMs then
      var d := w.stores[id].decision;
      w.(l2 := StoreSet(w.l2, d.key, Text(d.v), c.l2TtlSec, w.now, d.born, d.version), stores := w.stores - {id})
    else w
  }

  function Next(c: Config, w: World, e: Event): World {
    match e
    case Tick(ms) => w.(now := w.now + ms)
    case Get(at, key, id) => GetStep(w, at, key, id)
    case Serve(id) => ServeStep(w, id)
    case Finish(id) => FinishStep(c, w, id)
    case Accept(at, key, v, id, version) => AcceptStep(c, w, at, key, v, id, version)
    case WriteLands(id) => WriteLandsStep(c, w, id)
    case CallFails(id) => w.(fetches := w.fetches - {id}, stores := w.stores - {id})
    case InvalidateLocal(at, userId) =>
      if at in w.rams then w.(rams := w.rams[at := InvalidateRam(w.rams[at], userId)]) else w
    case Delete(keys) => w.(l2 := w.l2 - keys)
  }

  function Run(c: Config, w: World, events: seq<Event>): World
    decreases |events|
  {
    if events == [] then w else Run(c, Next(c, w, events[0]), events[1..])
  }

  predicate Initial(w: World) {
    && (forall i | i in w.rams :: w.rams[i] == [])
    && w.l2 == map[] && w.stores == map[] && w.fetches == map[] && w.accepted == {} && w.answers == {}
  }

  // ---- Ages -------------------------------------------------------------------------------------

  function Pos(n: int): nat { if n < 0 then 0 else n }

  /** How old a value in the shared store may be when it expires there. */
  function StoreAge(c: Config): nat { Pos(c.l2TtlSec * 1000) + c.callMs }

  function MaxAge(c: Config): nat { StoreAge(c) + c.callMs + Pos(c.ramTtlMs) }

  ghost predicate EntryOk(c: Config, w: World, key: string, e: Entry) {
    && (e.value == "1" || e.value == "0")
    && Decision(key, e.value == "1", e.born, e.version) in w.accepted
    && e.exp <= e.born + StoreAge(c)
  }

  ghost predicate SlotOk(c: Config, w: World, s: Slot) {
    Decision(s.key, s.v, s.born, s.version) in w.accepted && s.exp <= s.born + MaxAge(c)
  }

  ghost predicate RamOk(c: Config, w: World, ram: Ram) {
    && DistinctSlots(ram) && (c.cap > 0 ==> |ram| <= c.cap)
    && forall s :: s in ram ==> SlotOk(c, w, s)
  }

  ghost predicate ReadOk(c: Config, w: World, r: StoreRead) {
    r.served.Some? ==> EntryOk(c, w, r.key, r.served.value) && r.issued < r.served.value.born + StoreAge(c)
  }

  /** The answer repeats a decision accepted less than the maximal age before. */
  ghost predicate AnswerOk(c: Config, w: World, a: Decision) {
    exists d :: d in w.accepted && d.key == a.key && d.v == a.v && d.version == a.version && d.born <= a.born < d.born + MaxAge(c)
  }

  ghost predicate Bounded(c: Config, w: World) {
    && (forall d :: d in w.accepted ==> d.born <= w.now)
    && (forall i :: i in w.rams ==> RamOk(c, w, w.rams[i]))
    && (forall k :: k in w.l2 ==> EntryOk(c, w, k, w.l2[k]))
    && (forall id :: id in w.stores ==> w.stores[id].decision in w.accepted)
    && (forall id :: id in w.fetches ==> w.fetches[id].issued <= w.now && ReadOk(c, w, w.fetches[id]))
    && (forall a :: a in w.answers ==> AnswerOk(c, w, a))
  }

  // ---- Every step keeps the bounds ----------------------------------------------------------------

  lemma DropKeeps(c: Config, w: World, ram: Ram, key: string)
    requires RamOk(c, w, ram)
    ensures RamOk(c, w, Drop(ram, key))
  {
    SelectDistinct((s: Slot) => s.key != key, ram);
    forall s | s in Drop(ram, key) ensures s in ram { DropMember(ram, key, s); }
  }

  lemma GetKeeps(c: Config, w: World, at: nat, key: string, id: nat)
    requires Bounded(c, w)
    ensures Bounded(c, GetStep(w, at, key, id))
  {
    if at in w.rams && id !in w.fetches {
      var ram := w.rams[at];
      DropKeeps(c, w, ram, key);
      var found := Find(ram, key);
      if found.Some? && found.value.exp > w.now {
        assert SlotOk(c, w, found.value);
        assert AnswerOk(c, w, Decision(key, found.value.v, w.now, found.value.version));
      }
    }
  }

  lemma ServeKeeps(c: Config, w: World, id: nat)
    requires Bounded(c, w)
    ensures Bounded(c, ServeStep(w, id))
  {
  }

  lemma RamSetKeeps(c: Config, w: World, ram: Ram, slot: Slot)
    requires RamOk(c, w, ram) && SlotOk(c, w, slot)
    ensures RamOk(c, w, RamSet(ram, c.cap, slot))
  {
    RamSetEffect(ram, c.cap, slot);
  }

  lemma FinishKeeps(c: Config, w: World, id: nat)
    requires Bounded(c, w)
    ensures Bounded(c, FinishStep(c, w, id))
  {
    if id in w.fetches && w.fetches[id].served.Some? && w.fetches[id].at in w.rams && w.now <= w.fetches[id].issued + c.callMs {
      var r, e := w.fetches[id], w.fetches[id].served.value;
      assert ReadOk(c, w, r);
      RamSetKeeps(c, w, w.rams[r.at], Slot(r.key, e.value == "1", w.now + c.ramTtlMs, e.born, e.version));
      var d := Decision(r.key, e.value == "1", e.born, e.version);
      assert d in w.accepted && w.now < d.born + MaxAge(c);
      assert AnswerOk(c, w, Decision(r.key, e.value == "1", w.now, e.version));
    }
  }

  /** Accepting one more decision disturbs nothing already stored. */
  lemma MoreAccepted(c: Config, w: World, d: Decision)
    requires Bounded(c, w) && d.born <= w.now
    ensures Bounded(c, w.(accepted := w.accepted + {d}))
  {
    var w' := w.(accepted := w.accepted + {d});
    forall i | i in w.rams ensures RamOk(c, w', w.rams[i]) {
      forall s | s in w.rams[i] ensures SlotOk(c, w', s) { assert SlotOk(c, w, s); }
    }
    forall a | a in w.answers ensures AnswerOk(c, w', a) {
      assert AnswerOk(c, w, a);
      var b :| b in w.accepted && b.key == a.key && b.v == a.v && b.version == a.version && b.born <= a.born < b.born + MaxAge(c);
      assert b in w'.accepted;
    }
  }

  lemma AcceptKeeps(c: Config, w: World, at: nat, key: string, v: bool, id: nat, version: nat)
    requires Bounded(c, w)
    ensures Bounded(c, AcceptStep(c, w, at, key, v, id, version))
  {
    if at in w.rams && id !in w.stores {
      var d := Decision(key, v, w.now, version);
      var w' := w.(accepted := w.accepted + {d});
      MoreAccepted(c, w, d);
      RamSetKeeps(c, w', w.rams[at], Slot(key, v, w.now + c.ramTtlMs, w.now, version));
    }
  }

  lemma InvalidateKeeps(c: Config, w: World, at: nat, userId: string)
    requires Bounded(c, w) && at in w.rams
    ensures Bounded(c, w.(rams := w.rams[at := InvalidateRam(w.rams[at], userId)]))
  {
    assert RamOk(c, w, w.rams[at]);
    InvalidateEffect(w.rams[at], userId);
  }

  lemma StepKeeps(c: Config, w: World, e: Event)
    requires Bounded(c, w)
    ensures Bounded(c, Next(c, w, e))
  {
    match e
    case Tick(ms) =>
    case Get(at, key, id) => GetKeeps(c, w, at, key, id);
    case Serve(id) => ServeKeeps(c, w, id);
    case Finish(id) => FinishKeeps(c, w, id);
    case Accept(at, key, v, id, version) => AcceptKeeps(c, w, at, key, v, id, version);
    case WriteLands(id) =>
    case CallFails(id) =>
    case InvalidateLocal(at, userId) => if at in w.rams { InvalidateKeeps(c, w, at, userId); }
    case Delete(keys) =>
  }

  lemma {:induction false} RunKeeps(c: Config, w: World, events: seq<Event>)
    requires Bounded(c, w)
    ensures Bounded(c, Run(c, w, events))
    decreases |events|
  {
    if events != [] {
      StepKeeps(c, w, events[0]);
      RunKeeps(c, Next(c, w, events[0]), events[1..]);
    }
  }

  // ---- Results ------------------------------------------------------------------------------------

  /** In every run, every cached answer repeats a decision `set` accepted for that key less than
      l2TtlSec seconds plus ramTtlMs plus two store calls earlier. */
  lemma StalenessBound(c: Config, w: World, events: seq<Event>, a: Decision)
    requires Initial(w) && a in Run(c, w, events).answers
    ensures exists d :: (d in Run(c, w, events).accepted && d.key == a.key && d.v == a.v && d.version == a.version
      && d.born <= a.born < d.born + Pos(c.l2TtlSec * 1000) + Pos(c.ramTtlMs) + 2 * c.callMs)
  {
    RunKeeps(c, w, events);
    var r := Run(c, w, events);
    assert AnswerOk(c, r, a);
    var d :| d in r.accepted && d.key == a.key && d.v == a.v && d.version == a.version && d.born <= a.born < d.born + MaxAge(c);
    assert d.born <= a.born < d.born + Pos(c.l2TtlSec * 1000) + Pos(c.ramTtlMs) + 2 * c.callMs;
  }

  /** In every run, no in-process tier outgrows a positive cap. */
  lemma CapHolds(c: Config, w: World, events: seq<Event>, i: nat)
    requires Initial(w) && c.cap > 0 && i in Run(c, w, events).rams
    ensures |Run(c, w, events).rams[i]| <= c.cap
  {
    RunKeeps(c, w, events);
    assert RamOk(c, Run(c, w, events), Run(c, w, events).rams[i]);
  }

  // ---- The bound is met ---------------------------------------------------------------------------

  lemma RunCons(c: Config, w: World, e: Event, events: seq<Event>)
    ensures Run(c, w, [e] + events) == Run(c, Next(c, w, e), events)
  {
    assert ([e] + events)[1..] == events;
  }

  /** Accepted by one instance, stored late, promoted late by another, and read there at the last moment. */
  function SlowPath(c: Config, key: string): seq<Event> {
    [Accept(0, key, true, 0, 0)] + ([Tick(c.callMs)] + ([WriteLands(0)] + ([Tick(Pos(c.l2TtlSec * 1000 - 1))]
      + ([Get(1, key, 0)] + ([Serve(0)] + ([Tick(c.callMs)] + ([Finish(0)] + ([Tick(Pos(c.ramTtlMs - 1))]
      + ([Get(1, key, 1)] + [])))))))))
  }

  /** The stages of the slow path: stored, fetched, promoted. */
  function Stored(c: Config, key: string): World {
    var exp := c.callMs + c.l2TtlSec * 1000;
    World(exp - 1, map[0 := RamSet([], c.cap, Slot(key, true, c.ramTtlMs, 0, 0)), 1 := []],
          map[key := Entry("1", exp, 0, 0)], map[], map[], {Decision(key, true, 0, 0)}, {})
  }

  function Promoted(c: Config, key: string): World {
    var at := 2 * c.callMs + c.l2TtlSec * 1000 - 1;
    Stored(c, key).(now := at, answers := {Decision(key, true, at, 0)},
      rams := Stored(c, key).rams[1 := [Slot(key, true, at + c.ramTtlMs, 0, 0)]])
  }

  const COLD := World(0, map[0 := [], 1 := []], map[], map[], map[], {}, {})

  lemma SlowStore(c: Config, key: string, rest: seq<Event>)
    requires c.l2TtlSec > 0
    ensures Run(c, COLD, [Accept(0, key, true, 0, 0)] + ([Tick(c.callMs)] + ([WriteLands(0)]
                         + ([Tick(Pos(c.l2TtlSec * 1000 - 1))] + rest))))
         == Run(c, Stored(c, key), rest)
  {
    var tick := [Tick(Pos(c.l2TtlSec * 1000 - 1))] + rest;
    var lands := [WriteLands(0)] + tick;
    RunCons(c, COLD, Accept(0, key, true, 0, 0), [Tick(c.callMs)] + lands);
    var accepted := Next(c, COLD, Accept(0, key, true, 0, 0));
    RunCons(c, accepted, Tick(c.callMs), lands);
    var late := Next(c, accepted, Tick(c.callMs));
    RunCons(c, late, WriteLands(0), tick);
    var stored := Next(c, late, WriteLands(0));
    RunCons(c, stored, Tick(Pos(c.l2TtlSec * 1000 - 1)), rest);
    var w := Next(c, stored, Tick(Pos(c.l2TtlSec * 1000 - 1)));
    assert w.rams == Stored(c, key).rams && w.l2 == Stored(c, key).l2;
    assert w.stores == map[] && w.fetches == map[] && w.accepted == {Decision(key, true, 0, 0)};
    assert w == Stored(c, key);
  }

  lemma SlowPromotion(c: Config, key: string, rest: seq<Event>)
    requires c.l2TtlSec > 0
    ensures Run(c, Stored(c, key), [Get(1, key, 0)] + ([Serve(0)] + ([Tick(c.callMs)] + ([Finish(0)] + rest))))
         == Run(c, Promoted(c, key), rest)
  {
    var w := Stored(c, key);
    var finish := [Finish(0)] + rest;
    RunCons(c, w, Get(1, key, 0), [Serve(0)] + ([Tick(c.callMs)] + finish));
    var asked := Next(c, w, Get(1, key, 0));
    RunCons(c, asked, Serve(0), [Tick(c.callMs)] + finish);
    var served := Next(c, asked, Serve(0));
    RunCons(c, served, Tick(c.callMs), finish);
    var back := Next(c, served, Tick(c.callMs));
    RunCons(c, back, Finish(0), rest);
    var r := Next(c, back, Finish(0));
    var slot := Slot(key, true, back.now + c.ramTtlMs, 0, 0);
    assert back.rams[1] == [] && RamSet([], c.cap, slot) == [slot];
    assert r.rams == Promoted(c, key).rams && r.fetches == map[];
    assert r == Promoted(c, key);
  }

  /** No better bound holds: with positive times to live some run returns an answer two milliseconds
      short of it. */
  lemma BoundIsSharp(c: Config, key: string)
    requires c.l2TtlSec > 0 && c.ramTtlMs > 0
    ensures Initial(COLD)
    ensures Decision(key, true, c.l2TtlSec * 1000 + c.ramTtlMs + 2 * c.callMs - 2, 0) in Run(c, COLD, SlowPath(c, key)).answers
    ensures forall d :: d in Run(c, COLD, SlowPath(c, key)).accepted ==> d.born == 0
  {
    var last := [Tick(Pos(c.ramTtlMs - 1))] + ([Get(1, key, 1)] + []);
    SlowStore(c, key, [Get(1, key, 0)] + ([Serve(0)] + ([Tick(c.callMs)] + ([Finish(0)] + last))));
    SlowPromotion(c, key, last);
    var w := Promoted(c, key);
    RunCons(c, w, Tick(Pos(c.ramTtlMs - 1)), [Get(1, key, 1)] + []);
    RunCons(c, Next(c, w, Tick(Pos(c.ramTtlMs - 1))), Get(1, key, 1), []);
  }
}
