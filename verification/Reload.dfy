/** Coalescing of route-table reloads in the HTTP gateway. The asynchronous `reload` is cut at its awaits:
    what a signal does at once, a pass finishing, and the loop test after it. Anything may happen between. */
module Reload {

  /** `active`: start times of the passes running now. `passes` and `signals`: all start and arrival
      times so far. Every event takes one tick of `clock`. */
  datatype World = World(clock: nat, inFlight: bool, pending: bool, active: seq<nat>, passes: seq<nat>, signals: seq<nat>)

  datatype Event = Signal | PassDone | LoopTest | PassThrows

  const BOOT := World(0, false, false, [], [], [])

  function StartPass(w: World): World {
    w.(pending := false, active := w.active + [w.clock], passes := w.passes + [w.clock])
  }

  /** A call of `reload`, up to its first await. */
  function SignalStep(w: World): World {
    var heard := w.(signals := w.signals + [w.clock]);
    if w.inFlight then heard.(pending := true) else StartPass(heard.(inFlight := true))
  }

  function Next(w: World, e: Event): World {
    var after := match e
      case Signal => SignalStep(w)
      case PassDone => if w.active != [] then w.(active := w.active[1..]) else w
      case LoopTest =>
        if w.inFlight && w.active == [] then if w.pending then StartPass(w) else w.(inFlight := false) else w
      case PassThrows => if w.active != [] then w.(active := w.active[1..], inFlight := false) else w;
    after.(clock := w.clock + 1)
  }

  function Run(w: World, events: seq<Event>): World
    decreases |events|
  {
    if events == [] then w else Run(Next(w, events[0]), events[1..])
  }

  predicate Served(w: World, s: nat) { exists i | 0 <= i < |w.passes| :: w.passes[i] >= s }

  // ---- The invariant ------------------------------------------------------------------------------

  ghost predicate Coalesced(w: World) {
    && |w.active| <= 1
    && (w.active != [] ==> w.inFlight)
    && (forall i :: 0 <= i < |w.signals| ==> w.signals[i] < w.clock)
    && (forall i :: 0 <= i < |w.passes| ==> w.passes[i] < w.clock)
    && (w.signals != [] && !w.pending ==> Served(w, w.signals[|w.signals| - 1]))
    && (w.pending ==> w.signals != [] && !Served(w, w.signals[|w.signals| - 1]))
    && (forall i, j :: 0 <= i < j < |w.signals| ==> w.signals[i] <= w.signals[j])
    && |w.passes| + (if w.pending then 1 else 0) <= |w.signals|
  }

  /** A pass that starts now serves every signal so far. */
  lemma StartServes(w: World, s: nat)
    requires s <= w.clock
    ensures Served(StartPass(w), s)
  {
    assert StartPass(w).passes[|w.passes|] == w.clock;
  }

  lemma HeardInFlight(w: World)
    requires Coalesced(w) && w.inFlight
    ensures Coalesced(w.(signals := w.signals + [w.clock], pending := true, clock := w.clock + 1))
  {
  }

  lemma HeardAtRest(w: World)
    requires Coalesced(w) && !w.inFlight
    ensures Coalesced(StartPass(w.(signals := w.signals + [w.clock], inFlight := true)).(clock := w.clock + 1))
  {
    StartServes(w.(signals := w.signals + [w.clock], inFlight := true), w.clock);
  }

  lemma LoopCoalesced(w: World)
    requires Coalesced(w) && w.inFlight && w.active == [] && w.pending
    ensures Coalesced(StartPass(w).(clock := w.clock + 1))
  {
    StartServes(w, w.signals[|w.signals| - 1]);
  }

  lemma StepCoalesced(w: World, e: Event)
    requires Coalesced(w)
    ensures Coalesced(Next(w, e))
  {
    match e
    case Signal => if w.inFlight { HeardInFlight(w); } else { HeardAtRest(w); }
    case PassDone =>
    case LoopTest => if w.inFlight && w.active == [] && w.pending { LoopCoalesced(w); }
    case PassThrows =>
  }

  lemma {:induction false} RunCoalesced(w: World, events: seq<Event>)
    requires Coalesced(w)
    ensures Coalesced(Run(w, events))
    decreases |events|
  {
    if events != [] {
      StepCoalesced(w, events[0]);
      RunCoalesced(Next(w, events[0]), events[1..]);
    }
  }

  // ---- Results ------------------------------------------------------------------------------------

  /** Two passes never overlap, and there are never more passes than signals, even if passes throw. */
  lemma NoOverlap(events: seq<Event>)
    ensures |Run(BOOT, events).active| <= 1
    ensures |Run(BOOT, events).passes| <= |Run(BOOT, events).signals|
  {
    RunCoalesced(BOOT, events);
  }

  /** At rest, every signal so far has been followed by a pass that started no earlier, exactly when the
      pending flag is down; it can only be up because a pass threw. */
  lemma ServedAtRestIff(events: seq<Event>)
    requires !Run(BOOT, events).inFlight
    ensures var w := Run(BOOT, events);
      (forall i :: 0 <= i < |w.signals| ==> Served(w, w.signals[i])) <==> !w.pending
  {
    RunCoalesced(BOOT, events);
    var w := Run(BOOT, events);
    if !w.pending && w.signals != [] {
      var last := w.signals[|w.signals| - 1];
      var p :| 0 <= p < |w.passes| && w.passes[p] >= last;
      forall i | 0 <= i < |w.signals| ensures Served(w, w.signals[i]) {
        assert w.signals[i] <= last <= w.passes[p];
      }
    }
  }

  ghost predicate Calm(w: World) { w.pending ==> w.inFlight }

  lemma {:induction false} RunCalm(w: World, events: seq<Event>)
    requires Coalesced(w) && Calm(w) && PassThrows !in events
    ensures Calm(Run(w, events))
    decreases |events|
  {
    if events != [] {
      assert events[0] in events;
      StepCoalesced(w, events[0]);
      RunCalm(Next(w, events[0]), events[1..]);
    }
  }

  /** No lost signal: if no pass throws, then at rest every signal has been served. */
  lemma NoLostSignal(events: seq<Event>)
    requires PassThrows !in events && !Run(BOOT, events).inFlight
    ensures var w := Run(BOOT, events); forall i :: 0 <= i < |w.signals| ==> Served(w, w.signals[i])
  {
    RunCalm(BOOT, events);
    ServedAtRestIff(events);
  }

  lemma {:induction false} RunConcat(w: World, a: seq<Event>, b: seq<Event>)
    ensures Run(w, a + b) == Run(Run(w, a), b)
    decreases |a|
  {
    if a == [] {
      assert a + b == b;
    } else {
      assert (a + b)[1..] == a[1..] + b;
      RunConcat(Next(w, a[0]), a[1..], b);
    }
  }

  const WIND_DOWN := [PassDone, LoopTest, PassDone, LoopTest]

  lemma WindDown(w: World)
    requires Coalesced(w)
    ensures !Run(w, WIND_DOWN).inFlight && Run(w, WIND_DOWN).signals == w.signals
  {
    var a := Next(w, PassDone);
    var b := Next(a, LoopTest);
    var c := Next(b, PassDone);
    assert WIND_DOWN[1..] == [LoopTest, PassDone, LoopTest] && WIND_DOWN[1..][1..] == [PassDone, LoopTest];
    assert WIND_DOWN[1..][1..][1..] == [LoopTest] && [LoopTest][1..] == [];
    assert Run(c, [LoopTest]) == Next(c, LoopTest);
    assert Run(b, [PassDone, LoopTest]) == Next(c, LoopTest);
    assert Run(a, [LoopTest, PassDone, LoopTest]) == Next(c, LoopTest);
  }

  /** And rest is never far: once signals pause, the running pass and at most one more bring it about, and
      with it a pass for every signal heard. */
  lemma EverySignalIsServed(events: seq<Event>)
    requires PassThrows !in events
    ensures var w := Run(BOOT, events + WIND_DOWN);
      && !w.inFlight && w.signals == Run(BOOT, events).signals
      && forall i :: 0 <= i < |w.signals| ==> Served(w, w.signals[i])
  {
    RunCoalesced(BOOT, events);
    RunConcat(BOOT, events, WIND_DOWN);
    WindDown(Run(BOOT, events));
    NoLostSignal(events + WIND_DOWN);
  }

  /** A pass that throws with a signal pending loses that signal. */
  lemma ThrowLosesPendingSignal()
    ensures var w := Run(BOOT, [Signal, Signal, PassThrows]);
      !w.inFlight && |w.signals| == 2 && !Served(w, w.signals[1])
  {
    var a := Next(BOOT, Signal);
    var b := Next(a, Signal);
    var c := Next(b, PassThrows);
    assert [Signal, Signal, PassThrows][1..] == [Signal, PassThrows] && [Signal, PassThrows][1..] == [PassThrows];
    assert [PassThrows][1..] == [];
    assert Run(b, [PassThrows]) == c;
    assert Run(a, [Signal, PassThrows]) == c;
    assert c.passes == [0] && c.signals == [0, 1];
  }

  lemma RunLast(events: seq<Event>)
    requires events != []
    ensures Run(BOOT, events) == Next(Run(BOOT, events[..|events| - 1]), events[|events| - 1])
  {
    var n := |events| - 1;
    assert events[..n] + [events[n]] == events;
    RunConcat(BOOT, events[..n], [events[n]]);
    assert [events[n]][1..] == [];
  }

  /** The pass running when event `k` came threw with a signal pending. */
  predicate ThrewPending(events: seq<Event>, k: nat)
    requires k < |events|
  {
    var w := Run(BOOT, events[..k]);
    events[k] == PassThrows && w.active != [] && w.pending
  }

  /** Such a throw, and no signal since. */
  predicate LeftPending(events: seq<Event>) {
    exists k | 0 <= k < |events| :: ThrewPending(events, k) && Signal !in events[k + 1..]
  }

  lemma LeftPendingLast(events: seq<Event>)
    requires events != []
    ensures var n := |events| - 1;
      LeftPending(events) <==> ThrewPending(events, n) || (LeftPending(events[..n]) && events[n] != Signal)
  {
    var n := |events| - 1;
    var front := events[..n];
    forall k | 0 <= k < n
      ensures ThrewPending(front, k) == ThrewPending(events, k)
      ensures Signal !in events[k + 1..] <==> Signal !in front[k + 1..] && events[n] != Signal
    {
      assert front[..k] == events[..k];
      assert events[k + 1..] == front[k + 1..] + [events[n]];
    }
    assert events[n + 1..] == [];
  }

  lemma {:induction false} PendingAtRest(events: seq<Event>)
    ensures !Run(BOOT, events).inFlight && Run(BOOT, events).pending <==> LeftPending(events)
    decreases |events|
  {
    if events != [] {
      var front := events[..|events| - 1];
      PendingAtRest(front);
      LeftPendingLast(events);
      RunLast(events);
      RunCoalesced(BOOT, front);
    }
  }

  /** Exactly when a signal is lost: at rest some signal was never followed by a pass if and only if a pass
      threw with a signal pending and none has come since. */
  lemma LostSignalIff(events: seq<Event>)
    requires !Run(BOOT, events).inFlight
    ensures var w := Run(BOOT, events);
      (exists i :: 0 <= i < |w.signals| && !Served(w, w.signals[i])) <==> LeftPending(events)
  {
    ServedAtRestIff(events);
    PendingAtRest(events);
  }

  // ---- The service --------------------------------------------------------------------------------

  /** `reload` of the gateway, cut at its await. */
  class HttpHandlerService {
    var w: World

    constructor ()
      ensures w == BOOT
    {
      w := BOOT;
    }

    /** The call; -1 when coalesced into the pass in flight. */
    method Reload() returns (started: bool)
      modifies this
      ensures w == Next(old(w), Signal) && started == !old(w.inFlight)
    {
      w := w.(signals := w.signals + [w.clock], clock := w.clock + 1);
      if w.inFlight {
        w := w.(pending := true);
        return false;
      }
      w := w.(inFlight := true);
      BeginPass(w.clock - 1);
      started := true;
    }

    /** The head of the do-while body. */
    method BeginPass(now: nat)
      modifies this
      ensures w == old(w).(pending := false, active := old(w).active + [now], passes := old(w).passes + [now])
    {
      w := w.(pending := false);
      w := w.(active := w.active + [now], passes := w.passes + [now]);
    }

    /** After the await: the loop test, and the `finally` when the loop ends. */
    method Resume() returns (again: bool)
      requires w.inFlight && w.active == []
      modifies this
      ensures w == Next(old(w), LoopTest) && again == old(w.pending)
    {
      again := w.pending;
      var now := w.clock;
      w := w.(clock := now + 1);
      if again { BeginPass(now); } else { w := w.(inFlight := false); }
    }
  }
}
