/** A message whose handler always throws, with no fault on the way: the exact number of attempts, the one
    exhaustion, and that such a run cannot go on for ever. */
module RetryExact {
  import opened Options
  import opened RetryPolicy
  import opened RetryLife
  import opened RetrySafety

  /** The handler throws, and every call the consumer makes works. */
  predicate Faultless(e: Event) {
    match e
    case Deliver(_) => true
    case Start(_) => true
    case Throw(_) => true
    case HandOver(_, _, publish, reply) => publish == Confirmed && reply == Confirmed
    case AckHanded(_, fate) => fate == Lands
    case Expire(_) => true
    case _ => false
  }

  ghost predicate Quiet(w: World) { forall i :: 0 <= i < |w.copies| ==> !OnTheWay(w.copies[i].place) }

  /** Places of the youngest copy while attempts go on, and once the message is exhausted. */
  predicate Trying(place: Place) {
    place.Queued? || place.Parked?
    || (place.Taken? && place.live && (place.phase.Delivered? || place.phase.Running? || place.phase == Failing(true)))
  }

  predicate Ended(place: Place) {
    place.DeadLettered? || place == Dropped(true) || place == Taken(Discarding(true), true)
  }

  /** Handler executions for the copy itself. */
  function OwnRuns(place: Place): nat {
    if place.Queued? || place.Parked? || place.DeadLettered? || (place.Taken? && place.phase.Delivered?) then 0 else 1
  }

  predicate Addressed(m: Message) { Given(m.replyTo) && Given(m.correlationId) }

  /** Older copies are handed over one by one; only the youngest is still trying, or has ended. */
  ghost predicate InTurn(c: Consumer, o: Message, w: World) {
    && w.copies != []
    && (forall i :: 0 <= i < |w.copies| - 1 ==> w.copies[i].place == Settled || w.copies[i].place == Taken(Handed, true))
    && (forall i :: 0 <= i < |w.copies| ==> Count(w.copies[i].msg) == Count(o) + i && SameRequest(o, w.copies[i].msg))
    && (forall i :: 0 <= i < |w.copies| && !w.copies[i].place.DeadLettered? ==>
          w.copies[i].msg.routingKey == if i == 0 then o.routingKey else c.queue)
    && var last := |w.copies| - 1;
       var place := w.copies[last].place;
       && w.executions == last + OwnRuns(place)
       && (Trying(place) || Ended(place))
       && (Trying(place) ==> last < Allowance(c, o) && w.exhausted == 0)
       && (Ended(place) ==> w.executions == Allowance(c, o) && w.exhausted == 1)
       && (place.DeadLettered? <==> Ended(place) && UsableDeadLetter(c))
       && (forall r :: r in w.replies ==> !r.success)
       && |w.replies| == if Addressed(o) then w.exhausted else 0
  }

  /** The youngest copy failed and its successor is on the way. */
  lemma RetryInTurn(c: Consumer, o: Message, w: World, i: nat)
    requires InTurn(c, o, w) && i == |w.copies| - 1 && w.copies[i].place == Taken(Failing(true), true)
    requires Retries(c, w.copies[i].msg, true)
    ensures InTurn(c, o, PublishCopy(w, i, RetryCopy(c, w.copies[i].msg), if Delayed(c) then Parked else Queued, Confirmed))
  {
    CopiesKeepRequest(c, w.copies[i].msg, "");
    assert SameRequest(o, w.copies[i].msg);
  }

  lemma DeadLetterInTurn(c: Consumer, o: Message, w: World, i: nat, error: string)
    requires InTurn(c, o, w) && i == |w.copies| - 1 && w.copies[i].place == Taken(Failing(true), true)
    requires !Retries(c, w.copies[i].msg, true) && UsableDeadLetter(c)
    ensures InTurn(c, o, HandOverStep(c, w, i, error, Confirmed, Confirmed))
  {
    CopiesKeepRequest(c, w.copies[i].msg, error);
    assert SameRequest(o, w.copies[i].msg);
  }

  lemma GiveUpInTurn(c: Consumer, o: Message, w: World, i: nat, error: string)
    requires InTurn(c, o, w) && i == |w.copies| - 1 && w.copies[i].place == Taken(Failing(true), true)
    requires !Retries(c, w.copies[i].msg, true) && !UsableDeadLetter(c)
    ensures InTurn(c, o, HandOverStep(c, w, i, error, Confirmed, Confirmed))
  {
    assert SameRequest(o, w.copies[i].msg);
  }

  lemma HandOverInTurn(c: Consumer, o: Message, w: World, i: nat, error: string)
    requires InTurn(c, o, w) && i == |w.copies| - 1 && w.copies[i].place == Taken(Failing(true), true)
    ensures InTurn(c, o, HandOverStep(c, w, i, error, Confirmed, Confirmed))
  {
    if Retries(c, w.copies[i].msg, true) {
      RetryInTurn(c, o, w, i);
    } else if UsableDeadLetter(c) {
      DeadLetterInTurn(c, o, w, i, error);
    } else {
      GiveUpInTurn(c, o, w, i, error);
    }
  }

  lemma OnlyYoungest(c: Consumer, o: Message, w: World, i: nat)
    requires InTurn(c, o, w) && i < |w.copies|
    requires !w.copies[i].place.Settled? && w.copies[i].place != Taken(Handed, true)
    ensures i == |w.copies| - 1
  {
  }

  lemma SettleInTurn(c: Consumer, o: Message, w: World, i: nat)
    requires InTurn(c, o, w) && In(w, i, Handed)
    ensures InTurn(c, o, Settle(w, i, Settled))
  {
  }

  lemma DropInTurn(c: Consumer, o: Message, w: World, i: nat)
    requires InTurn(c, o, w) && In(w, i, Discarding(true))
    ensures InTurn(c, o, Settle(w, i, Dropped(true)))
  {
    OnlyYoungest(c, o, w, i);
  }

  lemma AckInTurn(c: Consumer, o: Message, w: World, i: nat)
    requires InTurn(c, o, w)
    ensures InTurn(c, o, AckHandedStep(w, i, Lands))
  {
    if In(w, i, Handed) {
      SettleInTurn(c, o, w, i);
    } else if i < |w.copies| && w.copies[i].place.Taken? && w.copies[i].place.phase.Discarding? {
      OnlyYoungest(c, o, w, i);
      DropInTurn(c, o, w, i);
    }
  }

  lemma TakeInTurn(c: Consumer, o: Message, w: World, i: nat)
    requires InTurn(c, o, w) && i < |w.copies|
    ensures w.copies[i].place.Queued? ==> InTurn(c, o, Move(w, i, Taken(Delivered, true)))
    ensures w.copies[i].place.Parked? ==> InTurn(c, o, Move(w, i, Queued))
  {
    if w.copies[i].place.Queued? || w.copies[i].place.Parked? {
      OnlyYoungest(c, o, w, i);
    }
  }

  lemma StartInTurn(c: Consumer, o: Message, w: World, i: nat)
    requires InTurn(c, o, w) && Admits(c, w, i)
    ensures InTurn(c, o, SetPhase(w, i, Running).(executions := w.executions + 1))
  {
    OnlyYoungest(c, o, w, i);
  }

  lemma ThrowInTurn(c: Consumer, o: Message, w: World, i: nat)
    requires InTurn(c, o, w) && In(w, i, Running)
    ensures InTurn(c, o, SetPhase(w, i, Failing(true)))
  {
    OnlyYoungest(c, o, w, i);
  }

  lemma StepInTurn(c: Consumer, o: Message, w: World, e: Event)
    requires InTurn(c, o, w) && Faultless(e)
    ensures InTurn(c, o, Next(c, w, e))
  {
    if Next(c, w, e) != w {
      match e
      case Deliver(i) => TakeInTurn(c, o, w, i);
      case Start(i) => StartInTurn(c, o, w, i);
      case Throw(i) => ThrowInTurn(c, o, w, i);
      case HandOver(i, error, _, _) => OnlyYoungest(c, o, w, i); HandOverInTurn(c, o, w, i, error);
      case AckHanded(i, _) => AckInTurn(c, o, w, i);
      case Expire(i) => TakeInTurn(c, o, w, i);
    }
  }

  predicate AllFaultless(events: seq<Event>) { forall i :: 0 <= i < |events| ==> Faultless(events[i]) }

  lemma {:induction false} RunInTurn(c: Consumer, o: Message, w: World, events: seq<Event>)
    requires InTurn(c, o, w) && AllFaultless(events)
    ensures InTurn(c, o, Run(c, w, events))
    decreases |events|
  {
    if events != [] {
      StepInTurn(c, o, w, events[0]);
      RunInTurn(c, o, Next(c, w, events[0]), events[1..]);
    }
  }

  /** Once such a run comes to rest, the handler has run exactly as often as allowed (maxAttempts times for
      a message entering without the header), the message was exhausted exactly once, it is dead-lettered
      if it can be and dropped otherwise, and a caller was told of the failure exactly once. */
  lemma AlwaysFailing(c: Consumer, o: Message, events: seq<Event>)
    requires AllFaultless(events) && Quiet(Run(c, Published(o), events))
    ensures var w := Run(c, Published(o), events);
      && w.executions == Allowance(c, o) && w.exhausted == 1
      && w.copies != [] && w.copies[|w.copies| - 1].place == (if UsableDeadLetter(c) then DeadLettered else Dropped(true))
      && (forall i :: 0 <= i < |w.copies| - 1 ==> w.copies[i].place == Settled)
      && |w.replies| == (if Addressed(o) then 1 else 0) && (forall r :: r in w.replies ==> !r.success)
  {
    RunInTurn(c, o, Published(o), events);
    var w := Run(c, Published(o), events);
    assert !OnTheWay(w.copies[|w.copies| - 1].place);
  }

  /** In the words of the policy, for a message that was never retried. */
  lemma FailingByPolicy(c: Consumer, o: Message, events: seq<Event>)
    requires AllFaultless(events) && Quiet(Run(c, Published(o), events)) && o.retries.None?
    ensures var w := Run(c, Published(o), events);
      && w.executions == (if c.policy.maxAttempts.None? then 5
                          else if c.policy.maxAttempts.value >= 1 then c.policy.maxAttempts.value else 1)
      && w.copies != []
      && (w.copies[|w.copies| - 1].place == DeadLettered <==>
            c.policy.deadLetter.Some? && c.policy.deadLetter.value.exchange != "" && c.policy.onExhausted != Some(ToNowhere))
  {
    AlwaysFailing(c, o, events);
    MaxAttemptsExact(c);
    DeadLettersIff(c);
  }

  // ---- It does come to rest -------------------------------------------------------------------------

  /** Every event changes something. */
  ghost predicate Effective(c: Consumer, w: World, events: seq<Event>)
    decreases |events|
  {
    events == [] || (Next(c, w, events[0]) != w && Effective(c, Next(c, w, events[0]), events[1..]))
  }

  function StageOf(place: Place): nat {
    match place
    case Parked => 0
    case Queued => 1
    case Taken(phase, _) =>
      if phase.Delivered? then 2 else if phase.Running? then 3 else if phase.Failing? then 4 else 5
    case DeadLettered => 0
    case _ => 6
  }

  function Stage(): Copy -> int { (copy: Copy) => StageOf(copy.place) }

  lemma MoveAdvances(w: World, i: nat, place: Place)
    requires i < |w.copies| && StageOf(place) > StageOf(w.copies[i].place)
    ensures Sum(Stage(), Move(w, i, place).copies) >= Sum(Stage(), w.copies) + 1
  {
    SumSet(Stage(), w.copies, i, w.copies[i].(place := place));
  }

  lemma PublishAdvances(w: World, i: nat, msg: Message, place: Place)
    requires In(w, i, Failing(true))
    ensures Sum(Stage(), PublishCopy(w, i, msg, place, Confirmed).copies) >= Sum(Stage(), w.copies) + 1
  {
    MoveAdvances(w, i, w.copies[i].place.(phase := Handed));
    SumAdd(Stage(), SetPhase(w, i, Handed).copies, Copy(msg, place));
  }

  lemma HandOverAdvances(c: Consumer, w: World, i: nat, error: string)
    requires In(w, i, Failing(true))
    ensures Sum(Stage(), HandOverStep(c, w, i, error, Confirmed, Confirmed).copies) >= Sum(Stage(), w.copies) + 1
  {
    var m := w.copies[i].msg;
    if Retries(c, m, true) {
      PublishAdvances(w, i, RetryCopy(c, m), if Delayed(c) then Parked else Queued);
    } else {
      var replied := if Given(m.correlationId) then WithReply(w, m, Confirmed, false) else w;
      var told := replied.(exhausted := w.exhausted + 1);
      if UsableDeadLetter(c) {
        PublishAdvances(told, i, DeadCopy(c, m, error), DeadLettered);
      } else {
        MoveAdvances(told, i, told.copies[i].place.(phase := Discarding(true)));
      }
    }
  }

  lemma AckAdvances(w: World, i: nat)
    requires i < |w.copies| && w.copies[i].place.Taken? && w.copies[i].place.live
    requires w.copies[i].place.phase.Handed? || w.copies[i].place.phase.Discarding?
    ensures Sum(Stage(), AckHandedStep(w, i, Lands).copies) >= Sum(Stage(), w.copies) + 1
  {
    var phase := w.copies[i].place.phase;
    MoveAdvances(w, i, if phase.Handed? then Settled else Dropped(phase.retriable));
  }

  lemma PlaceAdvances(c: Consumer, w: World, e: Event)
    requires e.Deliver? || e.Start? || e.Throw? || e.Expire?
    requires Next(c, w, e) != w
    ensures Sum(Stage(), Next(c, w, e).copies) >= Sum(Stage(), w.copies) + 1
  {
    match e
    case Deliver(i) => MoveAdvances(w, i, Taken(Delivered, true));
    case Start(i) => MoveAdvances(w, i, w.copies[i].place.(phase := Running));
    case Throw(i) => MoveAdvances(w, i, w.copies[i].place.(phase := Failing(true)));
    case Expire(i) => MoveAdvances(w, i, Queued);
  }

  lemma StepAdvances(c: Consumer, o: Message, w: World, e: Event)
    requires InTurn(c, o, w) && Faultless(e) && Next(c, w, e) != w
    ensures Sum(Stage(), Next(c, w, e).copies) >= Sum(Stage(), w.copies) + 1
  {
    match e
    case HandOver(i, error, _, _) => OnlyYoungest(c, o, w, i); HandOverAdvances(c, w, i, error);
    case AckHanded(i, _) => AckAdvances(w, i);
    case _ => PlaceAdvances(c, w, e);
  }

  lemma {:induction false} StageBound(copies: seq<Copy>)
    ensures Sum(Stage(), copies) <= 6 * |copies|
  {
    if copies != [] { StageBound(copies[..|copies| - 1]); }
  }

  lemma {:induction false} RunAdvances(c: Consumer, o: Message, w: World, events: seq<Event>)
    requires InTurn(c, o, w) && AllFaultless(events) && Effective(c, w, events)
    ensures Sum(Stage(), Run(c, w, events).copies) >= Sum(Stage(), w.copies) + |events|
    decreases |events|
  {
    if events != [] {
      StepAdvances(c, o, w, events[0]);
      StepInTurn(c, o, w, events[0]);
      RunAdvances(c, o, Next(c, w, events[0]), events[1..]);
    }
  }

  /** A faultless failing run has a bounded number of steps. */
  lemma FaultlessRunsEnd(c: Consumer, o: Message, events: seq<Event>)
    requires AllFaultless(events) && Effective(c, Published(o), events)
    ensures |events| <= 6 * (Allowance(c, o) + 1)
  {
    RunAdvances(c, o, Published(o), events);
    RunInTurn(c, o, Published(o), events);
    var w := Run(c, Published(o), events);
    StageBound(w.copies);
    assert Published(o).copies[..0] == [];
    assert Sum(Stage(), Published(o).copies) == 1;
    assert |w.copies| <= Allowance(c, o) + 1;
  }

  lemma AdmitsInTurn(c: Consumer, o: Message, w: World, i: nat)
    requires InTurn(c, o, w) && TakesAll(c, o) && In(w, i, Delivered)
    ensures Admits(c, w, i)
  {
    OnlyYoungest(c, o, w, i);
    assert Trying(w.copies[i].place);
  }

  /** And as long as it is not at rest, it can take one more, or else its copy comes under a key the rpc
      consumer turns away. */
  lemma FaultlessProgress(c: Consumer, o: Message, w: World, i: nat) returns (e: Event)
    requires InTurn(c, o, w) && i < |w.copies| && OnTheWay(w.copies[i].place)
    ensures Next(c, w, e) != w
    ensures Faultless(e) || (e == TurnAway(i, Lands) && Refuses(c, w.copies[i].msg))
    ensures TakesAll(c, o) ==> Faultless(e)
  {
    var place := w.copies[i].place;
    if place.Queued? {
      e := Deliver(i);
      assert Next(c, w, e).copies[i].place != place;
    } else if place.Parked? {
      e := Expire(i);
      assert Next(c, w, e).copies[i].place != place;
    } else {
      e := TakenProgress(c, o, w, i);
    }
  }

  lemma TakenProgress(c: Consumer, o: Message, w: World, i: nat) returns (e: Event)
    requires InTurn(c, o, w) && i < |w.copies| && w.copies[i].place.Taken?
    ensures Next(c, w, e) != w
    ensures Faultless(e) || (e == TurnAway(i, Lands) && Refuses(c, w.copies[i].msg))
    ensures TakesAll(c, o) ==> Faultless(e)
  {
    var phase := w.copies[i].place.phase;
    if phase.Delivered? {
      if TakesAll(c, o) { AdmitsInTurn(c, o, w, i); }
      e := if Refuses(c, w.copies[i].msg) then TurnAway(i, Lands) else Start(i);
      PhaseMoves(c, w, i, e);
    } else if phase.Running? {
      e := Throw(i);
      PhaseMoves(c, w, i, e);
    } else if phase.Failing? {
      e := HandOver(i, "", Confirmed, Confirmed);
      OnlyYoungest(c, o, w, i);
      HandOverAdvances(c, w, i, "");
    } else {
      e := AckHanded(i, Lands);
      AckAdvances(w, i);
    }
  }

  lemma PhaseMoves(c: Consumer, w: World, i: nat, e: Event)
    requires i < |w.copies|
    requires || (e == TurnAway(i, Lands) && In(w, i, Delivered) && Refuses(c, w.copies[i].msg))
             || (e == Start(i) && Admits(c, w, i)) || (e == Throw(i) && In(w, i, Running))
    ensures Next(c, w, e) != w
  {
    assert Next(c, w, e).copies[i].place != w.copies[i].place;
  }
}
