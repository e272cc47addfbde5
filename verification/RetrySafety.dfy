/** Invariants of every run of the retry life cycle: the message is never lost, every copy on its way
    stays within the attempts of the policy, and handler executions are bounded by the policy and the
    number of times the broker put a delivery back. */
module RetrySafety {
  import opened RetryPolicy
  import opened RetryLife

  // ---- Accounted for ------------------------------------------------------------------------------

  /** Giving the message up is legitimate: no usable dead-letter, and exhausted or undecodable. */
  predicate MayDrop(c: Consumer, m: Message, retriable: bool) {
    !UsableDeadLetter(c) && (retriable ==> Attempts(m) >= MaxAttempts(c))
  }

  /** The copy is somewhere: with the broker, dead-lettered, processed, turned away for its routing key, or
      legitimately given up. */
  predicate Accounted(c: Consumer, copy: Copy) {
    match copy.place
    case Taken(_, live) => live
    case Dropped(retriable) => MayDrop(c, copy.msg, retriable)
    case Misrouted => Refuses(c, copy.msg)
    case Settled => false
    case _ => true
  }

  predicate OnTheWay(place: Place) { place.Queued? || place.Parked? || place.Taken? }

  predicate Reached(place: Place) { OnTheWay(place) || place.Misrouted? }

  /** Only a delivery with nowhere to go is about to be discarded, only one under a wrong key is turned away,
      and copies that reach the consumer count at least the attempts the message `o` entered with, and
      below the maximum if more. */
  predicate CopyOk(c: Consumer, o: Message, copy: Copy) {
    && (copy.place.Taken? && copy.place.phase.Discarding? ==> MayDrop(c, copy.msg, copy.place.phase.retriable))
    && (copy.place.Dropped? ==> MayDrop(c, copy.msg, copy.place.retriable))
    && (copy.place.Misrouted? ==> Refuses(c, copy.msg))
    && (Reached(copy.place) ==> Count(o) <= Count(copy.msg))
    && (Reached(copy.place) ==> Count(copy.msg) < MaxAttempts(c) || Count(copy.msg) == Count(o))
  }

  predicate HandedOver(copy: Copy) { copy.place.Taken? && copy.place.phase.Handed? }

  /** The youngest copy is accounted for, and a delivery handed over has a younger copy. */
  ghost predicate Sound(c: Consumer, o: Message, w: World) {
    && w.copies != []
    && Accounted(c, w.copies[|w.copies| - 1])
    && (forall i :: 0 <= i < |w.copies| ==> CopyOk(c, o, w.copies[i]))
    && (forall i :: 0 <= i < |w.copies| && HandedOver(w.copies[i]) ==> i < |w.copies| - 1)
  }

  // ---- Attempts left --------------------------------------------------------------------------------

  function Sum(weight: Copy -> int, copies: seq<Copy>): int {
    if copies == [] then 0
    else Sum(weight, copies[..|copies| - 1]) + weight(copies[|copies| - 1])
  }

  lemma SumAdd(weight: Copy -> int, copies: seq<Copy>, copy: Copy)
    ensures Sum(weight, copies + [copy]) == Sum(weight, copies) + weight(copy)
  {
    assert (copies + [copy])[..|copies|] == copies;
  }

  lemma {:induction false} SumSet(weight: Copy -> int, copies: seq<Copy>, i: nat, copy: Copy)
    requires i < |copies|
    ensures Sum(weight, copies[i := copy]) == Sum(weight, copies) - weight(copies[i]) + weight(copy)
  {
    var n := |copies| - 1;
    if i == n {
      assert copies[i := copy][..n] == copies[..n];
    } else {
      assert copies[i := copy][..n] == copies[..n][i := copy];
      SumSet(weight, copies[..n], i, copy);
    }
  }

  lemma {:induction false} SumAtLeast(weight: Copy -> int, copies: seq<Copy>)
    requires forall i :: 0 <= i < |copies| ==> weight(copies[i]) >= 0
    ensures Sum(weight, copies) >= 0
    ensures forall i :: 0 <= i < |copies| ==> Sum(weight, copies) >= weight(copies[i])
  {
    if copies != [] { SumAtLeast(weight, copies[..|copies| - 1]); }
  }

  /** How often the handler may run for a message entering with this count, nothing put back. */
  function Allowance(c: Consumer, m: Message): (n: nat)
    ensures n >= 1
  {
    if Count(m) < MaxAttempts(c) then MaxAttempts(c) - Count(m) else 1
  }

  /** Handler executions a copy can still lead to if the broker puts nothing back. */
  function LeftAt(c: Consumer, m: Message, place: Place): nat {
    match place
    case Queued => Allowance(c, m)
    case Parked => Allowance(c, m)
    case Taken(phase, _) =>
      if phase.Delivered? then Allowance(c, m)
      else if phase.Running? || phase.Returned? || phase == Failing(true) then Allowance(c, m) - 1
      else 0
    case _ => 0
  }

  function Left(c: Consumer): Copy -> int { (copy: Copy) => LeftAt(c, copy.msg, copy.place) }

  /** Executions so far and still possible, less a full allowance for everything put back. */
  function Potential(c: Consumer, o: Message, w: World): int {
    w.executions + Sum(Left(c), w.copies) - Allowance(c, o) * w.requeues
  }

  // ---- The parts of a step ------------------------------------------------------------------------

  lemma MoveSound(c: Consumer, o: Message, w: World, i: nat, place: Place)
    requires Sound(c, o, w) && i < |w.copies| && CopyOk(c, o, w.copies[i].(place := place))
    requires HandedOver(w.copies[i].(place := place)) ==> i < |w.copies| - 1
    requires i == |w.copies| - 1 ==> Accounted(c, w.copies[i].(place := place))
    ensures Sound(c, o, Move(w, i, place))
    ensures Potential(c, o, Move(w, i, place))
         == Potential(c, o, w) - LeftAt(c, w.copies[i].msg, w.copies[i].place) + LeftAt(c, w.copies[i].msg, place)
  {
    SumSet(Left(c), w.copies, i, w.copies[i].(place := place));
  }

  lemma AddSound(c: Consumer, o: Message, w: World, msg: Message, place: Place)
    requires Sound(c, o, w) && Accounted(c, Copy(msg, place)) && CopyOk(c, o, Copy(msg, place)) && !place.Taken?
    ensures Sound(c, o, Add(w, msg, place))
    ensures Potential(c, o, Add(w, msg, place)) == Potential(c, o, w) + LeftAt(c, msg, place)
  {
    SumAdd(Left(c), w.copies, Copy(msg, place));
  }

  /** Counters and replies do not matter to soundness. */
  lemma Recount(c: Consumer, o: Message, v: World, w: World)
    requires Sound(c, o, v) && v.copies == w.copies && v.requeues <= w.requeues <= v.requeues + 1
    ensures Sound(c, o, w)
    ensures Potential(c, o, w) == Potential(c, o, v) + w.executions - v.executions
                               - (if w.requeues == v.requeues then 0 else Allowance(c, o))
  {
  }

  /** A change of phase that neither hands over nor discards. */
  lemma PhaseSound(c: Consumer, o: Message, w: World, i: nat, phase: Phase)
    requires Sound(c, o, w) && i < |w.copies| && w.copies[i].place.Taken? && !phase.Handed? && !phase.Discarding?
    ensures Sound(c, o, SetPhase(w, i, phase))
    ensures Potential(c, o, SetPhase(w, i, phase)) == Potential(c, o, w)
      - LeftAt(c, w.copies[i].msg, w.copies[i].place) + LeftAt(c, w.copies[i].msg, w.copies[i].place.(phase := phase))
  {
    MoveSound(c, o, w, i, w.copies[i].place.(phase := phase));
  }

  lemma SettleSound(c: Consumer, o: Message, w: World, i: nat, place: Place)
    requires Sound(c, o, w) && i < |w.copies| && w.copies[i].place.Taken? && !OnTheWay(place)
    requires CopyOk(c, o, w.copies[i].(place := place))
    requires i == |w.copies| - 1 ==> Accounted(c, w.copies[i].(place := place))
    ensures Sound(c, o, Settle(w, i, place)) && Potential(c, o, Settle(w, i, place)) <= Potential(c, o, w)
  {
    assert CopyOk(c, o, w.copies[i]);
    if w.copies[i].place.live { MoveSound(c, o, w, i, place); } else { PhaseSound(c, o, w, i, Idle); }
  }

  lemma PutBackSound(c: Consumer, o: Message, w: World, i: nat)
    requires Sound(c, o, w) && i < |w.copies| && w.copies[i].place.Taken?
    ensures Sound(c, o, PutBack(w, i)) && Potential(c, o, PutBack(w, i)) <= Potential(c, o, w)
  {
    assert CopyOk(c, o, w.copies[i]);
    if w.copies[i].place.live {
      MoveSound(c, o, w, i, Queued);
      Recount(c, o, Move(w, i, Queued), PutBack(w, i));
    } else {
      PhaseSound(c, o, w, i, Idle);
    }
  }

  lemma PublishSound(c: Consumer, o: Message, w: World, i: nat, msg: Message, place: Place, fate: PublishFate)
    requires Sound(c, o, w) && i < |w.copies| && w.copies[i].place.Taken?
    requires place.Queued? || place.Parked? || place.DeadLettered?
    requires CopyOk(c, o, Copy(msg, place)) && LeftAt(c, msg, place) <= LeftAt(c, w.copies[i].msg, w.copies[i].place)
    ensures Sound(c, o, PublishCopy(w, i, msg, place, fate))
    ensures Potential(c, o, PublishCopy(w, i, msg, place, fate)) <= Potential(c, o, w)
  {
    var moved := w.copies[i].place.(phase := if fate == Confirmed then Handed else Nacking);
    assert CopyOk(c, o, w.copies[i]) && LeftAt(c, w.copies[i].msg, moved) == 0;
    if fate == Refused {
      MoveSound(c, o, w, i, moved);
    } else {
      assert PublishCopy(w, i, msg, place, fate) == Move(Add(w, msg, place), i, moved);
      AddMoveSound(c, o, w, i, moved, msg, place);
    }
  }

  lemma AddMoveSound(c: Consumer, o: Message, w: World, i: nat, moved: Place, msg: Message, place: Place)
    requires Sound(c, o, w) && i < |w.copies| && CopyOk(c, o, w.copies[i].(place := moved))
    requires !place.Taken? && Accounted(c, Copy(msg, place)) && CopyOk(c, o, Copy(msg, place))
    ensures Sound(c, o, Move(Add(w, msg, place), i, moved))
    ensures Potential(c, o, Move(Add(w, msg, place), i, moved)) == Potential(c, o, w) + LeftAt(c, msg, place)
      - LeftAt(c, w.copies[i].msg, w.copies[i].place) + LeftAt(c, w.copies[i].msg, moved)
  {
    AddSound(c, o, w, msg, place);
    MoveSound(c, o, Add(w, msg, place), i, moved);
  }

  // ---- The steps ----------------------------------------------------------------------------------

  lemma RetrySound(c: Consumer, o: Message, w: World, i: nat, publish: PublishFate)
    requires Sound(c, o, w) && In(w, i, Failing(true)) && Retries(c, w.copies[i].msg, true)
    ensures var after := PublishCopy(w, i, RetryCopy(c, w.copies[i].msg), if Delayed(c) then Parked else Queued, publish);
      Sound(c, o, after) && Potential(c, o, after) <= Potential(c, o, w)
  {
    assert CopyOk(c, o, w.copies[i]);
    PublishSound(c, o, w, i, RetryCopy(c, w.copies[i].msg), if Delayed(c) then Parked else Queued, publish);
  }

  lemma DeadLetterSound(c: Consumer, o: Message, w: World, i: nat, error: string, publish: PublishFate)
    requires Sound(c, o, w) && i < |w.copies| && w.copies[i].place.Taken? && UsableDeadLetter(c)
    ensures var after := PublishCopy(w, i, DeadCopy(c, w.copies[i].msg, error), DeadLettered, publish);
      Sound(c, o, after) && Potential(c, o, after) <= Potential(c, o, w)
  {
    assert CopyOk(c, o, w.copies[i]);
    PublishSound(c, o, w, i, DeadCopy(c, w.copies[i].msg, error), DeadLettered, publish);
  }

  lemma DiscardSound(c: Consumer, o: Message, w: World, i: nat, retriable: bool)
    requires Sound(c, o, w) && i < |w.copies| && w.copies[i].place.Taken? && MayDrop(c, w.copies[i].msg, retriable)
    ensures var after := SetPhase(w, i, Discarding(retriable));
      Sound(c, o, after) && Potential(c, o, after) <= Potential(c, o, w)
  {
    assert CopyOk(c, o, w.copies[i]);
    MoveSound(c, o, w, i, w.copies[i].place.(phase := Discarding(retriable)));
  }

  lemma ExhaustSound(c: Consumer, o: Message, w: World, i: nat, error: string, publish: PublishFate, reply: PublishFate)
    requires Sound(c, o, w) && i < |w.copies| && w.copies[i].place.Taken? && w.copies[i].place.phase.Failing?
    requires !Retries(c, w.copies[i].msg, w.copies[i].place.phase.retriable)
    ensures var after := HandOverStep(c, w, i, error, publish, reply);
      Sound(c, o, after) && Potential(c, o, after) <= Potential(c, o, w)
  {
    var m, retriable := w.copies[i].msg, w.copies[i].place.phase.retriable;
    var replied := if Given(m.correlationId) then WithReply(w, m, reply, false) else w;
    var told := replied.(exhausted := w.exhausted + 1);
    Recount(c, o, w, told);
    if UsableDeadLetter(c) {
      DeadLetterSound(c, o, told, i, error, publish);
    } else {
      DiscardSound(c, o, told, i, retriable);
    }
  }

  lemma HandOverSound(c: Consumer, o: Message, w: World, i: nat, error: string, publish: PublishFate, reply: PublishFate)
    requires Sound(c, o, w) && i < |w.copies| && w.copies[i].place.Taken? && w.copies[i].place.phase.Failing?
    ensures var after := HandOverStep(c, w, i, error, publish, reply);
      Sound(c, o, after) && Potential(c, o, after) <= Potential(c, o, w)
  {
    if Retries(c, w.copies[i].msg, w.copies[i].place.phase.retriable) {
      RetrySound(c, o, w, i, publish);
    } else {
      ExhaustSound(c, o, w, i, error, publish, reply);
    }
  }

  lemma AckHandedSound(c: Consumer, o: Message, w: World, i: nat, fate: CallFate)
    requires Sound(c, o, w)
    ensures Sound(c, o, AckHandedStep(w, i, fate)) && Potential(c, o, AckHandedStep(w, i, fate)) <= Potential(c, o, w)
  {
    if i < |w.copies| && w.copies[i].place.Taken? && (w.copies[i].place.phase.Handed? || w.copies[i].place.phase.Discarding?) {
      var phase := w.copies[i].place.phase;
      assert CopyOk(c, o, w.copies[i]) && (phase.Handed? ==> HandedOver(w.copies[i]));
      match fate
      case Lands => SettleSound(c, o, w, i, if phase.Handed? then Settled else Dropped(phase.retriable));
      case Throws => PhaseSound(c, o, w, i, Nacking);
      case Vanishes => PhaseSound(c, o, w, i, Idle);
    }
  }

  lemma ReturnSound(c: Consumer, o: Message, w: World, i: nat, reply: PublishFate)
    requires Sound(c, o, w) && In(w, i, Running)
    ensures Sound(c, o, ReturnStep(c, w, i, reply)) && Potential(c, o, ReturnStep(c, w, i, reply)) <= Potential(c, o, w)
  {
    if c.rpc && Given(w.copies[i].msg.replyTo) {
      var replied := WithReply(w, w.copies[i].msg, reply, true);
      Recount(c, o, w, replied);
      PhaseSound(c, o, replied, i, if reply == Confirmed then Returned else Failing(true));
    } else {
      PhaseSound(c, o, w, i, Returned);
    }
  }

  lemma RedeliverSound(c: Consumer, o: Message, w: World, i: nat)
    requires Sound(c, o, w)
    ensures Sound(c, o, RedeliverStep(w, i)) && Potential(c, o, RedeliverStep(w, i)) <= Potential(c, o, w)
  {
    if i < |w.copies| && w.copies[i].place.Taken? && w.copies[i].place.live {
      var moved, m := w.copies[i].place.(live := false), w.copies[i].msg;
      assert CopyOk(c, o, w.copies[i]);
      AddMoveSound(c, o, w, i, moved, m, Queued);
      Recount(c, o, Move(Add(w, m, Queued), i, moved), RedeliverStep(w, i));
    }
  }

  lemma TurnAwaySound(c: Consumer, o: Message, w: World, i: nat, fate: CallFate)
    requires Sound(c, o, w)
    ensures Sound(c, o, TurnAwayStep(c, w, i, fate)) && Potential(c, o, TurnAwayStep(c, w, i, fate)) <= Potential(c, o, w)
  {
    if In(w, i, Delivered) && Refuses(c, w.copies[i].msg) {
      assert CopyOk(c, o, w.copies[i]);
      match fate
      case Lands => SettleSound(c, o, w, i, Misrouted);
      case Throws => PhaseSound(c, o, w, i, Failing(true));
      case Vanishes => PhaseSound(c, o, w, i, Idle);
    }
  }

  lemma StartSound(c: Consumer, o: Message, w: World, i: nat)
    requires Sound(c, o, w) && Admits(c, w, i)
    ensures Sound(c, o, Next(c, w, Start(i))) && Potential(c, o, Next(c, w, Start(i))) == Potential(c, o, w)
  {
    PhaseSound(c, o, w, i, Running);
    Recount(c, o, SetPhase(w, i, Running), Next(c, w, Start(i)));
  }

  lemma NackSound(c: Consumer, o: Message, w: World, i: nat, requeue: bool, fate: CallFate)
    requires Sound(c, o, w) && In(w, i, Running)
    ensures Sound(c, o, AskNackStep(w, i, requeue, fate)) && Potential(c, o, AskNackStep(w, i, requeue, fate)) <= Potential(c, o, w)
  {
    assert CopyOk(c, o, w.copies[i]);
    match fate
    case Lands => if requeue { PutBackSound(c, o, w, i); } else { SettleSound(c, o, w, i, Rejected); }
    case Throws => PhaseSound(c, o, w, i, Failing(true));
    case Vanishes => PhaseSound(c, o, w, i, Idle);
  }

  lemma AckReturnedSound(c: Consumer, o: Message, w: World, i: nat, fate: CallFate)
    requires Sound(c, o, w) && In(w, i, Returned)
    ensures Sound(c, o, AckReturnedStep(w, i, fate)) && Potential(c, o, AckReturnedStep(w, i, fate)) <= Potential(c, o, w)
  {
    assert CopyOk(c, o, w.copies[i]);
    match fate
    case Lands => SettleSound(c, o, w, i, Completed);
    case Throws => PhaseSound(c, o, w, i, Failing(true));
    case Vanishes => PhaseSound(c, o, w, i, Idle);
  }

  lemma TakeSound(c: Consumer, o: Message, w: World, i: nat)
    requires Sound(c, o, w) && i < |w.copies|
    ensures w.copies[i].place.Queued? ==>
      Sound(c, o, Move(w, i, Taken(Delivered, true))) && Potential(c, o, Move(w, i, Taken(Delivered, true))) == Potential(c, o, w)
    ensures w.copies[i].place.Parked? ==>
      Sound(c, o, Move(w, i, Queued)) && Potential(c, o, Move(w, i, Queued)) == Potential(c, o, w)
  {
    assert CopyOk(c, o, w.copies[i]);
    if w.copies[i].place.Queued? {
      MoveSound(c, o, w, i, Taken(Delivered, true));
    } else if w.copies[i].place.Parked? {
      MoveSound(c, o, w, i, Queued);
    }
  }

  lemma UndecodableSound(c: Consumer, o: Message, w: World, i: nat)
    requires Sound(c, o, w) && In(w, i, Delivered)
    ensures Sound(c, o, SetPhase(w, i, Failing(false))) && Potential(c, o, SetPhase(w, i, Failing(false))) <= Potential(c, o, w)
  {
    assert CopyOk(c, o, w.copies[i]);
    PhaseSound(c, o, w, i, Failing(false));
  }

  lemma NackBackSound(c: Consumer, o: Message, w: World, i: nat, fate: CallFate)
    requires Sound(c, o, w) && In(w, i, Nacking)
    ensures Sound(c, o, NackBackStep(w, i, fate)) && Potential(c, o, NackBackStep(w, i, fate)) <= Potential(c, o, w)
  {
    if fate == Lands { PutBackSound(c, o, w, i); } else { PhaseSound(c, o, w, i, Idle); }
  }

  lemma StepSound(c: Consumer, o: Message, w: World, e: Event)
    requires Sound(c, o, w)
    ensures Sound(c, o, Next(c, w, e)) && Potential(c, o, Next(c, w, e)) <= Potential(c, o, w)
  {
    if Next(c, w, e) != w {
      match e
      case Deliver(i) => TakeSound(c, o, w, i);
      case TurnAway(i, fate) => TurnAwaySound(c, o, w, i, fate);
      case Undecodable(i) => UndecodableSound(c, o, w, i);
      case Start(i) => StartSound(c, o, w, i);
      case Throw(i) => PhaseSound(c, o, w, i, Failing(true));
      case Return(i, reply) => ReturnSound(c, o, w, i, reply);
      case AskNack(i, requeue, fate) => NackSound(c, o, w, i, requeue, fate);
      case AckReturned(i, fate) => AckReturnedSound(c, o, w, i, fate);
      case HandOver(i, error, publish, reply) => HandOverSound(c, o, w, i, error, publish, reply);
      case AckHanded(i, fate) => AckHandedSound(c, o, w, i, fate);
      case NackBack(i, fate) => NackBackSound(c, o, w, i, fate);
      case Redeliver(i) => RedeliverSound(c, o, w, i);
      case Expire(i) => TakeSound(c, o, w, i);
    }
  }

  lemma {:induction false} RunSound(c: Consumer, o: Message, w: World, events: seq<Event>)
    requires Sound(c, o, w)
    ensures Sound(c, o, Run(c, w, events)) && Potential(c, o, Run(c, w, events)) <= Potential(c, o, w)
    decreases |events|
  {
    if events != [] {
      StepSound(c, o, w, events[0]);
      RunSound(c, o, Next(c, w, events[0]), events[1..]);
    }
  }

  lemma PublishedSound(c: Consumer, o: Message)
    ensures Sound(c, o, Published(o)) && Potential(c, o, Published(o)) == Allowance(c, o)
  {
    SumAdd(Left(c), [], Copy(o, Queued));
    assert [] + [Copy(o, Queued)] == [Copy(o, Queued)];
  }

  // ---- Results ------------------------------------------------------------------------------------

  /** Whatever the publishes, acks, nacks and redeliveries do, the youngest copy of the message is
      accounted for; any copy dropped was exhausted or undecodable with no usable dead-letter, and any copy
      turned away came under a key the rpc consumer's pattern does not accept. */
  lemma NoMessageLost(c: Consumer, o: Message, events: seq<Event>)
    ensures var w := Run(c, Published(o), events);
      && w.copies != [] && Accounted(c, w.copies[|w.copies| - 1])
      && (forall i :: 0 <= i < |w.copies| && w.copies[i].place.Dropped? ==> MayDrop(c, w.copies[i].msg, w.copies[i].place.retriable))
      && (forall i :: 0 <= i < |w.copies| && w.copies[i].place.Misrouted? ==> Refuses(c, w.copies[i].msg))
  {
    PublishedSound(c, o);
    RunSound(c, o, Published(o), events);
    var w := Run(c, Published(o), events);
    forall i | 0 <= i < |w.copies|
      ensures w.copies[i].place.Dropped? ==> MayDrop(c, w.copies[i].msg, w.copies[i].place.retriable)
      ensures w.copies[i].place.Misrouted? ==> Refuses(c, w.copies[i].msg)
    {
      assert CopyOk(c, o, w.copies[i]);
    }
  }

  /** Handler executions stay within the message's allowance, once for the message and once more for each
      time the broker put a delivery back. */
  lemma BoundedExecutions(c: Consumer, o: Message, events: seq<Event>)
    ensures var w := Run(c, Published(o), events);
      w.executions <= Allowance(c, o) * (1 + w.requeues)
  {
    PublishedSound(c, o);
    RunSound(c, o, Published(o), events);
    var w := Run(c, Published(o), events);
    SumAtLeast(Left(c), w.copies);
    assert Allowance(c, o) * (1 + w.requeues) == Allowance(c, o) + Allowance(c, o) * w.requeues;
  }

  /** For a message that enters without the header: every copy on its way counts fewer attempts than the
      maximum, and the handler runs at most maxAttempts times per message or put-back delivery. */
  lemma BoundedAttempts(c: Consumer, o: Message, events: seq<Event>)
    requires o.retries.None?
    ensures var w := Run(c, Published(o), events);
      && (forall i :: 0 <= i < |w.copies| && OnTheWay(w.copies[i].place) ==> 0 <= Count(w.copies[i].msg) < MaxAttempts(c))
      && w.executions <= MaxAttempts(c) * (1 + w.requeues)
  {
    BoundedExecutions(c, o, events);
    PublishedSound(c, o);
    RunSound(c, o, Published(o), events);
    var w := Run(c, Published(o), events);
    forall i | 0 <= i < |w.copies| && OnTheWay(w.copies[i].place) ensures 0 <= Count(w.copies[i].msg) < MaxAttempts(c) {
      assert CopyOk(c, o, w.copies[i]);
    }
  }
}
