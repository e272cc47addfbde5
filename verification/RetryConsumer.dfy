/** The consumer callback and its error handler as they run, call by call, over the broker: undisturbed,
    each is a run of the life cycle, so everything proved of all runs holds of them. */
module RetryConsumer {
  import opened RetryPolicy
  import opened RetryLife

  /** What the handler does with the decoded message. */
  datatype Outcome = Garbled | HandlerThrows | AsksNack(requeue: bool) | HandlerReturns

  /** How each call to the broker turns out. */
  datatype Fates = Fates(turnAway: CallFate, reply: PublishFate, ack: CallFate, nack: CallFate,
                         publish: PublishFate, errorReply: PublishFate, errorAck: CallFate, errorNack: CallFate)

  function FailureScript(i: nat, error: string, f: Fates): seq<Event> {
    [HandOver(i, error, f.publish, f.errorReply), AckHanded(i, f.errorAck), NackBack(i, f.errorNack)]
  }

  function HandlerScript(c: Consumer, m: Message, i: nat, outcome: Outcome, f: Fates): seq<Event> {
    if Refuses(c, m) then [TurnAway(i, f.turnAway)]
    else match outcome
    case Garbled => [Undecodable(i)]
    case HandlerThrows => [Start(i), Throw(i)]
    case AsksNack(requeue) => [Start(i), AskNack(i, requeue, f.nack)]
    case HandlerReturns => [Start(i), Return(i, f.reply), AckReturned(i, f.ack)]
  }

  lemma {:induction false} RunConcat(c: Consumer, w: World, a: seq<Event>, b: seq<Event>)
    ensures Run(c, w, a + b) == Run(c, Run(c, w, a), b)
    decreases |a|
  {
    if a == [] {
      assert a + b == b;
    } else {
      assert (a + b)[1..] == a[1..] + b;
      RunConcat(c, Next(c, w, a[0]), a[1..], b);
    }
  }

  lemma RunOne(c: Consumer, w: World, e: Event)
    ensures Run(c, w, [e]) == Next(c, w, e)
  {
    assert Run(c, Next(c, w, e), [e][1..]) == Next(c, w, e);
  }

  lemma RunTwo(c: Consumer, w: World, e: Event, f: Event)
    ensures Run(c, w, [e, f]) == Next(c, Next(c, w, e), f)
  {
    RunConcat(c, w, [e], [f]);
    assert [e] + [f] == [e, f];
    RunOne(c, w, e);
    RunOne(c, Next(c, w, e), f);
  }

  lemma RunThree(c: Consumer, w: World, e: Event, f: Event, g: Event)
    ensures Run(c, w, [e, f, g]) == Next(c, Next(c, Next(c, w, e), f), g)
  {
    RunConcat(c, w, [e, f], [g]);
    assert [e, f] + [g] == [e, f, g];
    RunTwo(c, w, e, f);
    RunOne(c, Next(c, Next(c, w, e), f), g);
  }

  /** The same, as a composition of steps. */
  function HandlerEffect(c: Consumer, w: World, m: Message, i: nat, outcome: Outcome, f: Fates): World {
    if Refuses(c, m) then TurnAwayStep(c, w, i, f.turnAway)
    else match outcome
    case Garbled => Next(c, w, Undecodable(i))
    case HandlerThrows => Next(c, Next(c, w, Start(i)), Throw(i))
    case AsksNack(requeue) => AskNackStep(Next(c, w, Start(i)), i, requeue, f.nack)
    case HandlerReturns => AckReturnedStep(ReturnStep(c, Next(c, w, Start(i)), i, f.reply), i, f.ack)
  }

  lemma ScriptEffect(c: Consumer, w: World, m: Message, i: nat, outcome: Outcome, f: Fates)
    ensures Run(c, w, HandlerScript(c, m, i, outcome, f)) == HandlerEffect(c, w, m, i, outcome, f)
  {
    if Refuses(c, m) { RunOne(c, w, TurnAway(i, f.turnAway)); }
    else { AdmittedEffect(c, w, m, i, outcome, f); }
  }

  lemma AdmittedEffect(c: Consumer, w: World, m: Message, i: nat, outcome: Outcome, f: Fates)
    requires !Refuses(c, m)
    ensures Run(c, w, HandlerScript(c, m, i, outcome, f)) == HandlerEffect(c, w, m, i, outcome, f)
  {
    match outcome
    case Garbled => RunOne(c, w, Undecodable(i));
    case HandlerThrows => RunTwo(c, w, Start(i), Throw(i));
    case AsksNack(requeue) => RunTwo(c, w, Start(i), AskNack(i, requeue, f.nack));
    case HandlerReturns => RunThree(c, w, Start(i), Return(i, f.reply), AckReturned(i, f.ack));
  }

  class Channel {
    const c: Consumer
    var w: World

    constructor (c: Consumer, w: World)
      ensures this.c == c && this.w == w
    {
      this.c, this.w := c, w;
    }

    /** `createRetryErrorHandler`: hand the message over, acknowledge; if either fails, requeue. */
    method OnError(i: nat, error: string, f: Fates)
      requires i < |w.copies| && w.copies[i].place.Taken? && w.copies[i].place.phase.Failing?
      modifies this`w
      ensures w == Run(c, old(w), FailureScript(i, error, f))
    {
      RunThree(c, w, HandOver(i, error, f.publish, f.errorReply), AckHanded(i, f.errorAck), NackBack(i, f.errorNack));
      var ok := HandOverMessage(i, error, f);
      if ok {
        ok := AckAfterHandOver(i, f.errorAck);
      }
      if !ok {
        if f.errorNack == Lands { w := PutBack(w, i); } else { w := SetPhase(w, i, Idle); }
      }
    }

    /** Retry or exhaust. */
    method HandOverMessage(i: nat, error: string, f: Fates) returns (ok: bool)
      requires i < |w.copies| && w.copies[i].place.Taken? && w.copies[i].place.phase.Failing?
      modifies this`w
      ensures w == HandOverStep(c, old(w), i, error, f.publish, f.errorReply)
      ensures i < |w.copies| && w.copies[i].place.Taken?
      ensures if ok then w.copies[i].place.phase.Handed? || w.copies[i].place.phase.Discarding?
              else w.copies[i].place.phase.Nacking?
    {
      var msg, retriable := w.copies[i].msg, w.copies[i].place.phase.retriable;
      var attempts := Count(msg) + 1;
      if retriable && attempts < MaxAttempts(c) {
        ok := PublishCopyOf(i, RetryCopy(c, msg), if Delayed(c) then Parked else Queued, f.publish);
        return;
      }
      if Given(msg.replyTo) && Given(msg.correlationId) {
        w := WithReply(w, msg, f.errorReply, false);
      }
      w := w.(exhausted := w.exhausted + 1);
      if UsableDeadLetter(c) {
        ok := PublishCopyOf(i, DeadCopy(c, msg, error), DeadLettered, f.publish);
      } else {
        w := SetPhase(w, i, Discarding(retriable));
        ok := true;
      }
    }

    /** A confirmed publish; the promise rejects when the broker refuses or the confirm is lost. */
    method PublishCopyOf(i: nat, msg: Message, place: Place, fate: PublishFate) returns (ok: bool)
      requires i < |w.copies| && w.copies[i].place.Taken?
      modifies this`w
      ensures w == PublishCopy(old(w), i, msg, place, fate) && ok == (fate == Confirmed)
    {
      ok := fate == Confirmed;
      w := SetPhase(w, i, if ok then Handed else Nacking);
      if fate != Refused { w := Add(w, msg, place); }
    }

    method AckAfterHandOver(i: nat, fate: CallFate) returns (ok: bool)
      requires i < |w.copies| && w.copies[i].place.Taken?
      requires w.copies[i].place.phase.Handed? || w.copies[i].place.phase.Discarding?
      modifies this`w
      ensures w == AckHandedStep(old(w), i, fate) && ok == (fate != Throws)
    {
      ok := fate != Throws;
      var phase := w.copies[i].place.phase;
      if fate == Lands {
        w := Settle(w, i, if phase.Handed? then Settled else Dropped(phase.retriable));
      } else {
        w := SetPhase(w, i, if ok then Idle else Nacking);
      }
    }

    /** The consumer callback: an rpc consumer checks the routing key; then decode, run the handler, reply,
        acknowledge; any throw on the way goes to the error handler. */
    method OnMessage(i: nat, outcome: Outcome, error: string, f: Fates)
      requires In(w, i, Delivered)
      modifies this`w
      ensures w == Run(c, old(w), HandlerScript(c, old(w).copies[i].msg, i, outcome, f) + FailureScript(i, error, f))
    {
      RunConcat(c, w, HandlerScript(c, w.copies[i].msg, i, outcome, f), FailureScript(i, error, f));
      ScriptEffect(c, w, w.copies[i].msg, i, outcome, f);
      Handle(i, outcome, f);
      if w.copies[i].place.Taken? && w.copies[i].place.phase.Failing? {
        OnError(i, error, f);
      } else {
        RunThree(c, w, HandOver(i, error, f.publish, f.errorReply), AckHanded(i, f.errorAck), NackBack(i, f.errorNack));
      }
    }

    /** The part of the callback inside its `try`. */
    method Handle(i: nat, outcome: Outcome, f: Fates)
      requires In(w, i, Delivered)
      modifies this`w
      ensures w == HandlerEffect(c, old(w), old(w).copies[i].msg, i, outcome, f)
      ensures i < |w.copies|
      ensures w.copies[i].place.Taken? ==> w.copies[i].place.phase.Failing? || w.copies[i].place.phase.Idle?
    {
      if c.rpc {
        var fits := RoutingKeys.MatchesRoutingKey(w.copies[i].msg.routingKey, c.pattern);
        if !fits {
          w := TurnAwayStep(c, w, i, f.turnAway);
          return;
        }
      }
      Process(i, outcome, f);
    }

    /** Decoding, the handler and what follows it. */
    method Process(i: nat, outcome: Outcome, f: Fates)
      requires Admits(c, w, i)
      modifies this`w
      ensures w == HandlerEffect(c, old(w), old(w).copies[i].msg, i, outcome, f)
      ensures i < |w.copies|
      ensures w.copies[i].place.Taken? ==> w.copies[i].place.phase.Failing? || w.copies[i].place.phase.Idle?
    {
      if outcome.Garbled? {
        w := SetPhase(w, i, Failing(false));
        return;
      }
      w := SetPhase(w, i, Running).(executions := w.executions + 1);
      match outcome {
        case HandlerThrows => w := SetPhase(w, i, Failing(true));
        case AsksNack(requeue) =>
          w := AskNackStep(w, i, requeue, f.nack);
        case HandlerReturns => ReplyAndAck(i, f);
      }
    }

    method ReplyAndAck(i: nat, f: Fates)
      requires In(w, i, Running)
      modifies this`w
      ensures w == AckReturnedStep(ReturnStep(c, old(w), i, f.reply), i, f.ack)
      ensures i < |w.copies|
      ensures w.copies[i].place.Taken? ==> w.copies[i].place.phase.Failing? || w.copies[i].place.phase.Idle?
    {
      var replied := true;
      if c.rpc && Given(w.copies[i].msg.replyTo) {
        w := WithReply(w, w.copies[i].msg, f.reply, true);
        replied := f.reply == Confirmed;
      }
      w := SetPhase(w, i, if replied then Returned else Failing(true));
      if replied { w := AckReturnedStep(w, i, f.ack); }
    }
  }
}
