/** What becomes of a message when no call to the broker fails: over whole runs when its handler returns, and
    for a single delivery whatever the handler does, in the words of the policy. */
module RetryOutcomes {
  import opened Options
  import opened RetryPolicy
  import opened RetryLife
  import opened RetryConsumer
  import RetryExact

  // ---- The handler returns --------------------------------------------------------------------------

  predicate Succeeding(e: Event) {
    match e
    case Deliver(_) => true
    case Start(_) => true
    case Return(_, reply) => reply == Confirmed
    case AckReturned(_, fate) => fate == Lands
    case _ => false
  }

  predicate AllSucceeding(events: seq<Event>) { forall i :: 0 <= i < |events| ==> Succeeding(events[i]) }

  /** The answer an rpc consumer owes. */
  function Answer(c: Consumer, m: Message): seq<Reply> {
    if c.rpc && m.replyTo.Some? && m.replyTo.value != "" then [Reply(m.replyTo.value, m.correlationId, m.headers, true)] else []
  }

  /** One copy, never retried, on its way to completion. */
  ghost predicate Straight(c: Consumer, o: Message, w: World) {
    && |w.copies| == 1 && w.copies[0].msg == o && w.exhausted == 0 && w.requeues == 0
    && match w.copies[0].place
       case Queued => w.executions == 0 && w.replies == []
       case Taken(phase, live) =>
         && live
         && (phase.Delivered? || phase.Running? || phase.Returned?)
         && w.executions == (if phase.Delivered? then 0 else 1)
         && w.replies == (if phase.Returned? then Answer(c, o) else [])
       case Completed => w.executions == 1 && w.replies == Answer(c, o)
       case _ => false
  }

  lemma StepStraight(c: Consumer, o: Message, w: World, e: Event)
    requires Straight(c, o, w) && Succeeding(e)
    ensures Straight(c, o, Next(c, w, e))
  {
  }

  lemma {:induction false} RunStraight(c: Consumer, o: Message, w: World, events: seq<Event>)
    requires Straight(c, o, w) && AllSucceeding(events)
    ensures Straight(c, o, Run(c, w, events))
    decreases |events|
  {
    if events != [] {
      StepStraight(c, o, w, events[0]);
      RunStraight(c, o, Next(c, w, events[0]), events[1..]);
    }
  }

  /** A message whose handler returns is processed once, acknowledged, never retried, and answered exactly
      when the consumer is an rpc consumer and the message asks for an answer. */
  lemma AlwaysSucceeding(c: Consumer, o: Message, events: seq<Event>)
    requires AllSucceeding(events) && RetryExact.Quiet(Run(c, Published(o), events))
    ensures Run(c, Published(o), events) == World([Copy(o, Completed)], Answer(c, o), 1, 0, 0)
  {
    RunStraight(c, o, Published(o), events);
    var w := Run(c, Published(o), events);
    assert !RetryExact.Quiet(w) || w.copies == [Copy(o, Completed)];
  }

  /** And that is where its delivery leads. */
  lemma SuccessReached(c: Consumer, o: Message)
    requires !Refuses(c, o)
    ensures Run(c, Published(o), [Deliver(0)] + [Start(0), Return(0, Confirmed), AckReturned(0, Lands)])
         == World([Copy(o, Completed)], Answer(c, o), 1, 0, 0)
  {
    RunConcat(c, Published(o), [Deliver(0)], [Start(0), Return(0, Confirmed), AckReturned(0, Lands)]);
    RunOne(c, Published(o), Deliver(0));
    RunThree(c, Next(c, Published(o), Deliver(0)), Start(0), Return(0, Confirmed), AckReturned(0, Lands));
  }

  // ---- One delivery ---------------------------------------------------------------------------------

  const FINE := Fates(Lands, Confirmed, Lands, Lands, Confirmed, Confirmed, Lands, Lands)

  predicate Arrived(w: World, i: nat, m: Message) { i < |w.copies| && w.copies[i] == Copy(m, Taken(Delivered, true)) }

  /** The consumer callback from delivery to its end, every call to the broker taking effect. */
  function Handled(c: Consumer, w: World, i: nat, outcome: Outcome, error: string): World
    requires i < |w.copies|
  {
    Run(c, w, HandlerScript(c, w.copies[i].msg, i, outcome, FINE) + FailureScript(i, error, FINE))
  }

  lemma HandledSteps(c: Consumer, w: World, i: nat, outcome: Outcome, error: string)
    requires i < |w.copies|
    ensures Handled(c, w, i, outcome, error)
         == NackBackStep(AckHandedStep(HandOverStep(c, HandlerEffect(c, w, w.copies[i].msg, i, outcome, FINE), i, error,
                                                    Confirmed, Confirmed), i, Lands), i, Lands)
  {
    var m := w.copies[i].msg;
    RunConcat(c, w, HandlerScript(c, m, i, outcome, FINE), FailureScript(i, error, FINE));
    ScriptEffect(c, w, m, i, outcome, FINE);
    RunThree(c, HandlerEffect(c, w, m, i, outcome, FINE), HandOver(i, error, Confirmed, Confirmed), AckHanded(i, Lands), NackBack(i, Lands));
  }

  /** Acknowledged, and answered if an answer is owed. */
  lemma ReturnCompletes(c: Consumer, w: World, i: nat, m: Message, error: string)
    requires Arrived(w, i, m) && !Refuses(c, m)
    ensures Handled(c, w, i, HandlerReturns, error)
         == w.(copies := w.copies[i := Copy(m, Completed)], executions := w.executions + 1, replies := w.replies + Answer(c, m))
  {
    HandledSteps(c, w, i, HandlerReturns, error);
  }

  /** Rejected for good, or put back, as the handler asks. */
  lemma NackObeyed(c: Consumer, w: World, i: nat, m: Message, requeue: bool, error: string)
    requires Arrived(w, i, m) && !Refuses(c, m)
    ensures Handled(c, w, i, AsksNack(requeue), error)
         == w.(copies := w.copies[i := Copy(m, if requeue then Queued else Rejected)], executions := w.executions + 1,
               requeues := w.requeues + (if requeue then 1 else 0))
  {
    HandledSteps(c, w, i, AsksNack(requeue), error);
  }

  /** Rejected for good unprocessed. */
  lemma WrongKeyTurnedAway(c: Consumer, w: World, i: nat, m: Message, outcome: Outcome, error: string)
    requires Arrived(w, i, m) && Refuses(c, m)
    ensures Handled(c, w, i, outcome, error) == w.(copies := w.copies[i := Copy(m, Misrouted)])
  {
    HandledSteps(c, w, i, outcome, error);
  }

  /** The successor of a failed message: the same content under the queue's name, one attempt more; it waits,
      without an expiration of its own, when there is a delay, and is queued as it is when there is none. */
  ghost predicate Successor(c: Consumer, m: Message, next: Copy) {
    && next.msg.body == m.body && next.msg.replyTo == m.replyTo && next.msg.correlationId == m.correlationId
    && next.msg.headers == m.headers && next.msg.routingKey == c.queue
    && next.msg.retries == Some((if m.retries.Some? then m.retries.value else 0) + 1)
    && if c.policy.delayMs.Some? && c.policy.delayMs.value > 0
       then next.place == Parked && next.msg.expiration == None
       else next.place == Queued && next.msg.expiration == m.expiration
  }

  lemma ThrowRetries(c: Consumer, w: World, i: nat, m: Message, error: string)
    requires Arrived(w, i, m) && !Refuses(c, m) && Count(m) + 1 < MaxAttempts(c)
    ensures var after := Handled(c, w, i, HandlerThrows, error);
      && |after.copies| == |w.copies| + 1 && Successor(c, m, after.copies[|w.copies|])
      && after == w.(copies := w.copies[i := Copy(m, Settled)] + [after.copies[|w.copies|]], executions := w.executions + 1)
  {
    HandledSteps(c, w, i, HandlerThrows, error);
    var failed := HandlerEffect(c, w, m, i, HandlerThrows, FINE);
    assert failed == w.(copies := w.copies[i := Copy(m, Taken(Failing(true), true))], executions := w.executions + 1);
    assert m.headers + map[] == m.headers;
  }

  /** The last of a message: a copy on the dead-letter exchange that says why and where from, or nothing. */
  ghost predicate Buried(c: Consumer, m: Message, error: string, dead: Copy) {
    && dead.place == DeadLettered && dead.msg.body == m.body
    && dead.msg.replyTo == m.replyTo && dead.msg.correlationId == m.correlationId
    && dead.msg.headers == m.headers[RETRY_ERROR := error][RETRY_ORIGIN_QUEUE := c.queue]
    && c.policy.deadLetter.Some?
    && dead.msg.routingKey == (if c.policy.deadLetter.value.routingKey.Some? then c.policy.deadLetter.value.routingKey.value
                               else m.routingKey)
  }

  /** What a caller who can be reached is told. */
  function Refusal(m: Message): seq<Reply> {
    if m.replyTo.Some? && m.replyTo.value != "" && m.correlationId.Some? && m.correlationId.value != ""
    then [Reply(m.replyTo.value, m.correlationId, m.headers, false)] else []
  }

  function Ended(c: Consumer, w: World, i: nat, error: string): World {
    NackBackStep(AckHandedStep(HandOverStep(c, w, i, error, Confirmed, Confirmed), i, Lands), i, Lands)
  }

  lemma HandsDeadCopyOver(c: Consumer, w: World, i: nat, m: Message, retriable: bool, error: string)
    requires i < |w.copies| && w.copies[i] == Copy(m, Taken(Failing(retriable), true))
    requires !Retries(c, m, retriable) && UsableDeadLetter(c)
    ensures HandOverStep(c, w, i, error, Confirmed, Confirmed)
         == w.(copies := w.copies[i := Copy(m, Taken(Handed, true))] + [Copy(DeadCopy(c, m, error), DeadLettered)],
               exhausted := w.exhausted + 1, replies := w.replies + Refusal(m))
  {
  }

  lemma EndsBuried(c: Consumer, w: World, i: nat, m: Message, retriable: bool, error: string)
    requires i < |w.copies| && w.copies[i] == Copy(m, Taken(Failing(retriable), true))
    requires !Retries(c, m, retriable) && UsableDeadLetter(c)
    ensures Ended(c, w, i, error)
         == w.(copies := w.copies[i := Copy(m, Settled)] + [Copy(DeadCopy(c, m, error), DeadLettered)],
               exhausted := w.exhausted + 1, replies := w.replies + Refusal(m))
  {
    HandsDeadCopyOver(c, w, i, m, retriable, error);
  }

  lemma EndsDropped(c: Consumer, w: World, i: nat, m: Message, retriable: bool, error: string)
    requires i < |w.copies| && w.copies[i] == Copy(m, Taken(Failing(retriable), true))
    requires !Retries(c, m, retriable) && !UsableDeadLetter(c)
    ensures Ended(c, w, i, error)
         == w.(copies := w.copies[i := Copy(m, Dropped(retriable))], exhausted := w.exhausted + 1, replies := w.replies + Refusal(m))
  {
  }

  lemma DeadCopyBuried(c: Consumer, m: Message, error: string)
    requires UsableDeadLetter(c)
    ensures Buried(c, m, error, Copy(DeadCopy(c, m, error), DeadLettered))
  {
    assert m.headers + map[RETRY_ERROR := error, RETRY_ORIGIN_QUEUE := c.queue]
        == m.headers[RETRY_ERROR := error][RETRY_ORIGIN_QUEUE := c.queue];
  }

  lemma FailedWorld(c: Consumer, w: World, i: nat, m: Message, outcome: Outcome)
    requires Arrived(w, i, m) && !Refuses(c, m) && (outcome.Garbled? || outcome.HandlerThrows?)
    ensures HandlerEffect(c, w, m, i, outcome, FINE)
         == w.(copies := w.copies[i := Copy(m, Taken(Failing(outcome.HandlerThrows?), true))],
               executions := w.executions + (if outcome.Garbled? then 0 else 1))
  {
  }

  /** Undecodable at any attempt, or failed at the last: the caller is told once, and the message ends. */
  lemma GivesUp(c: Consumer, w: World, i: nat, m: Message, outcome: Outcome, error: string)
    requires Arrived(w, i, m) && !Refuses(c, m)
    requires outcome.Garbled? || (outcome.HandlerThrows? && Count(m) + 1 >= MaxAttempts(c))
    ensures var after := Handled(c, w, i, outcome, error);
      && after.executions == w.executions + (if outcome.Garbled? then 0 else 1)
      && after.exhausted == w.exhausted + 1 && after.requeues == w.requeues && after.replies == w.replies + Refusal(m)
      && if c.policy.deadLetter.Some? && c.policy.deadLetter.value.exchange != "" && c.policy.onExhausted != Some(ToNowhere) then
           && |after.copies| == |w.copies| + 1 && Buried(c, m, error, after.copies[|w.copies|])
           && after.copies[..|w.copies|] == w.copies[i := Copy(m, Settled)]
         else after.copies == w.copies[i := Copy(m, Dropped(outcome.HandlerThrows?))]
  {
    HandledSteps(c, w, i, outcome, error);
    FailedWorld(c, w, i, m, outcome);
    DeadLettersIff(c);
    var failed := HandlerEffect(c, w, m, i, outcome, FINE);
    assert failed.copies[i := Copy(m, Settled)] == w.copies[i := Copy(m, Settled)];
    if UsableDeadLetter(c) {
      EndsBuried(c, failed, i, m, outcome.HandlerThrows?, error);
      DeadCopyBuried(c, m, error);
    } else {
      EndsDropped(c, failed, i, m, outcome.HandlerThrows?, error);
    }
  }
}
