/** What the copies and the replies of a message keep of it over every run: its content and correlation.
    So a reply is accepted by the request that issued the message and by no other pending one. */
module RetryReplies {
  import opened Options
  import opened RetryPolicy
  import opened RetryLife
  import RetrySafety

  /** A pending request of `request`: the ids its filter compares. */
  datatype Pending = Pending(correlationId: string, requestId: Option<string>)

  /** `processDirectReplyToMessage` and the filter: a reply without correlation id is dropped, and a
      request id is compared only when the request had one. */
  predicate Accepts(p: Pending, r: Reply) {
    && r.correlationId == Some(p.correlationId)
    && (Given(p.requestId) ==> RequestId(r.headers) == p.requestId)
  }

  /** The message the request publishes. */
  predicate Issued(p: Pending, o: Message) {
    Given(o.replyTo) && o.correlationId == Some(p.correlationId) && RequestId(o.headers) == p.requestId
  }

  /** The key a copy on the queue carries: the publisher's at first, then the queue's own name. */
  function KeyOf(c: Consumer, o: Message, retries: int): string {
    if retries == Count(o) then o.routingKey else c.queue
  }

  /** The key of a dead-lettered copy: the configured one, or that of the delivery that failed last. */
  function DeadKey(c: Consumer, o: Message, retries: int): string
    requires UsableDeadLetter(c)
  {
    var key := c.policy.deadLetter.value.routingKey;
    if key.Some? then key.value else KeyOf(c, o, retries - 1)
  }

  predicate Waiting(place: Place) { place.Queued? || place.Parked? || place.Taken? }

  ghost predicate CopyOf(c: Consumer, o: Message, copy: Copy) {
    && SameRequest(o, copy.msg)
    && (Waiting(copy.place) || copy.place.Misrouted? ==> Count(copy.msg) >= Count(o) && copy.msg.routingKey == KeyOf(c, o, Count(copy.msg)))
    && (copy.place.DeadLettered? ==> UsableDeadLetter(c) && copy.msg.routingKey == DeadKey(c, o, Count(copy.msg)))
  }

  ghost predicate ReplyTo(o: Message, r: Reply) {
    o.replyTo == Some(r.to) && r.to != "" && r.correlationId == o.correlationId && RequestId(r.headers) == RequestId(o.headers)
  }

  ghost predicate Faithful(c: Consumer, o: Message, w: World) {
    && (forall i :: 0 <= i < |w.copies| ==> CopyOf(c, o, w.copies[i]))
    && (forall i :: 0 <= i < |w.replies| ==> ReplyTo(o, w.replies[i]))
  }

  lemma MoveFaithful(c: Consumer, o: Message, w: World, i: nat, place: Place)
    requires Faithful(c, o, w) && i < |w.copies| && !place.DeadLettered?
    requires Waiting(place) || place.Misrouted? ==> Waiting(w.copies[i].place)
    ensures Faithful(c, o, Move(w, i, place))
  {
  }

  lemma AddFaithful(c: Consumer, o: Message, w: World, msg: Message, place: Place)
    requires Faithful(c, o, w) && CopyOf(c, o, Copy(msg, place))
    ensures Faithful(c, o, Add(w, msg, place))
  {
  }

  lemma PublishFaithful(c: Consumer, o: Message, w: World, i: nat, msg: Message, place: Place, fate: PublishFate)
    requires Faithful(c, o, w) && i < |w.copies| && w.copies[i].place.Taken? && CopyOf(c, o, Copy(msg, place))
    ensures Faithful(c, o, PublishCopy(w, i, msg, place, fate))
  {
    var moved := SetPhase(w, i, if fate == Confirmed then Handed else Nacking);
    MoveFaithful(c, o, w, i, moved.copies[i].place);
    if fate != Refused { AddFaithful(c, o, moved, msg, place); }
  }

  lemma RetryCopyFaithful(c: Consumer, o: Message, m: Message, place: Place, error: string)
    requires CopyOf(c, o, Copy(m, place)) && place.Taken?
    ensures CopyOf(c, o, Copy(RetryCopy(c, m), Queued)) && CopyOf(c, o, Copy(RetryCopy(c, m), Parked))
    ensures UsableDeadLetter(c) ==> CopyOf(c, o, Copy(DeadCopy(c, m, error), DeadLettered))
  {
    CopiesKeepRequest(c, m, error);
  }

  lemma HandOverFaithful(c: Consumer, o: Message, w: World, i: nat, error: string, publish: PublishFate, reply: PublishFate)
    requires Faithful(c, o, w) && i < |w.copies| && w.copies[i].place.Taken? && w.copies[i].place.phase.Failing?
    ensures Faithful(c, o, HandOverStep(c, w, i, error, publish, reply))
  {
    var m, retriable := w.copies[i].msg, w.copies[i].place.phase.retriable;
    assert CopyOf(c, o, w.copies[i]);
    RetryCopyFaithful(c, o, m, w.copies[i].place, error);
    if Retries(c, m, retriable) {
      PublishFaithful(c, o, w, i, RetryCopy(c, m), if Delayed(c) then Parked else Queued, publish);
    } else {
      var replied := if Given(m.correlationId) then WithReply(w, m, reply, false) else w;
      var told := replied.(exhausted := w.exhausted + 1);
      if UsableDeadLetter(c) {
        PublishFaithful(c, o, told, i, DeadCopy(c, m, error), DeadLettered, publish);
      } else {
        MoveFaithful(c, o, told, i, told.copies[i].place.(phase := Discarding(retriable)));
      }
    }
  }

  lemma StepFaithful(c: Consumer, o: Message, w: World, e: Event)
    requires Faithful(c, o, w)
    ensures Faithful(c, o, Next(c, w, e))
  {
    if Next(c, w, e) != w {
      assert CopyOf(c, o, w.copies[e.i]);
      match e
      case Return(i, reply) =>
      case HandOver(i, error, publish, reply) => HandOverFaithful(c, o, w, i, error, publish, reply);
      case Redeliver(i) =>
        MoveFaithful(c, o, w, i, w.copies[i].place.(live := false));
        AddFaithful(c, o, Move(w, i, w.copies[i].place.(live := false)), w.copies[i].msg, Queued);
      case _ => MoveFaithful(c, o, w, e.i, Next(c, w, e).copies[e.i].place);
    }
  }

  lemma {:induction false} RunFaithful(c: Consumer, o: Message, w: World, events: seq<Event>)
    requires Faithful(c, o, w)
    ensures Faithful(c, o, Run(c, w, events))
    decreases |events|
  {
    if events != [] {
      StepFaithful(c, o, w, events[0]);
      RunFaithful(c, o, Next(c, w, events[0]), events[1..]);
    }
  }

  // ---- Results ------------------------------------------------------------------------------------

  /** Whatever happens to the message, every reply it provokes, success or exhaustion, goes to the
      requester's queue, is accepted by the request that issued it, and by no pending request with
      another correlation id or another request id. */
  lemma RepliesFindTheirRequest(c: Consumer, p: Pending, o: Message, events: seq<Event>, k: nat)
    requires Issued(p, o) && k < |Run(c, Published(o), events).replies|
    ensures var r := Run(c, Published(o), events).replies[k];
      && Some(r.to) == o.replyTo
      && Accepts(p, r)
      && forall q: Pending ::
           q.correlationId != p.correlationId || (Given(q.requestId) && q.requestId != p.requestId) ==> !Accepts(q, r)
  {
    RunFaithful(c, o, Published(o), events);
  }

  /** Every copy, wherever it is, has the content, the reply address and the ids of the original. */
  lemma CopiesKeepCorrelation(c: Consumer, o: Message, events: seq<Event>, i: nat)
    requires i < |Run(c, Published(o), events).copies|
    ensures SameRequest(o, Run(c, Published(o), events).copies[i].msg)
  {
    RunFaithful(c, o, Published(o), events);
    assert CopyOf(c, o, Run(c, Published(o), events).copies[i]);
  }

  /** Without a configured key a dead-lettered copy carries the original routing key only if the very first
      attempt exhausted the message; after any retry it carries the name of the work queue. */
  lemma DeadLetterKey(c: Consumer, o: Message, events: seq<Event>, i: nat)
    requires i < |Run(c, Published(o), events).copies|
    requires Run(c, Published(o), events).copies[i].place.DeadLettered?
    requires c.policy.deadLetter.Some? && c.policy.deadLetter.value.routingKey.None?
    ensures var m := Run(c, Published(o), events).copies[i].msg;
      m.routingKey == (if Count(m) == Count(o) + 1 then o.routingKey else c.queue)
  {
    RunFaithful(c, o, Published(o), events);
    assert CopyOf(c, o, Run(c, Published(o), events).copies[i]);
  }

  /** The routing-key check of an rpc consumer: a pattern that accepts the published key and the queue's
      name accepts every copy that ever waits for the consumer. The second condition is needed as soon as
      a copy has been retried, because it then comes under that name. */
  lemma DeliveriesPassTheCheck(c: Consumer, o: Message, events: seq<Event>, i: nat, pattern: RoutingKeys.Pattern)
    requires i < |Run(c, Published(o), events).copies| && Waiting(Run(c, Published(o), events).copies[i].place)
    ensures var m := Run(c, Published(o), events).copies[i].msg;
      && (Count(m) > Count(o) ==> (PatternAccepts(pattern, m.routingKey) <==> PatternAccepts(pattern, c.queue)))
      && (PatternAccepts(pattern, o.routingKey) && PatternAccepts(pattern, c.queue) ==> PatternAccepts(pattern, m.routingKey))
  {
    RunFaithful(c, o, Published(o), events);
    assert CopyOf(c, o, Run(c, Published(o), events).copies[i]);
  }

  // ---- Turned away ----------------------------------------------------------------------------------

  ghost predicate NeverTurnsAway(c: Consumer, o: Message) {
    forall events, i :: 0 <= i < |Run(c, Published(o), events).copies| ==> !Run(c, Published(o), events).copies[i].place.Misrouted?
  }

  lemma TurnedAwayIn(c: Consumer, o: Message, events: seq<Event>, i: nat)
    requires i < |Run(c, Published(o), events).copies| && Run(c, Published(o), events).copies[i].place.Misrouted?
    ensures !NeverTurnsAway(c, o)
  {
  }

  /** A copy that reached the consumer came under the published key, or under the queue's name after a retry. */
  lemma RetriedOnlyBelowMaximum(c: Consumer, o: Message, events: seq<Event>, i: nat)
    requires i < |Run(c, Published(o), events).copies| && RetrySafety.Reached(Run(c, Published(o), events).copies[i].place)
    ensures var m := Run(c, Published(o), events).copies[i].msg;
      m.routingKey == o.routingKey || (m.routingKey == c.queue && Attempts(o) < MaxAttempts(c))
  {
    RunFaithful(c, o, Published(o), events);
    RetrySafety.PublishedSound(c, o);
    RetrySafety.RunSound(c, o, Published(o), events);
    var copy := Run(c, Published(o), events).copies[i];
    assert CopyOf(c, o, copy) && RetrySafety.CopyOk(c, o, copy);
  }

  lemma {:induction false} RunSnoc(c: Consumer, w: World, events: seq<Event>, e: Event)
    ensures Run(c, w, events + [e]) == Next(c, Run(c, w, events), e)
    decreases |events|
  {
    if events == [] {
      assert [] + [e] == [e] && [e][1..] == [];
      assert Run(c, Next(c, w, e), [e][1..]) == Next(c, w, e);
    } else {
      assert (events + [e])[1..] == events[1..] + [e];
      RunSnoc(c, Next(c, w, events[0]), events[1..], e);
    }
  }

  /** A queued copy under a wrong key is delivered and turned away. */
  lemma TurnsAwayQueued(c: Consumer, o: Message, events: seq<Event>, i: nat)
    requires i < |Run(c, Published(o), events).copies| && Run(c, Published(o), events).copies[i].place.Queued?
    requires Refuses(c, Run(c, Published(o), events).copies[i].msg)
    ensures !NeverTurnsAway(c, o)
  {
    RunSnoc(c, Published(o), events, Deliver(i));
    RunSnoc(c, Published(o), events + [Deliver(i)], TurnAway(i, Lands));
    TurnedAwayIn(c, o, events + [Deliver(i)] + [TurnAway(i, Lands)], i);
  }

  lemma OneThrow(c: Consumer, o: Message) returns (events: seq<Event>)
    requires !Refuses(c, o)
    ensures Run(c, Published(o), events).copies == [Copy(o, Taken(Failing(true), true))]
  {
    events := [Deliver(0)];
    assert Run(c, Published(o), events) == Next(c, Published(o), Deliver(0));
    RunSnoc(c, Published(o), events, Start(0));
    events := events + [Start(0)];
    RunSnoc(c, Published(o), events, Throw(0));
    events := events + [Throw(0)];
  }

  /** One failing attempt puts a copy under the queue's name on its way back to it. */
  lemma OneFailure(c: Consumer, o: Message) returns (events: seq<Event>)
    requires Attempts(o) < MaxAttempts(c) && !Refuses(c, o)
    ensures var w := Run(c, Published(o), events);
      |w.copies| == 2 && w.copies[1].place.Queued? && w.copies[1].msg.routingKey == c.queue
  {
    events := OneThrow(c, o);
    RunSnoc(c, Published(o), events, HandOver(0, "", Confirmed, Confirmed));
    events := events + [HandOver(0, "", Confirmed, Confirmed)];
    if Delayed(c) {
      RunSnoc(c, Published(o), events, Expire(1));
      events := events + [Expire(1)];
    }
  }

  /** No run turns a copy of the message away if and only if the rpc consumer's pattern accepts the key the
      message was published under and, should a retry be possible at all, the name of its own queue. */
  lemma NeverTurnsAwayIff(c: Consumer, o: Message)
    ensures NeverTurnsAway(c, o) <==> TakesAll(c, o)
  {
    if TakesAll(c, o) {
      forall events, i | 0 <= i < |Run(c, Published(o), events).copies|
        ensures !Run(c, Published(o), events).copies[i].place.Misrouted?
      {
        if Run(c, Published(o), events).copies[i].place.Misrouted? {
          RetriedOnlyBelowMaximum(c, o, events, i);
          RetrySafety.NoMessageLost(c, o, events);
        }
      }
    } else if Refuses(c, o) {
      var none: seq<Event> := [];
      assert Run(c, Published(o), none) == Published(o) && Published(o).copies[0] == Copy(o, Queued);
      TurnsAwayQueued(c, o, none, 0);
    } else {
      var events := OneFailure(c, o);
      TurnsAwayQueued(c, o, events, 1);
    }
  }
}
