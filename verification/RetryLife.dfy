/** The life of one failing message under bounded retries: every copy of it on the work queue, on the wait
    queue, in the hands of a consumer, dead-lettered or gone, with faults at every call. A copy that the
    broker redelivers while a consumer still works on it lives on as a new copy beside the old one. */
module RetryLife {
  import opened Options
  import opened RetryPolicy

  /** Where the consumer stands with a delivery. */
  datatype Phase =
    | Delivered
    | Running
    | Returned
    | Failing(retriable: bool)
    | Handed
    | Discarding(retriable: bool)
    | Nacking
    | Idle

  /** `live`: the broker still holds the delivery as unacknowledged. */
  datatype Place =
    | Queued
    | Parked
    | Taken(phase: Phase, live: bool)
    | DeadLettered
    | Completed
    | Rejected
    | Misrouted
    | Dropped(retriable: bool)
    | Settled

  datatype Copy = Copy(msg: Message, place: Place)

  datatype Reply = Reply(to: string, correlationId: Option<string>, headers: map<string, string>, success: bool)

  /** `copies`: every copy there ever was, oldest first. `requeues`: deliveries the broker put back. */
  datatype World = World(copies: seq<Copy>, replies: seq<Reply>, executions: nat, requeues: nat, exhausted: nat)

  /** A publish is confirmed, refused, or lands without the confirm getting back. */
  datatype PublishFate = Confirmed | Refused | Unconfirmed

  /** An ack or nack takes effect, throws, or gets lost on the wire. */
  datatype CallFate = Lands | Throws | Vanishes

  datatype Event =
    | Deliver(i: nat)
    | TurnAway(i: nat, fate: CallFate)
    | Undecodable(i: nat)
    | Start(i: nat)
    | Throw(i: nat)
    | Return(i: nat, reply: PublishFate)
    | AskNack(i: nat, requeue: bool, fate: CallFate)
    | AckReturned(i: nat, fate: CallFate)
    | HandOver(i: nat, error: string, publish: PublishFate, reply: PublishFate)
    | AckHanded(i: nat, fate: CallFate)
    | NackBack(i: nat, fate: CallFate)
    | Redeliver(i: nat)
    | Expire(i: nat)

  // ---- Steps ------------------------------------------------------------------------------------

  function Move(w: World, i: nat, place: Place): World
    requires i < |w.copies|
  {
    w.(copies := w.copies[i := w.copies[i].(place := place)])
  }

  function Add(w: World, msg: Message, place: Place): World { w.(copies := w.copies + [Copy(msg, place)]) }

  predicate In(w: World, i: nat, phase: Phase) {
    i < |w.copies| && w.copies[i].place.Taken? && w.copies[i].place.phase == phase
  }

  function SetPhase(w: World, i: nat, phase: Phase): World
    requires i < |w.copies| && w.copies[i].place.Taken?
  {
    Move(w, i, w.copies[i].place.(phase := phase))
  }

  /** An acknowledgement or rejection that reaches the broker; on a dead channel it changes nothing. */
  function Settle(w: World, i: nat, place: Place): World
    requires i < |w.copies| && w.copies[i].place.Taken?
  {
    if w.copies[i].place.live then Move(w, i, place) else SetPhase(w, i, Idle)
  }

  /** A requeue that reaches the broker. */
  function PutBack(w: World, i: nat): World
    requires i < |w.copies| && w.copies[i].place.Taken?
  {
    if w.copies[i].place.live then Move(w, i, Queued).(requeues := w.requeues + 1) else SetPhase(w, i, Idle)
  }

  function WithReply(w: World, m: Message, fate: PublishFate, success: bool): World {
    if Given(m.replyTo) && fate != Refused
    then w.(replies := w.replies + [Reply(m.replyTo.value, m.correlationId, m.headers, success)])
    else w
  }

  /** A delivery under a key the consumer does not take is rejected for good. */
  function TurnAwayStep(c: Consumer, w: World, i: nat, fate: CallFate): World {
    if In(w, i, Delivered) && Refuses(c, w.copies[i].msg) then
      match fate
      case Lands => Settle(w, i, Misrouted)
      case Throws => SetPhase(w, i, Failing(true))
      case Vanishes => SetPhase(w, i, Idle)
    else w
  }

  predicate Admits(c: Consumer, w: World, i: nat) { In(w, i, Delivered) && !Refuses(c, w.copies[i].msg) }

  /** The consumer callback after the handler returned: reply first, acknowledge next. */
  function ReturnStep(c: Consumer, w: World, i: nat, reply: PublishFate): World {
    if In(w, i, Running) then
      if c.rpc && Given(w.copies[i].msg.replyTo) then
        SetPhase(WithReply(w, w.copies[i].msg, reply, true), i, if reply == Confirmed then Returned else Failing(true))
      else SetPhase(w, i, Returned)
    else w
  }

  function AskNackStep(w: World, i: nat, requeue: bool, fate: CallFate): World {
    if In(w, i, Running) then
      match fate
      case Lands => if requeue then PutBack(w, i) else Settle(w, i, Rejected)
      case Throws => SetPhase(w, i, Failing(true))
      case Vanishes => SetPhase(w, i, Idle)
    else w
  }

  function AckReturnedStep(w: World, i: nat, fate: CallFate): World {
    if In(w, i, Returned) then
      match fate
      case Lands => Settle(w, i, Completed)
      case Throws => SetPhase(w, i, Failing(true))
      case Vanishes => SetPhase(w, i, Idle)
    else w
  }

  /** A publish of the error handler, and where its promise leads. */
  function PublishCopy(w: World, i: nat, msg: Message, place: Place, fate: PublishFate): World
    requires i < |w.copies| && w.copies[i].place.Taken?
  {
    var moved := SetPhase(w, i, if fate == Confirmed then Handed else Nacking);
    if fate == Refused then moved else Add(moved, msg, place)
  }

  predicate Retries(c: Consumer, m: Message, retriable: bool) { retriable && Attempts(m) < MaxAttempts(c) }

  /** The error handler up to its acknowledgement: a retry copy, a dead-letter copy, or nothing. */
  function HandOverStep(c: Consumer, w: World, i: nat, error: string, publish: PublishFate, reply: PublishFate): World {
    if i < |w.copies| && w.copies[i].place.Taken? && w.copies[i].place.phase.Failing? then
      var m, retriable := w.copies[i].msg, w.copies[i].place.phase.retriable;
      if Retries(c, m, retriable) then
        PublishCopy(w, i, RetryCopy(c, m), if Delayed(c) then Parked else Queued, publish)
      else
        var replied := if Given(m.correlationId) then WithReply(w, m, reply, false) else w;
        var told := replied.(exhausted := w.exhausted + 1);
        if UsableDeadLetter(c) then PublishCopy(told, i, DeadCopy(c, m, error), DeadLettered, publish)
        else SetPhase(told, i, Discarding(retriable))
    else w
  }

  function AckHandedStep(w: World, i: nat, fate: CallFate): World {
    if i < |w.copies| && w.copies[i].place.Taken? && (w.copies[i].place.phase.Handed? || w.copies[i].place.phase.Discarding?) then
      var phase := w.copies[i].place.phase;
      match fate
      case Lands => Settle(w, i, if phase.Handed? then Settled else Dropped(phase.retriable))
      case Throws => SetPhase(w, i, Nacking)
      case Vanishes => SetPhase(w, i, Idle)
    else w
  }

  function NackBackStep(w: World, i: nat, fate: CallFate): World {
    if In(w, i, Nacking) then if fate == Lands then PutBack(w, i) else SetPhase(w, i, Idle) else w
  }

  /** The channel died: the delivery goes back to the queue, the consumer may still be at work on it. */
  function RedeliverStep(w: World, i: nat): World {
    if i < |w.copies| && w.copies[i].place.Taken? && w.copies[i].place.live then
      Add(Move(w, i, w.copies[i].place.(live := false)), w.copies[i].msg, Queued).(requeues := w.requeues + 1)
    else w
  }

  function Next(c: Consumer, w: World, e: Event): World {
    match e
    case Deliver(i) => if i < |w.copies| && w.copies[i].place.Queued? then Move(w, i, Taken(Delivered, true)) else w
    case TurnAway(i, fate) => TurnAwayStep(c, w, i, fate)
    case Undecodable(i) => if Admits(c, w, i) then SetPhase(w, i, Failing(false)) else w
    case Start(i) => if Admits(c, w, i) then SetPhase(w, i, Running).(executions := w.executions + 1) else w
    case Throw(i) => if In(w, i, Running) then SetPhase(w, i, Failing(true)) else w
    case Return(i, reply) => ReturnStep(c, w, i, reply)
    case AskNack(i, requeue, fate) => AskNackStep(w, i, requeue, fate)
    case AckReturned(i, fate) => AckReturnedStep(w, i, fate)
    case HandOver(i, error, publish, reply) => HandOverStep(c, w, i, error, publish, reply)
    case AckHanded(i, fate) => AckHandedStep(w, i, fate)
    case NackBack(i, fate) => NackBackStep(w, i, fate)
    case Redeliver(i) => RedeliverStep(w, i)
    case Expire(i) => if i < |w.copies| && w.copies[i].place.Parked? then Move(w, i, Queued) else w
  }

  function Run(c: Consumer, w: World, events: seq<Event>): World
    decreases |events|
  {
    if events == [] then w else Run(c, Next(c, w, events[0]), events[1..])
  }

  /** One message on the work queue that was never retried. */
  function Published(m: Message): World { World([Copy(m, Queued)], [], 0, 0, 0) }
}
