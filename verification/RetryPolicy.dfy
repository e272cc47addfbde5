/** The bounded-retry policy: its defaults, and the copies of a failing message it publishes. */
module RetryPolicy {
  import opened Options
  import RoutingKeys

  datatype OnExhausted = ToDeadLetter | ToNowhere

  datatype DeadLetter = DeadLetter(exchange: string, routingKey: Option<string>)

  datatype Policy = Policy(maxAttempts: Option<int>, delayMs: Option<int>, onExhausted: Option<OnExhausted>,
                           deadLetter: Option<DeadLetter>)

  /** A consumer of `queue`; an rpc consumer replies to its callers and takes only keys its pattern accepts. */
  datatype Consumer = Consumer(queue: string, rpc: bool, pattern: RoutingKeys.Pattern, policy: Policy)

  const DEFAULT_MAX_ATTEMPTS := 5

  function MaxAttempts(c: Consumer): (n: nat)
    ensures n >= 1
  {
    var n := if c.policy.maxAttempts.Some? then c.policy.maxAttempts.value else DEFAULT_MAX_ATTEMPTS;
    if n < 1 then 1 else n
  }

  /** Five attempts when nothing is said, at least one whatever is said. */
  lemma MaxAttemptsExact(c: Consumer)
    ensures c.policy.maxAttempts.None? ==> MaxAttempts(c) == 5
    ensures c.policy.maxAttempts.Some? && c.policy.maxAttempts.value >= 1 ==> MaxAttempts(c) == c.policy.maxAttempts.value
    ensures c.policy.maxAttempts.Some? && c.policy.maxAttempts.value < 1 ==> MaxAttempts(c) == 1
  {
  }

  predicate Delayed(c: Consumer) { c.policy.delayMs.Some? && c.policy.delayMs.value > 0 }

  /** Exhausted messages go to an exchange: asked for, or implied by a configured one, and named. */
  predicate UsableDeadLetter(c: Consumer) {
    var wanted := if c.policy.onExhausted.Some? then c.policy.onExhausted.value
                  else if c.policy.deadLetter.Some? then ToDeadLetter else ToNowhere;
    wanted == ToDeadLetter && c.policy.deadLetter.Some? && c.policy.deadLetter.value.exchange != ""
  }

  /** A dead-letter exchange with a name is used unless dropping was asked for; nothing else dead-letters. */
  lemma DeadLettersIff(c: Consumer)
    ensures UsableDeadLetter(c) <==>
      c.policy.deadLetter.Some? && c.policy.deadLetter.value.exchange != "" && c.policy.onExhausted != Some(ToNowhere)
  {
  }

  /** A message on the broker. `retries` is its x-retry-count header, `headers` the other ones. */
  datatype Message = Message(body: string, routingKey: string, replyTo: Option<string>, correlationId: Option<string>,
                             expiration: Option<int>, retries: Option<int>, headers: map<string, string>)

  const REQUEST_ID := "X-Request-ID"
  const RETRY_ERROR := "x-retry-error"
  const RETRY_ORIGIN_QUEUE := "x-retry-origin-queue"

  function Count(m: Message): int { if m.retries.Some? then m.retries.value else 0 }

  function Attempts(m: Message): int { Count(m) + 1 }

  predicate PatternAccepts(pattern: RoutingKeys.Pattern, key: string) {
    var ps := RoutingKeys.Patterns(pattern);
    exists k | 0 <= k < |ps| :: RoutingKeys.Accepts(key, ps[k])
  }

  /** The rpc consumer turns the delivery away for its routing key. */
  predicate Refuses(c: Consumer, m: Message) { c.rpc && !PatternAccepts(c.pattern, m.routingKey) }

  /** The consumer takes the published key and, should a retry be possible at all, the name of its own
      queue, under which retried copies come back. */
  predicate TakesAll(c: Consumer, o: Message) {
    c.rpc ==> PatternAccepts(c.pattern, o.routingKey) && (Attempts(o) < MaxAttempts(c) ==> PatternAccepts(c.pattern, c.queue))
  }

  predicate Given(s: Option<string>) { s.Some? && s.value != "" }

  function RequestId(headers: map<string, string>): Option<string> {
    if REQUEST_ID in headers then Some(headers[REQUEST_ID]) else None
  }

  /** `retryProperties`: a delayed copy loses its own expiration. */
  function RetryProperties(c: Consumer, m: Message, extra: map<string, string>): Message {
    m.(retries := Some(Attempts(m)), headers := m.headers + extra, expiration := if Delayed(c) then None else m.expiration)
  }

  /** The copy that comes back to the work queue, through the wait queue or straight: either way its
      routing key is then the queue's name. */
  function RetryCopy(c: Consumer, m: Message): Message { RetryProperties(c, m, map[]).(routingKey := c.queue) }

  function DeadCopy(c: Consumer, m: Message, error: string): Message
    requires UsableDeadLetter(c)
  {
    var key := c.policy.deadLetter.value.routingKey;
    RetryProperties(c, m, map[RETRY_ERROR := error, RETRY_ORIGIN_QUEUE := c.queue])
      .(routingKey := if key.Some? then key.value else m.routingKey)
  }

  /** Everything a reply is matched by, and the content. */
  ghost predicate SameRequest(m: Message, n: Message) {
    && m.body == n.body && m.replyTo == n.replyTo && m.correlationId == n.correlationId
    && RequestId(m.headers) == RequestId(n.headers)
  }

  /** Both kinds of copy keep content and correlation, and count one attempt more. */
  lemma CopiesKeepRequest(c: Consumer, m: Message, error: string)
    ensures SameRequest(m, RetryCopy(c, m)) && Count(RetryCopy(c, m)) == Count(m) + 1
    ensures UsableDeadLetter(c) ==> SameRequest(m, DeadCopy(c, m, error)) && Count(DeadCopy(c, m, error)) == Count(m) + 1
  {
    assert REQUEST_ID[0] == 'X' && RETRY_ERROR[0] == 'x' && RETRY_ORIGIN_QUEUE[0] == 'x';
  }
}
