/** The message bus of shared/messaging/apache-kafka.go.

    The broker is a set of oracles. `Produce` is decided by whether the
    traced enqueue succeeds and by the event that arrives on the delivery
    channel (or the context finishing first). `Consume` is a fold over the
    events its poll loop receives before the context is done; each
    received message carries the oracles that decide its retried handling
    and its dead-letter publish. The fold returns the trace of effects the
    loop performs: handler runs, dead-letter publishes and offset commits. */
module Messaging {
  import opened Errors
  import opened Traces
  import Retry

  // ----- client construction -----

  /** The settings NewKafkaClient gives its consumer that the model relies on. */
  datatype ConsumerSettings = ConsumerSettings(autoCommit: bool, autoOffsetReset: string)

  datatype Setup = Setup(result: Outcome, consumer: Option<ConsumerSettings>, producerClosed: bool)

  /** NewKafkaClient: a producer failure is returned at once; a consumer
      failure closes the producer already created and is returned. */
  function NewKafkaClient(producer: Outcome, consumer: Outcome): (s: Setup)
    ensures s.result.Pass? <==> producer.Pass? && consumer.Pass?
    ensures producer.Fail? ==> s.result == producer && !s.producerClosed
    ensures producer.Pass? && consumer.Fail? ==> s.result == consumer && s.producerClosed
    ensures s.result.Pass? ==> !s.producerClosed && s.consumer.Some? && !s.consumer.value.autoCommit
  {
    if producer.Fail? then Setup(producer, None, false)
    else if consumer.Fail? then Setup(consumer, None, true)
    else Setup(Pass, Some(ConsumerSettings(false, "earliest")), false)
  }

  // ----- Produce -----

  /** What arrives first: a delivery report (with the report's partition
      error, if any), some other event on the delivery channel, or the end
      of the context. */
  datatype DeliveryEvent = Delivered(partitionError: Option<Error>) | OtherEvent | ContextDone(ctxErr: Error)

  datatype ProduceOracle = ProduceOracle(
    injected: seq<(string, string)>,  // what the trace propagator writes into the headers
    enqueue: Outcome,                 // producer.Produce's immediate result
    delivery: DeliveryEvent)

  const ErrUnexpectedDelivery: Error := KafkaUnknown("unexpected delivery event")

  /** Produce: build the message for any partition, enqueue it through
      TracedProduce, then wait for its delivery report. */
  function Produce(topic: string, key: string, value: seq<byte>, o: ProduceOracle): (t: Traced)
    // exactly the given topic, key and value, to any partition
    ensures t.sent.topic == topic && t.sent.key == key && t.sent.value == value
    ensures t.sent.partition == PartitionAny
    // a failed enqueue is returned at once
    ensures o.enqueue.Fail? ==> t.result == o.enqueue
    // nil only for a report that carries no error
    ensures t.result.Pass? <==> o.enqueue.Pass? && o.delivery == Delivered(None)
    ensures o.enqueue.Pass? ==> match o.delivery
              case Delivered(Some(e)) => t.result == Fail(e)
              case Delivered(None) => t.result == Pass
              case OtherEvent => t.result == Fail(ErrUnexpectedDelivery)
              case ContextDone(e) => t.result == Fail(e)
  {
    var msg := Message(topic, PartitionAny, 0, key, value, None);
    var enqueued := TracedProduce(msg, o.injected, _ => o.enqueue);
    if enqueued.result.Fail? then enqueued
    else
      var result := match o.delivery
        case Delivered(partitionError) =>
          if partitionError.Some? then Fail(partitionError.value) else Pass
        case OtherEvent => Fail(ErrUnexpectedDelivery)
        case ContextDone(e) => Fail(e);
      Traced(enqueued.sent, result)
  }

  // ----- dead-letter queue -----

  /** The dead-letter topic of `topic`. */
  function DlqTopic(topic: string): (d: string)
    ensures |d| == |topic| + 4 && d[..|topic|] == topic && d[|topic|..] == "-DLQ"
  {
    topic + "-DLQ"
  }

  /** Distinct topics have distinct dead-letter topics. */
  lemma DlqTopicInjective(a: string, b: string)
    ensures DlqTopic(a) == DlqTopic(b) ==> a == b
  {
    if DlqTopic(a) == DlqTopic(b) {
      assert a == DlqTopic(a)[..|a|];
    }
  }

  /** DLQ: republish key and value to the dead-letter topic. */
  function DLQ(topic: string, key: string, value: seq<byte>, o: ProduceOracle): (t: Traced)
    ensures t.sent.topic == DlqTopic(topic) && t.sent.key == key && t.sent.value == value
  {
    Produce(DlqTopic(topic), key, value, o)
  }

  // ----- Consume -----

  /** The fixed policy under which every message's handler runs. */
  function ConsumerRetry(): (c: Retry.RetryConfig)
    ensures c.maxAttempts == 5 && c.initialDelay == 100 * Millisecond
    ensures c.maxDelay == 5 * Second && c.backoffFactor == 2 && c.jitter
  {
    Retry.RetryConfig(5, 100 * Millisecond, 5 * Second, 2, true)
  }

  /** One result of Consumer.Poll, with the oracles of a received message. */
  datatype PollEvent =
    | NoEvent
    | Received(msg: Message, handling: Retry.Oracle, dlq: ProduceOracle)
    | BrokerError(err: Error)
    | Ignored

  /** The handler: `handler(d, k)` is what the k-th attempt on delivery `d` returns. */
  type Handler = (Delivery, nat) -> Outcome

  datatype Effect =
    | Handle(delivery: Delivery, attempts: nat)  // the handler ran `attempts` times on `delivery`
    | DeadLetter(publish: Traced)                // the DLQ publish and its result
    | Commit(msg: Message)                       // CommitMessage on the polled message

  /** The delivery a received message hands to its handler. */
  function DeliveryOf(msg: Message): Delivery {
    Delivery(msg.topic, msg.key, msg.value)
  }

  /** The retried handler run for a received message. */
  function HandlerRun(msg: Message, handling: Retry.Oracle, handler: Handler): (r: Retry.Run)
    ensures r.calls <= 5
  {
    Retry.RetryWithBackoff(
      Some(ConsumerRetry()),
      (k: nat) => TracedConsumeHandler(d => handler(d, k), msg),
      handling)
  }

  /** The effects of one poll-loop iteration. */
  function Step(e: PollEvent, handler: Handler): (effects: seq<Effect>)
    ensures !e.Received? ==> effects == []
    ensures e.Received? ==>
              var run := HandlerRun(e.msg, e.handling, handler);
              var dlq := DLQ(e.msg.topic, e.msg.key, e.msg.value, e.dlq);
              && |effects| >= 2
              && effects[0] == Handle(DeliveryOf(e.msg), run.calls)
              && (run.result.Pass? ==> effects == effects[..1] + [Commit(e.msg)])
              && (run.result.Fail? ==> effects[1] == DeadLetter(dlq))
              && (run.result.Fail? && dlq.result.Pass? ==> effects == effects[..2] + [Commit(e.msg)])
              && (run.result.Fail? && dlq.result.Fail? ==> |effects| == 2)
  {
    match e
    case Received(msg, handling, dlqOracle) =>
      var handled := [Handle(DeliveryOf(msg), HandlerRun(msg, handling, handler).calls)];
      if HandlerRun(msg, handling, handler).result.Pass? then handled + [Commit(msg)]
      else
        var dlq := DLQ(msg.topic, msg.key, msg.value, dlqOracle);
        if dlq.result.Fail? then handled + [DeadLetter(dlq)]   // logged as critical; no commit
        else handled + [DeadLetter(dlq), Commit(msg)]
    case _ => []
  }

  /** The effects of the poll loop over `polls`, in order. */
  function Drain(polls: seq<PollEvent>, handler: Handler): (effects: seq<Effect>)
  {
    Concat(polls, (e: PollEvent) => Step(e, handler))
  }

  /** The concatenation of `f` over `xs`, in order. */
  function Concat<A, B>(xs: seq<A>, f: A -> seq<B>): seq<B>
  {
    if |xs| == 0 then [] else f(xs[0]) + Concat(xs[1..], f)
  }

  lemma {:induction false} ConcatAppend<A, B>(a: seq<A>, b: seq<A>, f: A -> seq<B>)
    ensures Concat(a + b, f) == Concat(a, f) + Concat(b, f)
  {
    if |a| > 0 {
      ConcatAppend(a[1..], b, f);
      assert (a + b)[1..] == a[1..] + b;
    } else {
      assert a + b == b;
    }
  }

  datatype Consumed = Consumed(result: Outcome, effects: seq<Effect>)

  /** Consume: a failed subscription is returned before anything is
      polled; otherwise the loop runs over `polls` and returns nil once the
      context is done. */
  function Consume(subscribe: Outcome, polls: seq<PollEvent>, handler: Handler): (c: Consumed)
    ensures c.result == subscribe
    ensures subscribe.Fail? ==> c.effects == []
  {
    if subscribe.Fail? then Consumed(subscribe, [])
    else Consumed(Pass, Drain(polls, handler))
  }

  // ----- properties of the poll loop -----

  /** Handling a sequence of polls is handling its parts one after the other. */
  lemma DrainAppend(a: seq<PollEvent>, b: seq<PollEvent>, handler: Handler)
    ensures Drain(a + b, handler) == Drain(a, handler) + Drain(b, handler)
  {
    ConcatAppend(a, b, (e: PollEvent) => Step(e, handler));
  }

  /** Whether the loop commits a received message: after the retried
      handler succeeded, or after its dead-letter publish succeeded. */
  predicate Commits(e: PollEvent, handler: Handler)
  {
    e.Received? &&
    (HandlerRun(e.msg, e.handling, handler).result.Pass? ||
     DLQ(e.msg.topic, e.msg.key, e.msg.value, e.dlq).result.Pass?)
  }

  /** The messages committed by a trace of effects, in order. */
  function Committed(effects: seq<Effect>): seq<Message> {
    if |effects| == 0 then []
    else (if effects[0].Commit? then [effects[0].msg] else []) + Committed(effects[1..])
  }

  /** Reference: the polled messages the loop should commit, in poll order. */
  function ExpectedCommits(polls: seq<PollEvent>, handler: Handler): seq<Message> {
    if |polls| == 0 then []
    else (if Commits(polls[0], handler) then [polls[0].msg] else []) + ExpectedCommits(polls[1..], handler)
  }

  lemma {:induction false} CommittedAppend(a: seq<Effect>, b: seq<Effect>)
    ensures Committed(a + b) == Committed(a) + Committed(b)
  {
    if |a| > 0 {
      CommittedAppend(a[1..], b);
      assert (a + b)[1..] == a[1..] + b;
    } else {
      assert a + b == b;
    }
  }

  /** One poll commits its message exactly when Commits says so. */
  lemma StepCommits(e: PollEvent, handler: Handler)
    ensures Committed(Step(e, handler)) == (if Commits(e, handler) then [e.msg] else [])
  {
    var s := Step(e, handler);
    if e.Received? {
      var run := HandlerRun(e.msg, e.handling, handler);
      var dlq := DLQ(e.msg.topic, e.msg.key, e.msg.value, e.dlq);
      assert Committed(s) == Committed(s[1..]);
      assert Committed(s[1..]) == (if s[1].Commit? then [s[1].msg] else []) + Committed(s[2..]);
      if run.result.Pass? {
        assert s[1..] == [Commit(e.msg)];
      } else if dlq.result.Pass? {
        assert s[2..] == [Commit(e.msg)];
        assert Committed(s[2..]) == [e.msg] + Committed(s[3..]);
      } else {
        assert s[2..] == [];
      }
    }
  }

  /** Commit rule: each received message is committed exactly once when its
      handler succeeded or its dead-letter publish succeeded, and never
      otherwise; nil polls, broker errors and other events commit nothing. */
  lemma {:induction false} CommitsFollowRule(polls: seq<PollEvent>, handler: Handler)
    ensures Committed(Drain(polls, handler)) == ExpectedCommits(polls, handler)
  {
    if |polls| > 0 {
      var e := polls[0];
      CommitsFollowRule(polls[1..], handler);
      assert Drain(polls, handler) == Step(e, handler) + Drain(polls[1..], handler);
      CommittedAppend(Step(e, handler), Drain(polls[1..], handler));
      StepCommits(e, handler);
    }
  }

  /** A message whose handler fails retryably on every attempt, under a
      context that stays live, is handled five times and republished with
      its key and value to `<topic>-DLQ`. */
  lemma AlwaysFailingHandlerIsDeadLettered(e: PollEvent, handler: Handler)
    requires e.Received?
    requires forall k: nat :: 1 <= k <= 5 ==> !e.handling.doneBeforeAttempt(k) && !e.handling.doneDuringBackoff(k)
    requires forall k: nat :: 1 <= k <= 5 ==>
               handler(DeliveryOf(e.msg), k).Fail? && Retry.IsRetryable(handler(DeliveryOf(e.msg), k).error)
    ensures Step(e, handler)[0] == Handle(DeliveryOf(e.msg), 5)
    ensures Step(e, handler)[1].DeadLetter?
    ensures Step(e, handler)[1].publish.sent.topic == DlqTopic(e.msg.topic)
    ensures Step(e, handler)[1].publish.sent.key == e.msg.key
    ensures Step(e, handler)[1].publish.sent.value == e.msg.value
  {
    AlwaysFailingRunsFiveTimes(e.msg, e.handling, handler);
  }

  /** Such a message is committed once when its dead-letter publish
      succeeds, and not at all when it fails. */
  lemma AlwaysFailingHandlerCommitsAfterDlq(e: PollEvent, handler: Handler)
    requires e.Received?
    requires forall k: nat :: 1 <= k <= 5 ==> !e.handling.doneBeforeAttempt(k) && !e.handling.doneDuringBackoff(k)
    requires forall k: nat :: 1 <= k <= 5 ==>
               handler(DeliveryOf(e.msg), k).Fail? && Retry.IsRetryable(handler(DeliveryOf(e.msg), k).error)
    ensures DLQ(e.msg.topic, e.msg.key, e.msg.value, e.dlq).result.Pass? <==> Committed(Step(e, handler)) == [e.msg]
    ensures DLQ(e.msg.topic, e.msg.key, e.msg.value, e.dlq).result.Fail? <==> Committed(Step(e, handler)) == []
  {
    AlwaysFailingRunsFiveTimes(e.msg, e.handling, handler);
    StepCommits(e, handler);
  }

  /** The retried run of such a handler: five attempts, ending in failure. */
  lemma AlwaysFailingRunsFiveTimes(msg: Message, handling: Retry.Oracle, handler: Handler)
    requires forall k: nat :: 1 <= k <= 5 ==> !handling.doneBeforeAttempt(k) && !handling.doneDuringBackoff(k)
    requires forall k: nat :: 1 <= k <= 5 ==>
               handler(DeliveryOf(msg), k).Fail? && Retry.IsRetryable(handler(DeliveryOf(msg), k).error)
    ensures HandlerRun(msg, handling, handler).calls == 5
    ensures HandlerRun(msg, handling, handler).result.Fail?
  {
    var fn := (k: nat) => TracedConsumeHandler(d => handler(d, k), msg);
    forall j | 1 <= j <= 5 ensures fn(j) == handler(DeliveryOf(msg), j) { }
    Retry.RunStopsAtFirstStop(Some(ConsumerRetry()), fn, handling, 5);
  }

  /** A handler whose first attempt returns a permanent error runs exactly
      once; the message is then dead-lettered like any other failure. */
  lemma PermanentFailureIsNotRetried(e: PollEvent, handler: Handler, cause: Error)
    requires e.Received?
    requires !e.handling.doneBeforeAttempt(1)
    requires handler(DeliveryOf(e.msg), 1) == Fail(Retry.NewPermanentError(cause))
    ensures var effects := Step(e, handler);
            && effects[0] == Handle(DeliveryOf(e.msg), 1)
            && effects[1].DeadLetter?
            && effects[1].publish.sent.topic == DlqTopic(e.msg.topic)
  {
    var fn := (k: nat) => TracedConsumeHandler(d => handler(d, k), e.msg);
    assert fn(1) == handler(DeliveryOf(e.msg), 1);
    Retry.RunStopsAtFirstStop(Some(ConsumerRetry()), fn, e.handling, 1);
  }
}
