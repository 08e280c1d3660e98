/** Kafka message envelopes and the trace-context carrier of
    shared/observe/traces/apache-kafka.go: an ordered list of headers
    read and written by key, and the two traced wrappers around producing
    and handling a message. Spans, attributes and the propagator's own
    encoding are not modelled; the propagator's writes are given as the
    list of (key, value) pairs it sets. */
module Traces {
  import opened Errors

  /** A message header. Go stores the value as bytes and converts it from
      and to a string on every Set and Get; the model keeps the string. */
  datatype Header = Header(key: string, value: string)

  /** kafka.PartitionAny */
  const PartitionAny: int := -1

  /** A kafka.Message: topic, partition and offset, key, value and headers
      (`None` for a nil header slice). */
  datatype Message = Message(
    topic: string, partition: int, offset: int,
    key: string, value: seq<byte>, headers: Option<seq<Header>>)

  /** The arguments a consumer's handler receives for one message. */
  datatype Delivery = Delivery(topic: string, key: string, value: seq<byte>)

  // ----- kafkaHeaderCarrier -----

  /** Reference: the position of the first header with `key`, or |c| when none has it. */
  function FirstIndex(c: seq<Header>, key: string): (i: nat)
    ensures i <= |c|
    ensures i < |c| ==> c[i].key == key
    ensures forall j :: 0 <= j < i ==> c[j].key != key
  {
    if |c| == 0 then 0
    else if c[0].key == key then 0
    else 1 + FirstIndex(c[1..], key)
  }

  /** Get: the value of the first header whose key matches, "" if none does. */
  function Get(c: seq<Header>, key: string): (r: string)
    ensures FirstIndex(c, key) < |c| ==> r == c[FirstIndex(c, key)].value
    ensures FirstIndex(c, key) == |c| ==> r == ""
  {
    if |c| == 0 then ""
    else if c[0].key == key then c[0].value
    else Get(c[1..], key)
  }

  /** Set: overwrite the value of the first header with `key`, or append
      one header when no header has it. */
  function Set(c: seq<Header>, key: string, value: string): (r: seq<Header>)
    // present: same length, only the first match changes
    ensures FirstIndex(c, key) < |c| ==>
              |r| == |c| && r[FirstIndex(c, key)] == Header(key, value) &&
              forall j :: 0 <= j < |c| && j != FirstIndex(c, key) ==> r[j] == c[j]
    // absent: exactly one header appended at the end
    ensures FirstIndex(c, key) == |c| ==> r == c + [Header(key, value)]
  {
    if |c| == 0 then [Header(key, value)]
    else if c[0].key == key then [c[0].(value := value)] + c[1..]
    else [c[0]] + Set(c[1..], key, value)
  }

  /** After Set(k, v), Get(k) reads v; every other key reads as before. */
  lemma {:induction false} GetAfterSet(c: seq<Header>, key: string, value: string, other: string)
    ensures Get(Set(c, key, value), key) == value
    ensures other != key ==> Get(Set(c, key, value), other) == Get(c, other)
  {
    if |c| > 0 && c[0].key != key {
      GetAfterSet(c[1..], key, value, other);
      assert Set(c, key, value)[1..] == Set(c[1..], key, value);
    }
  }

  /** Setting the same key twice keeps only the second value, without growing the list. */
  lemma SetTwice(c: seq<Header>, key: string, v1: string, v2: string)
    ensures Set(Set(c, key, v1), key, v2) == Set(c, key, v2)
  {
    var c1 := Set(c, key, v1);
    var i := FirstIndex(c1, key);
    if FirstIndex(c, key) == |c| {
      assert c1[|c|].key == key;
      assert i == |c|;
    } else {
      var k := FirstIndex(c, key);
      assert c1[k].key == key;
      assert i == k;
    }
    var lhs := Set(c1, key, v2);
    var rhs := Set(c, key, v2);
    assert |lhs| == |rhs|;
    assert forall j :: 0 <= j < |lhs| ==> lhs[j] == rhs[j];
  }

  /** Keys: one key per header, in header order. */
  method Keys(c: seq<Header>) returns (keys: seq<string>)
    ensures |keys| == |c|
    ensures forall i :: 0 <= i < |c| ==> keys[i] == c[i].key
  {
    keys := [];
    var i := 0;
    while i < |c|
      invariant 0 <= i <= |c|
      invariant |keys| == i
      invariant forall j :: 0 <= j < i ==> keys[j] == c[j].key
    {
      keys := keys + [c[i].key];
      i := i + 1;
    }
  }

  /** The propagator's writes, applied one Set at a time. */
  function Inject(c: seq<Header>, fields: seq<(string, string)>): (r: seq<Header>)
    decreases |fields|
    ensures |c| <= |r| <= |c| + |fields|
    ensures forall i :: 0 <= i < |c| ==> r[i].key == c[i].key
  {
    if |fields| == 0 then c
    else Inject(Set(c, fields[0].0, fields[0].1), fields[1..])
  }

  // ----- traced wrappers -----

  /** What TracedProduce handed to the producer, and what it returned. */
  datatype Traced = Traced(sent: Message, result: Outcome)

  /** TracedProduce: a nil header list becomes an empty one, the trace
      context is injected, and the message goes to `produce` with its
      topic, partition, key and value untouched; `produce`'s error comes
      back unchanged. */
  function TracedProduce(msg: Message, injected: seq<(string, string)>, produce: Message -> Outcome): (t: Traced)
    ensures t.sent == msg.(headers := t.sent.headers)
    ensures t.sent.headers.Some?
    ensures t.sent.headers.value == Inject(if msg.headers.Some? then msg.headers.value else [], injected)
    ensures t.result == produce(t.sent)
  {
    var start := if msg.headers.None? then [] else msg.headers.value;
    var sent := msg.(headers := Some(Inject(start, injected)));
    Traced(sent, produce(sent))
  }

  /** TracedConsumeHandler: the handler sees the message's topic, key and
      value, and its result is returned unchanged. */
  function TracedConsumeHandler(handler: Delivery -> Outcome, msg: Message): (r: Outcome)
    ensures r == handler(Delivery(msg.topic, msg.key, msg.value))
  {
    handler(Delivery(msg.topic, msg.key, msg.value))
  }
}
