/** The translations at the router's edges: an inbound message record becomes
    a consumer packet handed to every consumer of its topic, and an outbound
    publish call resolves its effective topic and header map. */
module Translate {
  import opened Values
  import opened Registry

  const Publisher := "publisher"
  const Path := "path"
  const ReportTopic := "report_topic"

  /** The reserved header names split out of an inbound header map. */
  const Reserved: set<string> := {Publisher, Path, ReportTopic}

  /** `x ? x : undefined` */
  function IfTruthy(v: Value): (r: Value)
    ensures Truthy(r) == Truthy(v)
    ensures r == v || r == Undefined
    ensures r != Undefined <==> Truthy(v)
  {
    if Truthy(v) then v else Undefined
  }

  /** The consumer packet built from an inbound message: the reserved headers
      are removed, the query is tagged `amqp` and carries `path` and
      `report_topic` (as its topic) only when they are truthy. */
  function ToPacket(msg: AmqpMessage): (p: ConsumerPacket)
    ensures p.body == msg.body
    ensures p.query.kind == Amqp
    ensures Publisher !in p.headers && Path !in p.headers && ReportTopic !in p.headers
    ensures forall k :: k !in Reserved ==> (k in p.headers <==> k in msg.headers)
    ensures forall k :: k in p.headers ==> p.headers[k] == msg.headers[k]
    ensures p.query.path != Undefined <==> Truthy(Get(msg.headers, Path))
    ensures p.query.path != Undefined ==> p.query.path == msg.headers[Path]
    ensures p.query.topic != Undefined <==> Truthy(Get(msg.headers, ReportTopic))
    ensures p.query.topic != Undefined ==> p.query.topic == msg.headers[ReportTopic]
  {
    var path := Get(msg.headers, Path);
    var reportTopic := Get(msg.headers, ReportTopic);
    var rest := msg.headers - Reserved;
    ConsumerPacket(msg.body, rest, Query(Amqp, IfTruthy(path), IfTruthy(reportTopic)))
  }

  /** One call of a consumer callback with a packet. */
  datatype Invocation = Invocation(consumer: ConsumerRef, packet: ConsumerPacket)

  /** What handling one inbound message does. `Delivered` and `Aborted` list the
      consumer calls made, in order; `Aborted` means the last of them threw and
      the error left the handler. The two unknown cases call no consumer. */
  datatype DispatchOutcome =
    | UnknownQueue
    | UnknownTopic
    | Delivered(calls: seq<Invocation>)
    | Aborted(calls: seq<Invocation>)

  /** Each consumer of `cs`, in order, called with the same packet. */
  function Broadcast(cs: seq<ConsumerRef>, p: ConsumerPacket): seq<Invocation>
  {
    seq(|cs|, i requires 0 <= i < |cs| => Invocation(cs[i], p))
  }

  /** The position of the first call of `cs` that throws, or `|cs|` when none
      does. `failing` holds call positions: one callback registered twice may
      return at one position and throw at the other. */
  function FirstFailing(cs: seq<ConsumerRef>, failing: set<nat>): (n: nat)
    ensures n <= |cs|
    ensures forall j :: 0 <= j < n ==> j !in failing
    ensures n < |cs| ==> n in failing
    decreases |cs|
  {
    if cs == [] then 0
    else
      var m := FirstFailing(cs[..|cs| - 1], failing);
      if m < |cs| - 1 || |cs| - 1 in failing then m else |cs|
  }

  /** `cs.forEach(f => f(p))` where the calls at the positions in `failing`
      throw: each consumer is called in order until the first call that
      throws. */
  function Deliver(cs: seq<ConsumerRef>, p: ConsumerPacket, failing: set<nat>): (r: DispatchOutcome)
    ensures r.Delivered? || r.Aborted?
    ensures r.Delivered? <==> forall i :: 0 <= i < |cs| ==> i !in failing
    ensures |r.calls| <= |cs|
    ensures forall i :: 0 <= i < |r.calls| ==> r.calls[i] == Invocation(cs[i], p)
    ensures forall i :: 0 <= i < |r.calls| - 1 ==> i !in failing
    ensures r.Aborted? ==> |r.calls| > 0 && |r.calls| - 1 in failing
  {
    var n := FirstFailing(cs, failing);
    if n == |cs| then Delivered(Broadcast(cs, p)) else Aborted(Broadcast(cs[..n + 1], p))
  }

  /** When no call throws, every consumer is called exactly once, with the
      same packet, in registration order. */
  lemma DeliverAll(cs: seq<ConsumerRef>, p: ConsumerPacket, failing: set<nat>)
    requires forall i :: 0 <= i < |cs| ==> i !in failing
    ensures Deliver(cs, p, failing).Delivered?
    ensures |Deliver(cs, p, failing).calls| == |cs|
    ensures forall i :: 0 <= i < |cs| ==> Deliver(cs, p, failing).calls[i] == Invocation(cs[i], p)
  {
  }

  /** When the call at position k is the first that throws, the consumers
      before it and the one at k have been called, in order, and none after
      it. */
  lemma DeliverStops(cs: seq<ConsumerRef>, p: ConsumerPacket, failing: set<nat>, k: nat)
    requires k < |cs| && k in failing
    requires forall j :: 0 <= j < k ==> j !in failing
    ensures Deliver(cs, p, failing) == Aborted(Broadcast(cs[..k + 1], p))
  {
  }

  /** The effective routing key and header map of an outbound message. */
  datatype Resolved = Resolved(topic: Value, headers: Headers)

  /** `publish` with server name `name`: a truthy explicit topic is used with the
      caller's headers; otherwise the topic is the `report_topic` header, which
      is dropped. The `publisher` header is then set to the server name. */
  function ResolvePublish(name: string, headers: Headers, topic: Option<string>): (r: Resolved)
    ensures Publisher in r.headers && r.headers[Publisher] == Str(name)
    ensures TruthyArg(topic) ==> r.topic == Str(topic.value)
    ensures !TruthyArg(topic) ==> r.topic == Get(headers, ReportTopic) && ReportTopic !in r.headers
    ensures forall k :: k != Publisher && (TruthyArg(topic) || k != ReportTopic) ==>
              (k in r.headers <==> k in headers)
    ensures forall k :: k in r.headers && k != Publisher ==> r.headers[k] == headers[k]
  {
    if TruthyArg(topic) then
      Resolved(Str(topic.value), headers[Publisher := Str(name)])
    else
      Resolved(Get(headers, ReportTopic), (headers - {ReportTopic})[Publisher := Str(name)])
  }

  /** Publishing and then receiving keeps every free-form header the publisher
      supplied and the body: only reserved headers are lost in transit. */
  lemma PublishThenReceive(name: string, consumerTag: string, body: Value,
                           headers: Headers, topic: Option<string>, routingKey: string)
    ensures var out := ResolvePublish(name, headers, topic);
            var p := ToPacket(AmqpMessage(body, consumerTag, routingKey, out.headers));
            p.body == body && p.headers == headers - Reserved
  {
  }

  /** Receiving a message published with an explicit topic hands the receiver
      the publisher's `report_topic` as its reply destination; publishing on the
      `report_topic` itself leaves the receiver without one. */
  lemma ReplyDestinationInTransit(name: string, consumerTag: string, body: Value,
                                  headers: Headers, topic: Option<string>, routingKey: string)
    ensures var out := ResolvePublish(name, headers, topic);
            var p := ToPacket(AmqpMessage(body, consumerTag, routingKey, out.headers));
            p.query.topic == (if TruthyArg(topic) then IfTruthy(Get(headers, ReportTopic)) else Undefined)
  {
  }
}
