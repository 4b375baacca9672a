/** The router: a named server owning a registry of queues, which hands every
    inbound message to the consumers of its topic and resolves outbound
    messages before they reach the broker channel. */
module Server {
  import opened Values
  import opened Registry
  import opened Translate

  /** A caller-owned header object, which `publish` may update in place. */
  class HeaderObject {
    var fields: Headers

    constructor (fields: Headers)
      ensures this.fields == fields
    {
      this.fields := fields;
    }
  }

  /** What is handed to the broker channel's publish call. */
  datatype Outgoing = Outgoing(exchange: string, routingKey: Value, body: Value,
                               headers: Headers, contentType: string)

  /** Why a publish fails: an `undefined` body has no JSON text, so the buffer
      built from it is refused; publishing before the channel exists fails too.
      Both happen after the `publisher` header is written. */
  datatype PublishError = BodyNotSerializable | ChannelNotOpen

  const JsonContentType := "application/json"

  class AmqpServer {
    const name: string
    const exchange: Exchange
    /** Queues by label. */
    var queues: map<string, AmqpQueue>
    /** Whether the broker channel has been assigned. */
    var channelOpen: bool

    /** Every registered queue is valid and carries its label, and no two
        labels share a queue or a topic: each topic belongs to one queue. */
    ghost predicate Valid()
      reads this, queues.Values
    {
      && (forall l :: l in queues ==> queues[l].Valid() && queues[l].queueLabel == l)
      && (forall l :: l in queues ==> this !in queues[l].Repr)
      && (forall l1, l2 :: l1 in queues && l2 in queues && l1 != l2 ==> queues[l1].Repr !! queues[l2].Repr)
    }

    constructor (name: string, exchange: Exchange)
      ensures this.name == name && this.exchange == exchange
      ensures Valid() && queues == map[] && !channelOpen
    {
      this.name := name;
      this.exchange := exchange;
      queues := map[];
      channelOpen := false;
    }

    /** The channel produced by the setup chain is recorded on the server. */
    method ChannelOpened()
      modifies this
      ensures channelOpen && queues == old(queues)
    {
      channelOpen := true;
    }

    /** Registers a fresh, empty queue under `queueName`, replacing any queue that
        name had; other labels keep their queues. */
    method AddQueue(queueName: string) returns (q: AmqpQueue)
      requires Valid()
      modifies this
      ensures Valid()
      ensures fresh(q.Repr) && q.queueLabel == queueName
      ensures q.Valid() && q.keys == [] && q.Bindings() == map[]
      ensures queues == old(queues)[queueName := q]
      ensures queueName in queues && queues[queueName] == q
      ensures forall other :: other != queueName ==> (other in queues <==> other in old(queues))
      ensures forall other :: other in queues && other != queueName ==> queues[other] == old(queues)[other]
      ensures channelOpen == old(channelOpen)
    {
      q := new AmqpQueue(queueName);
      queues := queues[queueName := q];
    }

    /** The handler of an inbound message: resolve the queue by consumer tag and
        the topic by routing key, build the packet, then call every consumer of
        the topic with it, in order, until one throws (`failing` are the
        positions in the topic's list whose call throws on this packet). A
        missing queue or topic fails before any consumer is called. */
    method OnNewMessage(msg: AmqpMessage, failing: set<nat>) returns (r: DispatchOutcome)
      ensures msg.consumer !in queues ==> r == UnknownQueue
      ensures msg.consumer in queues && msg.topic !in queues[msg.consumer].topics ==> r == UnknownTopic
      ensures msg.consumer in queues && msg.topic in queues[msg.consumer].topics ==>
                r == Deliver(queues[msg.consumer].topics[msg.topic].consumers, ToPacket(msg), failing)
    {
      if msg.consumer !in queues {
        return UnknownQueue;
      }
      var queue := queues[msg.consumer];
      var topic := queue.GetTopic(msg.topic);
      if topic == null {
        return UnknownTopic;
      }
      var packet := ToPacket(msg);
      var cs := topic.consumers;
      var calls: seq<Invocation> := [];
      var i := 0;
      while i < |cs|
        invariant 0 <= i <= |cs|
        invariant calls == Broadcast(cs[..i], packet)
        invariant forall j :: 0 <= j < i ==> j !in failing
      {
        calls := calls + [Invocation(cs[i], packet)];
        if i in failing {
          DeliverStops(cs, packet, failing, i);
          assert calls == Broadcast(cs[..i + 1], packet);
          return Aborted(calls);
        }
        i := i + 1;
      }
      DeliverAll(cs, packet, failing);
      assert cs[..i] == cs;
      return Delivered(calls);
    }

    /** Publishes `body`: resolves the topic and headers, sets the `publisher`
        header to this server's name (in the caller's own header object when an
        explicit topic is given), serialises the body and hands the result to
        the channel. */
    method Publish(body: Value, headers: HeaderObject, topic: Option<string>)
      returns (r: Result<Outgoing, PublishError>)
      modifies headers
      ensures TruthyArg(topic) ==> headers.fields == old(headers.fields)[Publisher := Str(name)]
      ensures !TruthyArg(topic) ==> headers.fields == old(headers.fields)
      ensures var res := ResolvePublish(name, old(headers.fields), topic);
              r == if body == Undefined then Failure(BodyNotSerializable)
                   else if channelOpen then Success(Outgoing(exchange.name, res.topic, body, res.headers, JsonContentType))
                   else Failure(ChannelNotOpen)
    {
      var outTopic: Value;
      var outHeaders: Headers;
      if TruthyArg(topic) {
        outTopic := Str(topic.value);
        headers.fields := headers.fields[Publisher := Str(name)];
        outHeaders := headers.fields;
      } else {
        outTopic := Get(headers.fields, ReportTopic);
        outHeaders := (headers.fields - {ReportTopic})[Publisher := Str(name)];
      }
      if body == Undefined {
        return Failure(BodyNotSerializable);
      }
      if !channelOpen {
        return Failure(ChannelNotOpen);
      }
      r := Success(Outgoing(exchange.name, outTopic, body, outHeaders, JsonContentType));
    }
  }
}
