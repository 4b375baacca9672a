/** Two end-to-end runs of the router, written as clients of its methods. */
module Scenarios {
  import opened Values
  import opened Registry
  import opened Translate
  import opened Server

  /** Server "svc-a" with queue "q1" and consumer 7 on "orders.created"
      receives a delivery published by "svc-b" with a reply destination: the
      consumer gets the body, no free-form headers, and the reply topic. */
  method InboundOrderCreated() returns (r: DispatchOutcome)
    ensures r == Delivered([Invocation(7, ConsumerPacket(Obj(map["id" := Num(42)]), map[],
                                                          Query(Amqp, Undefined, Str("orders.ack"))))])
  {
    var server := new AmqpServer("svc-a", Exchange("ex1", "topic"));
    var q := server.AddQueue("q1");
    q := q.AddConsumer("orders.created", 7);
    assert q.topics["orders.created"].consumers == [7] by {
      assert q.Bindings()["orders.created"] == [7];
    }
    var headers := map[Publisher := Str("svc-b"), ReportTopic := Str("orders.ack")];
    var msg := AmqpMessage(Obj(map["id" := Num(42)]), "q1", "orders.created", headers);
    r := server.OnNewMessage(msg, {});
    assert ToPacket(msg).headers == map[];
    DeliverAll([7], ToPacket(msg), {});
  }

  /** Server "svc-a" publishing `{msg: "hi"}` with only a `report_topic` header
      sends on that topic with the publisher header alone. */
  method OutboundReport() returns (r: Result<Outgoing, PublishError>)
    ensures r == Success(Outgoing("ex1", Str("events.out"), Obj(map["msg" := Str("hi")]),
                                  map[Publisher := Str("svc-a")], JsonContentType))
  {
    var server := new AmqpServer("svc-a", Exchange("ex1", "topic"));
    server.ChannelOpened();
    var headers := new HeaderObject(map[ReportTopic := Str("events.out")]);
    r := server.Publish(Obj(map["msg" := Str("hi")]), headers, None);
    assert (map[ReportTopic := Str("events.out")] - {ReportTopic}) == map[];
  }

  /** Consumer 7 registered twice on "jobs" sits at two positions of the
      topic. When its call at position 1 throws (a callback that keeps state
      and fails on its second call), it has been called twice and the error
      leaves the handler. */
  method DuplicateConsumerThrowsLater() returns (r: DispatchOutcome)
    ensures r == Aborted([Invocation(7, ConsumerPacket(Null, map[], Query(Amqp, Undefined, Undefined))),
                          Invocation(7, ConsumerPacket(Null, map[], Query(Amqp, Undefined, Undefined)))])
  {
    var server := new AmqpServer("svc-a", Exchange("ex1", "topic"));
    var q := server.AddQueue("q1");
    q := q.AddConsumer("jobs", 7);
    q := q.AddConsumer("jobs", 7);
    assert q.topics["jobs"].consumers == [7, 7] by {
      assert q.Bindings()["jobs"] == [7, 7];
    }
    var msg := AmqpMessage(Null, "q1", "jobs", map[]);
    r := server.OnNewMessage(msg, {1});
    DeliverStops([7, 7], ToPacket(msg), {1}, 1);
    assert [7, 7][..2] == [7, 7];
  }

  /** Publishing an `undefined` body on an open channel with an explicit topic
      fails after the caller's header object has received `publisher`. */
  method UndefinedBodyRefused() returns (r: Result<Outgoing, PublishError>, fields: Headers)
    ensures r == Failure(BodyNotSerializable)
    ensures fields == map[Publisher := Str("svc-a")]
  {
    var server := new AmqpServer("svc-a", Exchange("ex1", "topic"));
    server.ChannelOpened();
    var headers := new HeaderObject(map[]);
    r := server.Publish(Undefined, headers, Some("events.out"));
    fields := headers.fields;
  }

  /** Adding a consumer to one registered queue leaves every other registered
      queue's topics as they were, and the server's invariant holds again. */
  method QueuesStayIndependent(server: AmqpServer, label1: string, label2: string,
                               key: string, c: ConsumerRef)
    requires server.Valid()
    requires label1 in server.queues && label2 in server.queues && label1 != label2
    modifies server.queues[label2].Repr
    ensures server.Valid() && server.queues == old(server.queues)
    ensures server.queues[label1].Bindings() == old(server.queues[label1].Bindings())
    ensures server.queues[label2].Bindings() == Register(old(server.queues[label2].Bindings()), key, c)
  {
    var q := server.queues[label2];
    ghost var queues := server.queues;
    ghost var other := queues[label1];
    assert other.Repr !! q.Repr;
    var same := q.AddConsumer(key, c);
    assert server.queues == queues;
    forall l | l in queues && l != label2
      ensures queues[l].Valid() && queues[l].Repr !! q.Repr
    {
      assert old(queues[l].Repr) !! old(q.Repr);
      assert unchanged(queues[l]);
    }
    forall l1, l2 | l1 in queues && l2 in queues && l1 != l2
      ensures queues[l1].Repr !! queues[l2].Repr
    {
      if l1 != label2 && l2 != label2 {
        assert old(queues[l1].Repr) !! old(queues[l2].Repr);
      }
    }
    assert unchanged(other.Repr);
    assert other.Bindings() == old(other.Bindings());
  }
}
