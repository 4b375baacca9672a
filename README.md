# AMQP topic router: a Dafny model

This project models the in-process routing core of a topic-based
publish/subscribe server built over an AMQP exchange (`amqp.ts`). It covers
five parts:

- **The pipeline composer** (`pipeline`, `browseConsumer`): a left fold of
  packet-to-packet consumers over an initial packet.
- **The registry**, in imperative form:
  - `Topic` is a class whose consumer list only grows by appending.
  - `AmqpQueue` is a class whose dictionary maps routing keys to `Topic`
    objects. It creates a topic on first use and appends to it afterwards.
  - `AmqpServer.AddQueue` keeps the label → queue dictionary.
- **Inbound dispatch**: the body of the `newMessage` handler, lifted into
  `AmqpServer.OnNewMessage`. It works in this order:
  1. It splits off the reserved headers `publisher`, `path` and `report_topic`.
  2. It resolves the queue by consumer tag, then the topic by routing key.
  3. It builds the `amqp` query and the consumer packet.
  4. It calls every consumer of the topic, in order.
- **Outbound publish resolution**: the effective topic and header map. This
  includes the in-place update of the caller's header object when an explicit
  topic is given.
- **The shapes** of `interfaces.ts`, as datatypes:
  - dynamic values;
  - header maps;
  - the query;
  - the consumer packet;
  - the message record;
  - the exchange.

JavaScript truthiness is modelled by `Values.Truthy`. In it, `undefined`,
`null`, `false`, `0` and `""` are falsy.

Consumer callbacks in the registry are opaque identifiers (`ConsumerRef`).
Calling one is recorded as an `Invocation` of that identifier with the packet.
Whether a call throws synchronously is not visible in the source. It is
therefore a parameter of the dispatch: the set `failing` of positions in the
topic's consumer list whose call throws on this message. It is decided per
call, not per callback, because `addConsumer` keeps duplicates: one stateful
callback registered twice may return on its first call and throw on its
second. The pipeline composer
works on real Dafny functions `ConsumerPacket -> ConsumerPacket`.

The broker channel is abstract. `Publish` returns the `Outgoing` record that
`channel.publish` would receive. `ChannelOpened` stands for the assignment of
the channel by the setup chain.

Behaviour of the code that the model keeps:

- `forEach` stops at the first consumer that throws synchronously; later
  consumers are not called. In the model, `Aborted` carries the calls made up
  to and including the one that threw.
- The query object always has `path` and `topic` keys. When the header is
  falsy, the value is `undefined`; the key is never absent. This is modelled as
  the value `Undefined`.
- A missing queue or topic is a `TypeError` in the code (a property read on
  `undefined`). It is modelled as the outcomes `UnknownQueue` and
  `UnknownTopic`, and no consumer is called in either case.
- Publishing with no explicit topic and no `report_topic` is not guarded. The
  routing key is then `undefined`, which is modelled as `Undefined`.
- An `undefined` body fails (`BodyNotSerializable`): `JSON.stringify` yields
  `undefined`, and `Buffer.from` throws on it. Publishing before the channel is
  assigned fails too (`ChannelNotOpen`). In both cases, with an
  explicit topic, the `publisher` header has already been written into the
  caller's object at that point. Without one, it was written into a copy, and
  the caller's object is untouched.
- `addQueue` silently replaces a queue already registered under the same label.
- A topic belongs to exactly one queue. `AmqpServer.Valid` states this: every
  registered queue is valid, and no two labels share a queue or a topic
  object. Each queue's `Repr` is the queue itself plus its topics.

## Model

| member | source | states |
|---|---|---|
| `Pipeline.Pipeline` | amqp.ts:30-34 | the composed callback maps every packet p to fn(…f2(f1(p))); with no consumer it returns p unchanged |
| `Pipeline.BrowseConsumer` | amqp.ts:20-23 | one fold step hands the accumulated packet to the next consumer: it is the pipeline of that single consumer |
| `Pipeline.Reduce` | amqp.ts:32 | the `reduce` fold with `browseConsumer` from the initial packet equals nested application fn(…f2(f1(p))): each consumer once, left to right |
| `Pipeline.NestedFirst` | amqp.ts:32 | nested application starts with the first consumer: the rest then run on f1(p), which is why the left fold computes it |
| `Pipeline.ReduceConcat` | amqp.ts:30-34 | folding over `a + b` folds over `b` starting from the result of `a` |
| `Pipeline.PipelineConcat` | amqp.ts:30-34 | composition law: pipeline(a + b)(p) == pipeline(b)(pipeline(a)(p)) |
| `Pipeline.PipelineSingle` | amqp.ts:20-23 | a one-consumer pipeline is that consumer |
| `Registry.Topic.constructor` | amqp.ts:49-51 | built from `undefined` the consumer list is empty, built from a list it is exactly that list |
| `Registry.Topic.AddConsumer` | amqp.ts:64-66 | the consumer is appended at the end; earlier consumers and their order are unchanged |
| `Registry.AmqpQueue.constructor` | amqp.ts:81-84 | a new queue keeps its label, has no topics and owns only fresh objects |
| `Registry.AmqpQueue.Topics` | amqp.ts:111-113 | lists exactly the bound routing keys, each once, in insertion order |
| `Registry.AmqpQueue.GetTopic` | amqp.ts:120-122 | returns the topic bound to the key, or nothing (undefined) for a key never added |
| `Registry.AmqpQueue.AddConsumer` | amqp.ts:131-138 | the key is bound afterwards (so `getTopic(key)` is defined); the abstract bindings become `Register(old, key, c)`; a known key keeps the dictionary and key order; a new key gets a fresh topic object, is appended to the key order, and is the only object added to the queue's footprint; every other key keeps the same topic object and its consumers; the same queue is returned |
| `Registry.Register` | amqp.ts:131-138 | the key set gains exactly `key`; a bound key has `c` appended; an unbound key gets `[c]`; every other key is unchanged |
| `Registry.RegisterAllKeys` | amqp.ts:131-138 | after any sequence of registrations, the keys are the earlier ones plus every key registered on (one topic per key) |
| `Registry.RegisterAllContents` | amqp.ts:131-138 | after any sequence of registrations, a key's consumers are its earlier consumers followed by those registered on it, in call order |
| `Registry.RegisterTwiceSameKey` | amqp.ts:131-138 | two registrations on the same key of an empty queue give one topic `[c1, c2]`, not two topics |
| `Translate.ToPacket` | amqp.ts:224-242 | packet headers are the message headers minus `publisher`, `path` and `report_topic`, with values kept; the query type is `amqp`; `query.path` is set iff `path` is truthy (then equal to it); `query.topic` is set iff `report_topic` is truthy (then equal to it); the body is unchanged |
| `Translate.IfTruthy` | amqp.ts:234-235 | the result is the value itself when it is truthy and `undefined` otherwise; it is set exactly when the value is truthy |
| `Translate.FirstFailing` | amqp.ts:244-246 | the position where `forEach` stops: no earlier call throws, and the call there does (or the end of the list) |
| `Translate.Deliver` | amqp.ts:244-246 | the calls made are a prefix of the topic's consumers, each with the same packet, in order; the run is `Delivered` exactly when no call throws; an `Aborted` run ends with the first call that throws, and none before it throws; throwing is decided per call position, so a callback registered twice may return once and then throw (detailed by `DeliverAll` and `DeliverStops`) |
| `Translate.DeliverAll` | amqp.ts:244-246 | when no call throws, every consumer is called exactly once with the same packet, in registration order |
| `Translate.DeliverStops` | amqp.ts:244-246 | when the call at position k is the first that throws, consumers 0..k are called in order with the packet and none after |
| `Translate.ResolvePublish` | amqp.ts:283-298 | `publisher` is always the server name; a truthy explicit topic is the topic and every other caller header is kept; otherwise the topic is `report_topic`, and it is removed while every other header is kept |
| `Translate.PublishThenReceive` | amqp.ts:283-298 | in the model, where the broker carries body and headers unchanged, a published message, once received, gives consumers the body and exactly the caller's headers minus the reserved ones |
| `Translate.ReplyDestinationInTransit` | amqp.ts:283-298 | a receiver's reply topic is the publisher's truthy `report_topic` when an explicit topic was used, and absent when the message was sent to `report_topic` |
| `Server.AmqpServer.constructor` | amqp.ts:159-168 | records name and exchange, starts with no queues and no channel; the registry invariant holds |
| `Server.AmqpServer.ChannelOpened` | amqp.ts:184-187 | the channel becomes available; the queues are unchanged |
| `Server.AmqpServer.AddQueue` | amqp.ts:268-272 | registers a fresh queue with that label and no topics under the label, replacing any earlier one; other labels are untouched; the registry invariant (no queue or topic shared between labels) is kept |
| `Server.AmqpServer.OnNewMessage` | amqp.ts:222-247 | unknown label → `UnknownQueue`, unknown routing key → `UnknownTopic`, with no consumer called; otherwise the topic's consumers are called in order with `ToPacket(msg)` until a call throws (`Deliver`, with throws decided per position) |
| `Server.AmqpServer.Publish` | amqp.ts:280-312 | with a truthy explicit topic, the caller's header object gets `publisher` set in place; otherwise it is untouched; an `undefined` body fails with `BodyNotSerializable` after that write; otherwise, with an open channel the outgoing record is the exchange name, the resolved topic and headers, the body and `application/json`, and with no channel it fails |
| `Scenarios.InboundOrderCreated` | amqp.ts:222-247 | a delivery on `orders.created` with headers `publisher: svc-b` and `report_topic: orders.ack` reaches the consumer with body `{id: 42}`, no headers and query `{type: amqp, topic: orders.ack}` |
| `Scenarios.QueuesStayIndependent` | amqp.ts:131-138 | adding a consumer to one registered queue leaves every other registered queue's bindings unchanged and keeps the registry invariant |
| `Scenarios.DuplicateConsumerThrowsLater` | amqp.ts:222-247 | consumer 7, registered twice (`addConsumer` keeps duplicates), on one routing key is called twice, and a throw on its second call aborts the handler after both calls |
| `Scenarios.UndefinedBodyRefused` | amqp.ts:286-300 | publishing an `undefined` body with an explicit topic on an open channel fails, and the caller's header object already holds `publisher` |
| `Scenarios.OutboundReport` | amqp.ts:280-312 | publishing `{msg: "hi"}` with only `report_topic: events.out` goes to `events.out` with headers `{publisher: svc-a}` |

## Left out

- The setup chain of `run()` (amqp.ts:174-221, 248-260) is not modelled. This
  covers connect, channel creation, exchange and queue assertion, binding,
  consume and the wrapping of failures in `ServerException`. It is asynchronous
  I/O over the broker client library. Only the channel assignment is kept, as
  `ChannelOpened`.
- The process-wide event emitter is replaced by a direct call to
  `OnNewMessage` on one server. The model therefore does not show two things:
  - calling `run()` twice registers the handler twice;
  - with several servers in one process, the emitter (amqp.ts:333) calls
    their listeners in registration order, and a listener that throws stops
    the emit. A server with no queue under the message's consumer tag throws
    a `TypeError` (amqp.ts:229-230), so servers whose listeners come after it
    never see the message.
- `consumeMessage` (amqp.ts:319-335) is not modelled. It parses the body as
  JSON and reads the library's message shape. The model starts from the
  resulting message record.
- The body serialisation `Buffer.from(JSON.stringify(body))` (amqp.ts:300)
  and its inverse `JSON.parse` (amqp.ts:323) are not modelled. The body is
  passed through as a value. Only its one failure is kept: a top-level
  `undefined` body is refused. In the program the round trip is lossy: object
  fields whose value is `undefined` are dropped, and `undefined` array entries
  become `null`. `Translate.PublishThenReceive` holds for the model's
  lossless transport only.
- The `amqpId` getter and setter are not modelled: they store a broker reply
  and have no logic.
- Logging is not modelled.
- `Server.AmqpServer.constructor`: the connection URL `amqp://host:port` is not
  modelled, and neither are the host and port it is built from. Only the
  left-out `connect` call uses it. The way JavaScript renders a number into it
  (for example `5672.5` or `1e+21`) is therefore not captured.
- `Translate.DeliverAll`, `Server.AmqpServer.OnNewMessage`: every consumer
  receives the same packet object. A consumer that mutates it, for example its
  `headers`, changes what later consumers see. The model records the
  unmodified packet for every call, so "the same packet" holds only for
  consumers that do not mutate it.
- `Pipeline.Pipeline`: consumers are total functions. A consumer that throws
  aborts the `reduce`, and the exception reaches the caller of the composed
  callback. That case is not modelled.
- `exceptions.ts` is not modelled. Its exception class is a thin wrapper over
  an error base class that is not part of this model.
- Dictionaries are modelled as plain maps. JavaScript objects differ for keys
  that are names of `Object.prototype` members, such as `__proto__`,
  `hasOwnProperty` and `toString`. For example, reading `_queues["toString"]`
  yields a function rather than `undefined`.
- `Registry.AmqpQueue.Topics`: the order of `Object.keys` is modelled as
  insertion order. JavaScript lists array-index-like keys (such as `"1"`)
  first, in ascending numeric order.
- Consumer lists are values (`seq`), not shared arrays, so aliasing is not
  captured:
  - `new Topic(list)` keeps the caller's array by reference;
  - the `consumers` getter hands out the live array;
  - with an explicit topic, the outgoing header map of `publish` is the
    caller's object itself (without one it is a fresh copy).
- Numbers in dynamic values are integers. `NaN` and other non-integer numbers
  are not modelled.
- Consumer callbacks that return promises are not modelled: their rejections
  do not stop `forEach`. Consumers that change the registry while being called
  are not modelled either.
