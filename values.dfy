/** Shapes of the values the router exchanges with the broker and with business
    callbacks: header maps, message bodies, the query descriptor, the consumer
    packet and the inbound message record. */
module Values {

  datatype Option<+T> = None | Some(value: T)

  datatype Result<+T, +E> = Success(value: T) | Failure(error: E)

  /** A dynamically typed payload value, as a header or body field can hold one.
      Numbers are integers here. */
  datatype Value =
    | Undefined
    | Null
    | Bool(b: bool)
    | Num(n: int)
    | Str(s: string)
    | Arr(items: seq<Value>)
    | Obj(fields: map<string, Value>)

  /** JavaScript truthiness: `undefined`, `null`, `false`, `0` and `""` are falsy,
      every array and every object is truthy. */
  predicate Truthy(v: Value)
  {
    match v
    case Undefined => false
    case Null => false
    case Bool(b) => b
    case Num(n) => n != 0
    case Str(s) => s != ""
    case Arr(_) => true
    case Obj(_) => true
  }

  /** A header or body map: string keys to dynamic values. */
  type Headers = map<string, Value>

  /** Property access `h.key`: a missing key reads as `undefined`. */
  function Get(h: Headers, key: string): Value
  {
    if key in h then h[key] else Undefined
  }

  /** An optional string argument (`topic?: string`) is truthy when it is
      present and non-empty. */
  predicate TruthyArg(s: Option<string>)
  {
    s.Some? && s.value != ""
  }

  /** The transport tag of a query: `'amqp' | 'http'`. */
  datatype Transport = Amqp | Http

  /** The query descriptor of a consumer packet. A field left `undefined` holds
      `Undefined`. */
  datatype Query = Query(kind: Transport, path: Value, topic: Value)

  /** The unit handed to business callbacks. */
  datatype ConsumerPacket = ConsumerPacket(body: Value, headers: Headers, query: Query)

  /** The inbound message record built from a broker delivery: the consumer tag
      (the queue label), the routing key, the parsed body and the raw headers. */
  datatype AmqpMessage = AmqpMessage(body: Value, consumer: string, topic: string, headers: Headers)

  /** The exchange descriptor a server is built with. */
  datatype Exchange = Exchange(name: string, kind: string)
}
