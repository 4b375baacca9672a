/** The pipeline composer: one callback built from an ordered list of
    packet-to-packet consumers, threading a packet through all of them. */
module Pipeline {
  import opened Values

  type Consumer = ConsumerPacket -> ConsumerPacket

  /** Reference meaning of a pipeline f1, ..., fn applied to p:
      fn(...f2(f1(p))), written from the outermost call inwards. */
  function Nested(consumers: seq<Consumer>, packet: ConsumerPacket): ConsumerPacket
    decreases |consumers|
  {
    if consumers == [] then packet
    else consumers[|consumers| - 1](Nested(consumers[..|consumers| - 1], packet))
  }

  /** Nested application seen from the innermost call: f1 first, then the rest. */
  lemma {:induction false} NestedFirst(consumers: seq<Consumer>, packet: ConsumerPacket)
    requires consumers != []
    ensures Nested(consumers, packet) == Nested(consumers[1..], consumers[0](packet))
    decreases |consumers|
  {
    var n := |consumers| - 1;
    if n == 0 {
      assert consumers[1..] == [];
      assert consumers[..0] == [];
    } else {
      var init := consumers[..n];
      NestedFirst(init, packet);
      assert init[1..] == consumers[1..][..n - 1];
      assert consumers[1..][n - 1] == consumers[n];
    }
  }

  /** One step of the fold: hand the accumulated packet to the next consumer.
      It is the pipeline of that single consumer. */
  function BrowseConsumer(packet: ConsumerPacket, consumer: Consumer): (r: ConsumerPacket)
    ensures r == Nested([consumer], packet)
  {
    assert [consumer][..0] == [];
    consumer(packet)
  }

  /** `consumers.reduce(BrowseConsumer, packet)`: a left fold with the packet as
      the initial accumulator. It applies each consumer exactly once, left to
      right. */
  function Reduce(consumers: seq<Consumer>, packet: ConsumerPacket): (r: ConsumerPacket)
    ensures r == Nested(consumers, packet)
    decreases |consumers|
  {
    if consumers == [] then packet
    else
      NestedFirst(consumers, packet);
      Reduce(consumers[1..], BrowseConsumer(packet, consumers[0]))
  }

  /** Running a pipeline over `a + b` runs `a`, then runs `b` on what `a` produced. */
  lemma {:induction false} ReduceConcat(a: seq<Consumer>, b: seq<Consumer>, packet: ConsumerPacket)
    ensures Reduce(a + b, packet) == Reduce(b, Reduce(a, packet))
    decreases |a|
  {
    if a == [] {
      assert a + b == b;
    } else {
      assert (a + b)[1..] == a[1..] + b;
      ReduceConcat(a[1..], b, BrowseConsumer(packet, a[0]));
    }
  }

  /** `pipeline(...consumers)`: the composed callback. Applied to a packet it
      yields fn(...f2(f1(p))); with no consumer it returns the packet unchanged. */
  function Pipeline(consumers: seq<Consumer>): (composed: Consumer)
    ensures forall p :: composed(p) == Nested(consumers, p)
    ensures consumers == [] ==> forall p :: composed(p) == p
  {
    p => Reduce(consumers, p)
  }

  /** Composition law: the pipeline of `a + b` is the pipeline of `b` after the
      pipeline of `a`. */
  lemma PipelineConcat(a: seq<Consumer>, b: seq<Consumer>, packet: ConsumerPacket)
    ensures Pipeline(a + b)(packet) == Pipeline(b)(Pipeline(a)(packet))
  {
    ReduceConcat(a, b, packet);
  }

  /** A one-consumer pipeline is that consumer. */
  lemma PipelineSingle(f: Consumer, packet: ConsumerPacket)
    ensures Pipeline([f])(packet) == f(packet)
  {
  }
}
