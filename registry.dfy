/** The queue and topic registry: a topic is an append-only list of consumers,
    a queue maps routing keys to topics and creates a topic on first use. */
module Registry {
  import opened Values

  /** An application callback, identified opaquely. */
  type ConsumerRef = nat

  /** The abstract content of a queue: routing key to its consumers, in
      registration order. */
  type Bindings = map<string, seq<ConsumerRef>>

  /** The consumers bound to `key`, none when the key is unbound. */
  function ConsumersAt(b: Bindings, key: string): seq<ConsumerRef>
  {
    if key in b then b[key] else []
  }

  /** Registering consumer `c` on routing key `key`: append to the existing
      topic, or create a topic holding only `c`. */
  function Register(b: Bindings, key: string, c: ConsumerRef): (r: Bindings)
    ensures r.Keys == b.Keys + {key}
    ensures key in b ==> r[key] == b[key] + [c]
    ensures key !in b ==> r[key] == [c]
    ensures forall other :: other in b && other != key ==> r[other] == b[other]
  {
    if key in b then b[key := b[key] + [c]] else b[key := [c]]
  }

  datatype Registration = Registration(key: string, consumer: ConsumerRef)

  /** A sequence of `addConsumer` calls, in call order. */
  function RegisterAll(b: Bindings, regs: seq<Registration>): Bindings
    decreases |regs|
  {
    if regs == [] then b else RegisterAll(Register(b, regs[0].key, regs[0].consumer), regs[1..])
  }

  /** The consumers that `regs` registers on `key`, in call order. */
  function RegisteredOn(regs: seq<Registration>, key: string): seq<ConsumerRef>
    decreases |regs|
  {
    if regs == [] then []
    else (if regs[0].key == key then [regs[0].consumer] else []) + RegisteredOn(regs[1..], key)
  }

  /** The routing keys that `regs` mentions. */
  function KeysOf(regs: seq<Registration>): set<string>
    decreases |regs|
  {
    if regs == [] then {} else {regs[0].key} + KeysOf(regs[1..])
  }

  /** After any sequence of registrations, the bound routing keys are the
      earlier ones plus every key registered on: one topic per key. */
  lemma {:induction false} RegisterAllKeys(b: Bindings, regs: seq<Registration>)
    ensures RegisterAll(b, regs).Keys == b.Keys + KeysOf(regs)
    decreases |regs|
  {
    if regs != [] {
      RegisterAllKeys(Register(b, regs[0].key, regs[0].consumer), regs[1..]);
    }
  }

  /** After any sequence of registrations, the consumers of a routing key are
      its earlier ones followed by those newly registered on it, in call order. */
  lemma {:induction false} RegisterAllContents(b: Bindings, regs: seq<Registration>, key: string)
    ensures ConsumersAt(RegisterAll(b, regs), key) == ConsumersAt(b, key) + RegisteredOn(regs, key)
    decreases |regs|
  {
    if regs == [] {
      assert ConsumersAt(b, key) + [] == ConsumersAt(b, key);
    } else {
      var r := regs[0];
      var b' := Register(b, r.key, r.consumer);
      var rest := RegisteredOn(regs[1..], key);
      RegisterAllContents(b', regs[1..], key);
      if r.key == key {
        assert ConsumersAt(b', key) == ConsumersAt(b, key) + [r.consumer];
        assert RegisteredOn(regs, key) == [r.consumer] + rest;
      } else {
        assert ConsumersAt(b', key) == ConsumersAt(b, key);
        assert RegisteredOn(regs, key) == rest;
      }
    }
  }

  /** Registering `c1` and then `c2` on the same key of a fresh queue yields one
      topic holding both, in call order. */
  lemma RegisterTwiceSameKey(key: string, c1: ConsumerRef, c2: ConsumerRef)
    ensures Register(Register(map[], key, c1), key, c2) == map[key := [c1, c2]]
  {
    assert [c1] + [c2] == [c1, c2];
  }

  /** Binding a new key adds exactly its value to a map's values. */
  lemma InsertValues<K, V>(m: map<K, V>, k: K, v: V)
    requires k !in m
    ensures m[k := v].Values == m.Values + {v}
  {
    var m' := m[k := v];
    forall x | x in m'.Values ensures x in m.Values + {v} {
      var j :| j in m' && m'[j] == x;
      if j != k { assert m[j] == x; }
    }
    forall x | x in m.Values ensures x in m'.Values {
      var j :| j in m && m[j] == x;
      assert m'[j] == x;
    }
    assert m'[k] == v;
  }

  /** A topic: the ordered list of consumers bound to one routing key. */
  class Topic {
    var consumers: seq<ConsumerRef>

    /** Built from a list of consumers, or from `undefined` (an empty list). */
    constructor (initial: Option<seq<ConsumerRef>>)
      ensures initial.None? ==> consumers == []
      ensures initial.Some? ==> consumers == initial.value
    {
      consumers := if initial.Some? then initial.value else [];
    }

    /** Appends a consumer at the end; earlier consumers keep their order. */
    method AddConsumer(c: ConsumerRef)
      modifies this
      ensures consumers == old(consumers) + [c]
    {
      consumers := consumers + [c];
    }
  }

  /** A queue: a label (`queueLabel`, also its broker consumer tag) and a dictionary of topics keyed by routing key. */
  class AmqpQueue {
    const queueLabel: string
    var topics: map<string, Topic>
    /** The order in which the dictionary enumerates its keys (insertion order). */
    var keys: seq<string>
    /** The objects this queue owns: itself and its topics. */
    ghost var Repr: set<object>

    /** The queue owns exactly itself and its topics, distinct routing keys hold
        distinct topic objects, and `keys` lists each bound routing key exactly
        once. */
    ghost predicate Valid()
      reads this
      ensures Valid() ==> this in Repr
    {
      && Repr == {this} + topics.Values
      && (forall k1, k2 :: k1 in topics && k2 in topics && k1 != k2 ==> topics[k1] != topics[k2])
      && (forall k :: k in topics <==> k in keys)
      && (forall i, j :: 0 <= i < j < |keys| ==> keys[i] != keys[j])
    }

    /** The abstract content of the queue. */
    ghost function Bindings(): Bindings
      reads this, topics.Values
    {
      map k | k in topics :: topics[k].consumers
    }

    constructor (name: string)
      ensures queueLabel == name
      ensures Valid() && fresh(Repr)
      ensures topics == map[] && keys == [] && Bindings() == map[]
    {
      queueLabel := name;
      topics := map[];
      keys := [];
      Repr := {this};
    }

    /** The routing keys bound on this queue, each once, in insertion order. */
    method Topics() returns (ks: seq<string>)
      requires Valid()
      ensures ks == keys
      ensures forall k :: k in ks <==> k in topics
      ensures forall i, j :: 0 <= i < j < |ks| ==> ks[i] != ks[j]
    {
      ks := keys;
    }

    /** The topic bound to `routingKey`, or `null` (undefined) when none is. */
    method GetTopic(routingKey: string) returns (t: Topic?)
      ensures routingKey in topics ==> t == topics[routingKey]
      ensures routingKey !in topics ==> t == null
    {
      if routingKey in topics {
        t := topics[routingKey];
      } else {
        t := null;
      }
    }

    /** Appends `c` to the topic of `key`, creating that topic on first use;
        returns this queue for chaining. */
    method AddConsumer(key: string, c: ConsumerRef) returns (q: AmqpQueue)
      requires Valid()
      modifies this, if key in topics then {topics[key]} else {}
      ensures q == this && Valid() && key in topics
      ensures Bindings() == Register(old(Bindings()), key, c)
      ensures key in old(topics) ==> topics == old(topics) && keys == old(keys)
      ensures key !in old(topics) ==> keys == old(keys) + [key] && fresh(topics[key])
      ensures key !in old(topics) ==> topics == old(topics)[key := topics[key]]
      ensures key in old(topics) ==> Repr == old(Repr)
      ensures key !in old(topics) ==> Repr == old(Repr) + {topics[key]}
    {
      ghost var before := Bindings();
      if key in topics {
        var t := topics[key];
        t.AddConsumer(c);
        assert Bindings() == before[key := before[key] + [c]] by {
          forall k | k in topics && k != key ensures topics[k].consumers == before[k] {
            assert topics[k] != t;
          }
        }
      } else {
        var t := new Topic(Some([c]));
        InsertValues(topics, key, t);
        topics := topics[key := t];
        keys := keys + [key];
        Repr := Repr + {t};
        assert Bindings() == before[key := [c]];
      }
      q := this;
    }
  }
}
