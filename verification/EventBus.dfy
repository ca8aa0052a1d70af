/** The access-event bus: publishing runs every subscriber's callback, in subscription order, under the
    bus mutex, so callbacks never overlap. */
module EventBus {

  /** One callback run: which subscriber, with which event. */
  datatype Call<+E> = Call(subscriber: nat, event: E)

  function Delivery<E>(subscribers: nat, ev: E): seq<Call<E>> {
    if subscribers == 0 then [] else Delivery(subscribers - 1, ev) + [Call(subscribers - 1, ev)]
  }

  /** Each subscriber once, in subscription order. */
  lemma {:induction false} DeliveredInOrder<E>(n: nat, ev: E)
    ensures |Delivery(n, ev)| == n && forall i :: 0 <= i < n ==> Delivery(n, ev)[i] == Call(i, ev)
  {
    if n > 0 {
      DeliveredInOrder(n - 1, ev);
    }
  }

  class EventBus<E> {
    var callbacks: nat
    /** The callbacks run so far. */
    var calls: seq<Call<E>>
    /** What has been done with the bus. */
    ghost var ops: seq<Op<E>>

    /** The bus is what its subscriptions and publications make it. */
    ghost predicate Valid()
      reads this
    {
      Bus(callbacks, calls) == After(ops)
    }

    constructor ()
      ensures Valid() && ops == [] && callbacks == 0 && calls == []
    {
      callbacks, calls, ops := 0, [], [];
    }

    method Subscribe() returns (index: nat)
      requires Valid()
      modifies this`callbacks, this`ops
      ensures Valid() && ops == old(ops) + [Op.Subscribe]
      ensures index == old(callbacks) && callbacks == index + 1
    {
      index := callbacks;
      callbacks := callbacks + 1;
      ops := ops + [Op.Subscribe];
    }

    /** Runs every callback once; so each subscriber has now heard everything published since it subscribed,
        once and in order. */
    method Publish(ev: E)
      requires Valid()
      modifies this`calls, this`ops
      ensures Valid() && ops == old(ops) + [Op.Publish(ev)]
      ensures old(calls) <= calls && |calls| == |old(calls)| + callbacks
      ensures forall i :: 0 <= i < callbacks ==> calls[|old(calls)| + i] == Call(i, ev)
      ensures forall i: nat :: Heard(calls, i) == PublishedTo(ops, i)
    {
      for i := 0 to callbacks
        invariant calls == old(calls) + Delivery(i, ev)
        invariant ops == old(ops)
      {
        calls := calls + [Call(i, ev)];
      }
      DeliveredInOrder(callbacks, ev);
      ops := ops + [Op.Publish(ev)];
      assert ops[..|ops| - 1] == old(ops);
      forall i: nat ensures Heard(calls, i) == PublishedTo(ops, i) {
        HearsEveryEventOnce(ops, i);
      }
    }
  }

  datatype Op<+E> = Subscribe | Publish(ev: E)

  datatype Bus<+E> = Bus(callbacks: nat, calls: seq<Call<E>>)

  function After<E>(ops: seq<Op<E>>): Bus<E> {
    if ops == [] then Bus(0, [])
    else
      var b := After(ops[..|ops| - 1]);
      match ops[|ops| - 1]
      case Subscribe => b.(callbacks := b.callbacks + 1)
      case Publish(ev) => b.(calls := b.calls + Delivery(b.callbacks, ev))
  }

  /** What one subscriber was called with, in order. */
  function Heard<E>(calls: seq<Call<E>>, i: nat): seq<E> {
    if calls == [] then []
    else
      Heard(calls[..|calls| - 1], i)
      + (if calls[|calls| - 1].subscriber == i then [calls[|calls| - 1].event] else [])
  }

  /** The events published while there were more than i subscribers. */
  function PublishedTo<E>(ops: seq<Op<E>>, i: nat): seq<E> {
    if ops == [] then []
    else
      PublishedTo(ops[..|ops| - 1], i)
      + (if ops[|ops| - 1].Publish? && i < After(ops[..|ops| - 1]).callbacks then [ops[|ops| - 1].ev] else [])
  }

  lemma {:induction false} HeardDelivery<E>(calls: seq<Call<E>>, n: nat, ev: E, i: nat)
    ensures Heard(calls + Delivery(n, ev), i) == Heard(calls, i) + if i < n then [ev] else []
  {
    if n == 0 {
      assert calls + Delivery(n, ev) == calls;
    } else {
      HeardDelivery(calls, n - 1, ev, i);
      var all := calls + Delivery(n, ev);
      assert all[..|all| - 1] == calls + Delivery(n - 1, ev);
    }
  }

  /** Each subscriber hears every event published since it subscribed, exactly once and in order. */
  lemma {:induction false} HearsEveryEventOnce<E>(ops: seq<Op<E>>, i: nat)
    ensures Heard(After(ops).calls, i) == PublishedTo(ops, i)
  {
    if ops != [] {
      var p := ops[..|ops| - 1];
      HearsEveryEventOnce(p, i);
      match ops[|ops| - 1]
      case Subscribe =>
      case Publish(ev) => HeardDelivery(After(p).calls, After(p).callbacks, ev, i);
    }
  }
}
