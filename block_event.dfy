/** BlockEventEmitter (src/renderer/lib/block/event.ts): a process-wide
    emitter of block store events with a set of listeners. The static
    `instance` property is the field of an `EmitterSlot`. */
module BlockEvents {
  import opened Observers
  import opened Text
  import opened BlockTypes

  class BlockEventEmitter<L(==)> {
    var listeners: seq<L>

    /** Each listener is stored once. */
    ghost predicate Valid()
      reads this
    {
      Distinct(listeners)
    }

    constructor()
      ensures listeners == [] && Valid()
    {
      listeners := [];
    }

    /** emit: every current listener gets the event once, in subscription
        order. */
    method Emit(event: BlockStoreEvent) returns (calls: seq<Call<L, BlockStoreEvent>>)
      ensures |calls| == |listeners|
      ensures forall i :: 0 <= i < |listeners| ==> calls[i] == Call(listeners[i], event)
    {
      calls := Deliver(listeners, event);
    }

    /** subscribe: adds the callback, which a set holds once. */
    method Subscribe(callback: L)
      requires Valid()
      modifies this
      ensures Valid() && listeners == Added(old(listeners), callback)
      ensures callback in listeners && forall l :: l in listeners <==> l in old(listeners) || l == callback
    {
      AddedShape(listeners, callback);
      listeners := Added(listeners, callback);
    }

    /** The function subscribe returns: deletes the callback, keeping the
        others in order. */
    method Unsubscribe(callback: L)
      requires Valid()
      modifies this
      ensures Valid() && listeners == Without(old(listeners), callback)
      ensures callback !in listeners
      ensures forall l :: l != callback ==> (l in listeners <==> l in old(listeners))
    {
      WithoutDistinct(listeners, callback);
      WithoutCounts(listeners, callback);
      listeners := Without(listeners, callback);
      forall l | l != callback
        ensures l in listeners <==> l in old(listeners)
      {
        assert multiset(listeners)[l] == multiset(old(listeners))[l];
        assert l in listeners <==> l in multiset(listeners);
        assert l in old(listeners) <==> l in multiset(old(listeners));
      }
    }
  }

  /** The static `instance` of BlockEventEmitter. */
  class EmitterSlot<L(==)> {
    var instance: BlockEventEmitter?<L>

    constructor()
      ensures instance == null
    {
      instance := null;
    }

    /** getInstance: creates the emitter on the first call and returns the
        same one on every call. */
    method GetInstance() returns (e: BlockEventEmitter<L>)
      modifies this
      ensures instance == e
      ensures old(instance) != null ==> e == old(instance)
      ensures old(instance) == null ==> fresh(e) && e.listeners == []
    {
      if instance == null {
        instance := new BlockEventEmitter();
      }
      e := instance;
    }
  }
}
