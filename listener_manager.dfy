/** ListenerManager (src/renderer/lib/utils/ListenerManager.ts): an array of
    listeners. Subscribing pushes, even a listener already there; the
    function `subscribe` returns filters every entry of that listener out. */
module ListenerManagers {
  import opened Observers

  class ListenerManager<L(==), E> {
    var listeners: seq<L>

    constructor()
      ensures listeners == []
    {
      listeners := [];
    }

    /** subscribe: the listener goes at the end. */
    method Subscribe(listener: L)
      modifies this
      ensures listeners == old(listeners) + [listener]
    {
      listeners := listeners + [listener];
    }

    /** The function subscribe returns: every entry of the listener goes. */
    method Unsubscribe(listener: L)
      modifies this
      ensures listeners == Without(old(listeners), listener)
      ensures listener !in listeners
      ensures multiset(listeners) == multiset(old(listeners))[listener := 0]
    {
      WithoutCounts(listeners, listener);
      listeners := Without(listeners, listener);
    }

    /** notifyListeners: every entry is called with the event, in
        registration order. */
    method NotifyListeners(event: E) returns (calls: seq<Call<L, E>>)
      ensures |calls| == |listeners|
      ensures forall i :: 0 <= i < |listeners| ==> calls[i] == Call(listeners[i], event)
    {
      calls := Deliver(listeners, event);
    }
  }

  /** A listener subscribed twice is called twice per notification, after
      every listener subscribed before it. */
  lemma SubscribedTwice<L, E>(ls: seq<L>, l: L, e: E)
    ensures Calls(ls + [l] + [l], e) == Calls(ls, e) + [Call(l, e), Call(l, e)]
  {
    CallsAppend(ls + [l], [l], e);
    CallsAppend(ls, [l], e);
    assert Calls([l], e) == [Call(l, e)] by {
      assert [l][1..] == [];
    }
  }
}
