/** EventManager (src/renderer/lib/managers/EventManager.ts): a map from
    event names to sets of handlers. A handler is an identity of type `H`;
    a name's set is a sequence without repeats in insertion order. */
module EventManagers {
  import opened Observers
  import opened Text

  class EventManager<H(==), D> {
    var handlers: map<string, seq<H>>

    /** Every name's handlers are stored once each. */
    ghost predicate Valid()
      reads this
    {
      forall name :: name in handlers ==> Distinct(handlers[name])
    }

    constructor()
      ensures handlers == map[] && Valid()
    {
      handlers := map[];
    }

    /** emit: calls the handlers registered under the name, in order; an
        unknown name calls none. */
    method Emit(event: string, data: D) returns (calls: seq<Call<H, D>>)
      ensures event !in handlers ==> calls == []
      ensures event in handlers ==>
        |calls| == |handlers[event]| && forall i :: 0 <= i < |calls| ==> calls[i] == Call(handlers[event][i], data)
    {
      if event in handlers {
        calls := Deliver(handlers[event], data);
      } else {
        calls := [];
      }
    }

    /** on: creates an empty set for an unseen name, then adds the handler. */
    method On(event: string, handler: H)
      requires Valid()
      modifies this
      ensures Valid()
      ensures handlers == old(handlers)[event := Added(if event in old(handlers) then old(handlers)[event] else [], handler)]
    {
      if event !in handlers {
        handlers := handlers[event := []];
      }
      AddedShape(handlers[event], handler);
      handlers := handlers[event := Added(handlers[event], handler)];
    }

    /** off: removes the handler under that name only; an unknown name is a
        no-op. */
    method Off(event: string, handler: H)
      requires Valid()
      modifies this
      ensures Valid()
      ensures event !in old(handlers) ==> handlers == old(handlers)
      ensures event in old(handlers) ==> handlers == old(handlers)[event := Without(old(handlers)[event], handler)]
    {
      if event in handlers {
        WithoutDistinct(handlers[event], handler);
        handlers := handlers[event := Without(handlers[event], handler)];
      }
    }
  }

  /** Registering a handler again under the same name stores it once. */
  lemma OnTwice<H>(hs: seq<H>, h: H)
    requires Distinct(hs)
    ensures Added(Added(hs, h), h) == Added(hs, h)
    ensures Distinct(Added(hs, h))
    ensures multiset(Added(hs, h))[h] == 1
  {
    AddedShape(hs, h);
    DistinctCount(Added(hs, h), h);
  }

  /** In a list without repeats, a member occurs once. */
  lemma {:induction false} DistinctCount<H>(hs: seq<H>, h: H)
    requires Distinct(hs) && h in hs
    ensures multiset(hs)[h] == 1
    decreases |hs|
  {
    assert hs == [hs[0]] + hs[1..];
    assert Distinct(hs[1..]);
    if hs[0] == h {
      assert h !in hs[1..];
    } else {
      DistinctCount(hs[1..], h);
    }
  }
}
