/** Store<T> and createStore (src/renderer/lib/stores/Store.ts): a current
    value and a set of subscribers. A value of type `T` stands for what the
    source compares with `===`, so equal values here are the identical ones
    there. */
module Stores {
  import opened Observers
  import opened Text

  class Store<T(==), L(==)> {
    var subscribers: seq<L>
    var currentValue: T

    /** Each subscriber is stored once. */
    ghost predicate Valid()
      reads this
    {
      Distinct(subscribers)
    }

    constructor(initialValue: T)
      ensures currentValue == initialValue && subscribers == [] && Valid()
    {
      currentValue := initialValue;
      subscribers := [];
    }

    /** get. */
    method Get() returns (v: T)
      ensures v == currentValue
    {
      v := currentValue;
    }

    /** set: the identical value changes nothing and calls nobody; a new
        value becomes current and every subscriber gets it once. */
    method Set(newValue: T) returns (calls: seq<Call<L, T>>)
      modifies this
      ensures subscribers == old(subscribers)
      ensures newValue == old(currentValue) ==> currentValue == old(currentValue) && calls == []
      ensures newValue != old(currentValue) ==> currentValue == newValue && calls == Calls(subscribers, newValue)
    {
      if currentValue == newValue {
        return [];
      }
      currentValue := newValue;
      calls := Notify();
    }

    /** notify: every subscriber gets the current value, in order. */
    method Notify() returns (calls: seq<Call<L, T>>)
      ensures calls == Calls(subscribers, currentValue)
      ensures |calls| == |subscribers|
      ensures forall i :: 0 <= i < |subscribers| ==> calls[i] == Call(subscribers[i], currentValue)
    {
      calls := Deliver(subscribers, currentValue);
    }

    /** update: exactly `set(fn(get()))`. */
    method Update(fn: T -> T) returns (calls: seq<Call<L, T>>)
      modifies this
      ensures subscribers == old(subscribers)
      ensures fn(old(currentValue)) == old(currentValue) ==> currentValue == old(currentValue) && calls == []
      ensures fn(old(currentValue)) != old(currentValue) ==>
        currentValue == fn(old(currentValue)) && calls == Calls(subscribers, currentValue)
    {
      calls := Set(fn(currentValue));
    }

    /** subscribe: stores the listener and calls it at once with the current
        value. */
    method Subscribe(fn: L) returns (calls: seq<Call<L, T>>)
      requires Valid()
      modifies this
      ensures Valid() && subscribers == Added(old(subscribers), fn) && currentValue == old(currentValue)
      ensures calls == [Call(fn, currentValue)]
    {
      AddedShape(subscribers, fn);
      subscribers := Added(subscribers, fn);
      calls := [Call(fn, currentValue)];
    }

    /** The function subscribe returns: the listener gets no further
        notification. */
    method Unsubscribe(fn: L)
      requires Valid()
      modifies this
      ensures Valid() && subscribers == Without(old(subscribers), fn) && currentValue == old(currentValue)
      ensures fn !in subscribers
    {
      WithoutDistinct(subscribers, fn);
      WithoutCounts(subscribers, fn);
      subscribers := Without(subscribers, fn);
    }
  }

  /** createStore: a fresh store holding the initial value and no
      subscribers. Its members are the returned object's bound functions. */
  method CreateStore<T(==), L(==)>(initialValue: T) returns (s: Store<T, L>)
    ensures fresh(s) && s.currentValue == initialValue && s.subscribers == [] && s.Valid()
  {
    s := new Store(initialValue);
  }

  /** A notification reaches a subscriber exactly when it is subscribed. */
  lemma CallsReach<L, T>(subscribers: seq<L>, v: T, l: L)
    ensures Call(l, v) in Calls(subscribers, v) <==> l in subscribers
  {
    CallsInOrder(subscribers, v);
    if l in subscribers {
      var i :| 0 <= i < |subscribers| && subscribers[i] == l;
      assert Calls(subscribers, v)[i] == Call(l, v);
    }
  }
}
