/** Listener lists shared by the store and event classes. A listener is a
    function value in the source; here it is an identity of type `L`, and a
    notification is the list of calls it makes, in order. A JavaScript `Set`
    of listeners iterates in insertion order and holds each listener once, so
    it is a sequence without repeats; an array of listeners may repeat one. */
module Observers {
  import opened Text

  /** One call of a listener with an event. */
  datatype Call<L, E> = Call(listener: L, event: E)

  /** `Set.add`: a listener not yet present goes to the end. */
  function Added<L(==)>(ls: seq<L>, l: L): seq<L> {
    if l in ls then ls else ls + [l]
  }

  /** `filter(x => x !== l)`, and `Set.delete` on a set: every entry equal to
      `l` goes, the others keep their order. */
  function Without<L(==)>(ls: seq<L>, l: L): seq<L>
    decreases |ls|
  {
    if ls == [] then []
    else if ls[0] == l then Without(ls[1..], l)
    else [ls[0]] + Without(ls[1..], l)
  }

  /** The calls a `forEach` over the listeners makes with one event. */
  function Calls<L, E>(ls: seq<L>, e: E): (calls: seq<Call<L, E>>)
    decreases |ls|
  {
    if ls == [] then [] else [Call(ls[0], e)] + Calls(ls[1..], e)
  }

  /** Every listener is called once per entry, in list order, with the event. */
  lemma {:induction false} CallsInOrder<L, E>(ls: seq<L>, e: E)
    ensures |Calls(ls, e)| == |ls|
    ensures forall i :: 0 <= i < |ls| ==> Calls(ls, e)[i] == Call(ls[i], e)
    decreases |ls|
  {
    if ls != [] {
      CallsInOrder(ls[1..], e);
    }
  }

  /** Calls to a concatenation are the calls to each part. */
  lemma {:induction false} CallsAppend<L, E>(a: seq<L>, b: seq<L>, e: E)
    ensures Calls(a + b, e) == Calls(a, e) + Calls(b, e)
    decreases |a|
  {
    if a == [] {
      assert a + b == b;
    } else {
      assert (a + b)[0] == a[0] && (a + b)[1..] == a[1..] + b;
      CallsAppend(a[1..], b, e);
    }
  }

  /** `Without` keeps exactly the entries different from `l`, counted as
      often as before. */
  lemma {:induction false} WithoutCounts<L>(ls: seq<L>, l: L)
    ensures multiset(Without(ls, l)) == multiset(ls)[l := 0]
    ensures l !in Without(ls, l)
    decreases |ls|
  {
    if ls != [] {
      WithoutCounts(ls[1..], l);
      assert ls == [ls[0]] + ls[1..];
    }
    assert multiset(Without(ls, l))[l] == 0;
  }

  /** `Without` on a list without `l` changes nothing; it keeps the
      relative order of what it keeps. */
  lemma {:induction false} WithoutAbsent<L>(ls: seq<L>, l: L)
    requires l !in ls
    ensures Without(ls, l) == ls
    decreases |ls|
  {
    if ls != [] {
      WithoutAbsent(ls[1..], l);
      assert ls == [ls[0]] + ls[1..];
    }
  }

  lemma {:induction false} WithoutAppend<L>(a: seq<L>, b: seq<L>, l: L)
    ensures Without(a + b, l) == Without(a, l) + Without(b, l)
    decreases |a|
  {
    if a == [] {
      assert a + b == b;
    } else {
      assert (a + b)[0] == a[0] && (a + b)[1..] == a[1..] + b;
      WithoutAppend(a[1..], b, l);
    }
  }

  /** Removing the one entry of a listener from a list without repeats cuts
      it out and keeps the others in order. */
  lemma {:induction false} WithoutCutsOut<L>(ls: seq<L>, i: nat)
    requires Distinct(ls) && i < |ls|
    ensures Without(ls, ls[i]) == ls[..i] + ls[i + 1..]
    decreases i
  {
    var l, tail := ls[i], ls[1..];
    assert Distinct(tail);
    if i == 0 {
      assert l !in tail;
      WithoutAbsent(tail, l);
    } else {
      assert tail[i - 1] == l;
      WithoutCutsOut(tail, i - 1);
      assert ls[..i] == [ls[0]] + tail[..i - 1];
      assert ls[i + 1..] == tail[i..];
    }
  }

  /** Adding keeps a list without repeats, puts the listener in it and keeps
      every other listener. */
  lemma AddedShape<L>(ls: seq<L>, l: L)
    requires Distinct(ls)
    ensures Distinct(Added(ls, l)) && l in Added(ls, l)
    ensures forall x :: x in Added(ls, l) <==> x in ls || x == l
    ensures l in ls ==> Added(ls, l) == ls
  {
  }

  /** Removing keeps a list without repeats. */
  lemma {:induction false} WithoutDistinct<L>(ls: seq<L>, l: L)
    requires Distinct(ls)
    ensures Distinct(Without(ls, l))
    decreases |ls|
  {
    if ls != [] {
      assert Distinct(ls[1..]);
      WithoutDistinct(ls[1..], l);
      WithoutCounts(ls[1..], l);
      if ls[0] != l {
        assert ls[0] !in ls[1..];
        assert multiset(ls[1..])[ls[0]] == 0;
        assert ls[0] !in multiset(Without(ls[1..], l));
      }
    }
  }

  /** Delivers one event to every listener in list order (the `forEach` of
      each notifying method). */
  method Deliver<L, E>(ls: seq<L>, e: E) returns (calls: seq<Call<L, E>>)
    ensures |calls| == |ls|
    ensures forall i :: 0 <= i < |ls| ==> calls[i] == Call(ls[i], e)
    ensures calls == Calls(ls, e)
  {
    calls := [];
    for i := 0 to |ls|
      invariant calls == Calls(ls[..i], e)
    {
      CallsAppend(ls[..i], [ls[i]], e);
      assert ls[..i + 1] == ls[..i] + [ls[i]];
      calls := calls + [Call(ls[i], e)];
    }
    assert ls[..|ls|] == ls;
    CallsInOrder(ls, e);
  }
}
