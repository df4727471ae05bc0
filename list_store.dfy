/** ListStore (src/renderer/lib/list/store.ts): the block templates of the
    side list, keyed by generated ids, with the ids in insertion order and a
    set of listeners told of every change. The generated id is a parameter
    of `AddList`, assumed unused as a uuid is. */
module ListStores {
  import opened Text
  import opened Observers
  import opened BlockTypes
  import opened BlockPatch

  /** The ids in `idList` are the keys of `list`, each once. */
  ghost predicate Agrees(list: map<string, BlockType>, idList: seq<string>) {
    Distinct(idList) && forall id :: id in idList <==> id in list
  }

  function Event(kind: EventKind, id: string, block: Option<BlockType>): BlockStoreEvent {
    BlockStoreEvent(kind, id, block, None)
  }

  class ListStore<L(==)> {
    var list: map<string, BlockType>
    var idList: seq<string>
    var listeners: seq<L>

    ghost predicate Valid()
      reads this
    {
      Agrees(list, idList) && Distinct(listeners)
    }

    /** The private constructor runs clearList with no listener yet. */
    constructor()
      ensures list == map[] && idList == [] && listeners == [] && Valid()
    {
      list := map[];
      idList := [];
      listeners := [];
    }

    method GetList(id: string) returns (b: Option<BlockType>)
      ensures id in list ==> b == Some(list[id])
      ensures id !in list ==> b == None
    {
      b := if id in list then Some(list[id]) else None;
    }

    method GetLists() returns (ids: seq<string>)
      ensures ids == idList
    {
      ids := idList;
    }

    /** addList: stores the block under the new id, appends the id and tells
        every listener, once each, of an `add` with that id and block. */
    method AddList(block: BlockType, newId: string) returns (calls: seq<Call<L, BlockStoreEvent>>)
      requires Valid() && newId !in list
      modifies this
      ensures Valid()
      ensures list == old(list)[newId := block] && idList == old(idList) + [newId] && listeners == old(listeners)
      ensures calls == Calls(listeners, Event(Add, newId, Some(block)))
    {
      list := list[newId := block];
      idList := idList + [newId];
      calls := NotifyListeners(Event(Add, newId, Some(block)));
    }

    /** removeList: deletes the key, filters the id out keeping the others'
        order, and tells of a `remove` even when the id was absent. */
    method RemoveList(id: string) returns (calls: seq<Call<L, BlockStoreEvent>>)
      requires Valid()
      modifies this
      ensures Valid()
      ensures list == old(list) - {id} && idList == Without(old(idList), id) && listeners == old(listeners)
      ensures calls == Calls(listeners, Event(Remove, id, None))
    {
      WithoutDistinct(idList, id);
      WithoutCounts(idList, id);
      list := list - {id};
      var before := idList;
      idList := Without(idList, id);
      forall k | k != id
        ensures k in idList <==> k in before
      {
        assert multiset(idList)[k] == multiset(before)[k];
        assert k in idList <==> k in multiset(idList);
        assert k in before <==> k in multiset(before);
      }
      calls := NotifyListeners(Event(Remove, id, None));
    }

    /** updateList: an absent id changes nothing and tells nobody; a present
        one gets the merged block, the ids stay, and listeners hear of an
        `update` with the merged block. */
    method UpdateList(id: string, partial: Patch) returns (calls: seq<Call<L, BlockStoreEvent>>)
      requires Valid()
      modifies this
      ensures Valid() && idList == old(idList) && listeners == old(listeners)
      ensures id !in old(list) ==> list == old(list) && calls == []
      ensures id in old(list) ==>
        list == old(list)[id := Merge(old(list)[id], partial)]
        && calls == Calls(listeners, Event(Update, id, Some(list[id])))
    {
      if id in list {
        var updated := Merge(list[id], partial);
        list := list[id := updated];
        calls := NotifyListeners(Event(Update, id, Some(updated)));
      } else {
        calls := [];
      }
    }

    /** clearList: empties the map and the ids and tells of a `clear`, whose
        object carries no id (the empty id here). */
    method ClearList() returns (calls: seq<Call<L, BlockStoreEvent>>)
      requires Valid()
      modifies this
      ensures Valid() && list == map[] && idList == [] && listeners == old(listeners)
      ensures calls == Calls(listeners, Event(Clear, "", None))
    {
      list := map[];
      idList := [];
      calls := NotifyListeners(Event(Clear, "", None));
    }

    /** subscribe: adds the listener to the set. */
    method Subscribe(listener: L)
      requires Valid()
      modifies this
      ensures Valid() && listeners == Added(old(listeners), listener)
      ensures list == old(list) && idList == old(idList)
    {
      AddedShape(listeners, listener);
      listeners := Added(listeners, listener);
    }

    /** The function subscribe returns: deletes the listener from the set. */
    method Unsubscribe(listener: L)
      requires Valid()
      modifies this
      ensures Valid() && listeners == Without(old(listeners), listener) && listener !in listeners
      ensures list == old(list) && idList == old(idList)
    {
      WithoutDistinct(listeners, listener);
      WithoutCounts(listeners, listener);
      listeners := Without(listeners, listener);
    }

    /** notifyListeners: every listener gets the event once, in order. */
    method NotifyListeners(event: BlockStoreEvent) returns (calls: seq<Call<L, BlockStoreEvent>>)
      ensures calls == Calls(listeners, event)
      ensures |calls| == |listeners|
      ensures forall i :: 0 <= i < |listeners| ==> calls[i] == Call(listeners[i], event)
    {
      calls := Deliver(listeners, event);
    }
  }

  /** Removing a stored id cuts it out of the id list and keeps the order of
      the rest. */
  lemma RemoveKeepsOrder(list: map<string, BlockType>, idList: seq<string>, i: nat)
    requires Agrees(list, idList) && i < |idList|
    ensures Without(idList, idList[i]) == idList[..i] + idList[i + 1..]
    ensures Agrees(list - {idList[i]}, idList[..i] + idList[i + 1..])
  {
    WithoutCutsOut(idList, i);
    var id := idList[i];
    WithoutDistinct(idList, id);
    WithoutCounts(idList, id);
    var rest := Without(idList, id);
    forall k
      ensures k in rest <==> k in list - {id}
    {
      assert k in rest <==> k in multiset(rest);
      assert k in idList <==> k in multiset(idList);
    }
  }

  /** The static `instance` of ListStore. */
  class ListSlot<L(==)> {
    var instance: ListStore?<L>

    constructor()
      ensures instance == null
    {
      instance := null;
    }

    /** getInstance: creates the store on the first call and returns the same
        one on every call. */
    method GetInstance() returns (s: ListStore<L>)
      modifies this
      ensures instance == s
      ensures old(instance) != null ==> s == old(instance)
      ensures old(instance) == null ==> fresh(s) && s.list == map[] && s.idList == [] && s.Valid()
    {
      if instance == null {
        instance := new ListStore();
      }
      s := instance;
    }
  }
}
