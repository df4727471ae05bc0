/** WorkspaceStore (src/renderer/lib/stores/workspace.ts): a Store of the
    workspace state. Its `set` compares objects by identity, and every method
    but one hands it a freshly built object, so the store's value is the
    state together with an object identity: a spread or a literal makes a
    new identity, returning the old object keeps it. */
module WorkspaceStores {
  import opened Observers
  import opened Stores
  import opened RendererTypes

  /** A state object: its fields and its identity. */
  datatype Object = Object(state: WorkspaceState, identity: nat)

  /** The constructor's and clear's state. */
  const Initial := WorkspaceState(map[], "", map[], [], -1)

  class WorkspaceStore<L(==)> {
    const store: Store<Object, L>
    /** The identity the next new object gets. */
    var next: nat

    /** Every object so far has an identity below `next`. */
    ghost predicate Valid()
      reads this, store
    {
      store.currentValue.identity < next
    }

    function State(): WorkspaceState
      reads this, store
    {
      store.currentValue.state
    }

    constructor()
      ensures Valid() && fresh(store) && State() == Initial && store.subscribers == []
    {
      store := new Store(Object(Initial, 0));
      next := 1;
    }

    /** blockUpdate: stores a copy of the block under the id; every other
        key and field stays, and every subscriber hears of the new state. */
    method BlockUpdate(id: string, block: Block) returns (calls: seq<Call<L, Object>>)
      requires Valid()
      modifies this, store
      ensures Valid() && store.subscribers == old(store.subscribers)
      ensures State() == old(State()).(blocks := old(State()).blocks[id := block])
      ensures calls == Calls(store.subscribers, store.currentValue)
    {
      var n := next;
      next := next + 1;
      calls := store.Update((ws: Object) => Object(ws.state.(blocks := ws.state.blocks[id := block]), n));
    }

    /** delete: removes the key, present or not; the rest stays. */
    method Delete(id: string) returns (calls: seq<Call<L, Object>>)
      requires Valid()
      modifies this, store
      ensures Valid() && store.subscribers == old(store.subscribers)
      ensures State() == old(State()).(blocks := old(State()).blocks - {id})
      ensures calls == Calls(store.subscribers, store.currentValue)
    {
      var n := next;
      next := next + 1;
      calls := store.Update((ws: Object) => Object(ws.state.(blocks := ws.state.blocks - {id}), n));
    }

    /** setTitle: changes only the title. */
    method SetTitle(title: string) returns (calls: seq<Call<L, Object>>)
      requires Valid()
      modifies this, store
      ensures Valid() && store.subscribers == old(store.subscribers)
      ensures State() == old(State()).(title := title)
      ensures calls == Calls(store.subscribers, store.currentValue)
    {
      var n := next;
      next := next + 1;
      calls := store.Update((ws: Object) => Object(ws.state.(title := title), n));
    }

    /** clear: back to the constructor's state. */
    method Clear() returns (calls: seq<Call<L, Object>>)
      requires Valid()
      modifies this, store
      ensures Valid() && store.subscribers == old(store.subscribers)
      ensures State() == Initial
      ensures calls == Calls(store.subscribers, store.currentValue)
    {
      var n := next;
      next := next + 1;
      calls := store.Set(Object(Initial, n));
    }

    /** updateBlock: an absent id returns the same object, so nothing changes
        and nobody is told; a present one gets the new contents and nothing
        else. */
    method UpdateBlock(id: string, contents: seq<Item>) returns (calls: seq<Call<L, Object>>)
      requires Valid()
      modifies this, store
      ensures Valid() && store.subscribers == old(store.subscribers)
      ensures id !in old(State()).blocks ==> store.currentValue == old(store.currentValue) && calls == []
      ensures id in old(State()).blocks ==>
        State() == old(State()).(blocks := old(State()).blocks[id := old(State()).blocks[id].(contents := contents)])
        && calls == Calls(store.subscribers, store.currentValue)
    {
      var n := next;
      next := next + 1;
      calls := store.Update((ws: Object) =>
        if id !in ws.state.blocks then ws
        else Object(ws.state.(blocks := ws.state.blocks[id := ws.state.blocks[id].(contents := contents)]), n));
    }
  }
}
