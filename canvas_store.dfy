/** CanvasStore (src/renderer/lib/canvas/store.ts): the canvas position and
    size, with a ListenerManager told of every change. The event type is not
    declared in the block type file; it carries the kind 'canvas' and an id. */
module CanvasStores {
  import opened Records
  import opened Observers
  import opened ListenerManagers

  datatype CanvasSize = CanvasSize(width: int, height: int)

  /** `{ type: 'canvas', id }`. */
  datatype CanvasStoreEvent = Canvas(id: string)

  class CanvasStore<L(==)> {
    var canvasPos: Pos
    var canvasSize: CanvasSize
    const listenerManager: ListenerManager<L, CanvasStoreEvent>

    /** The store starts at (0,0) with size 0×0 and no listener. */
    constructor()
      ensures canvasPos == Pos(0, 0) && canvasSize == CanvasSize(0, 0)
      ensures fresh(listenerManager) && listenerManager.listeners == []
    {
      canvasPos := Pos(0, 0);
      canvasSize := CanvasSize(0, 0);
      listenerManager := new ListenerManager();
    }

    method GetCanvasPos() returns (p: Pos)
      ensures p == canvasPos
    {
      p := canvasPos;
    }

    method GetCanvasSize() returns (s: CanvasSize)
      ensures s == canvasSize
    {
      s := canvasSize;
    }

    /** setCanvasPos: the size stays; every listener gets one canvas event
        with the empty id. */
    method SetCanvasPos(pos: Pos) returns (calls: seq<Call<L, CanvasStoreEvent>>)
      modifies this
      ensures canvasPos == pos && canvasSize == old(canvasSize)
      ensures |calls| == |listenerManager.listeners|
      ensures forall i :: 0 <= i < |calls| ==> calls[i] == Call(listenerManager.listeners[i], Canvas(""))
    {
      canvasPos := pos;
      calls := listenerManager.NotifyListeners(Canvas(""));
    }

    /** setCanvasSize: the position stays; every listener gets one canvas
        event with the empty id. */
    method SetCanvasSize(size: CanvasSize) returns (calls: seq<Call<L, CanvasStoreEvent>>)
      modifies this
      ensures canvasSize == size && canvasPos == old(canvasPos)
      ensures |calls| == |listenerManager.listeners|
      ensures forall i :: 0 <= i < |calls| ==> calls[i] == Call(listenerManager.listeners[i], Canvas(""))
    {
      canvasSize := size;
      calls := listenerManager.NotifyListeners(Canvas(""));
    }

    /** subscribe: hands the listener to the ListenerManager. */
    method Subscribe(listener: L)
      modifies listenerManager
      ensures listenerManager.listeners == old(listenerManager.listeners) + [listener]
    {
      listenerManager.Subscribe(listener);
    }
  }

  /** The static `instance` of CanvasStore. */
  class CanvasSlot<L(==)> {
    var instance: CanvasStore?<L>

    constructor()
      ensures instance == null
    {
      instance := null;
    }

    /** getInstance: creates the store on the first call and returns the same
        one on every call. */
    method GetInstance() returns (c: CanvasStore<L>)
      modifies this
      ensures instance == c
      ensures old(instance) != null ==> c == old(instance)
      ensures old(instance) == null ==> fresh(c) && c.canvasPos == Pos(0, 0) && c.canvasSize == CanvasSize(0, 0)
    {
      if instance == null {
        instance := new CanvasStore();
      }
      c := instance;
    }
  }
}
