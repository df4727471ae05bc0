/** The cursor-based history of src/renderer/lib/managers/HistoryManager.ts.
    It works on the workspace store's state: `history` is the list of
    snapshots and `currentIndex` the cursor. `push` writes its cursor to a
    property named `currentIdx`, which no declared field of the state has, so
    the state carries it beside the declared fields. An access to a missing
    history entry reads `undefined` and the next property access throws. */
module CursorHistory {
  import opened Records
  import opened RendererTypes
  import opened Text


  /** The store's value: the declared state and the stray `currentIdx`. */
  datatype Managed = Managed(state: WorkspaceState, currentIdx: Option<int>)

  /** The outcome of an undo or redo: the new value, or a thrown TypeError. */
  datatype Step = Done(next: Managed) | Throws

  /** push, on values. */
  function Pushed(m: Managed): Managed {
    var s := m.state;
    Managed(s.(history := s.history + [HistoryState(s.blocks, s.positions)]), Some(|s.history|))
  }

  /** Installs an entry of the history and moves the cursor to it. */
  function Install(s: WorkspaceState, i: int): WorkspaceState
    requires 0 <= i < |s.history|
  {
    s.(blocks := s.history[i].blocks, positions := s.history[i].positions, currentIndex := i)
  }

  /** undo, on values. */
  function UndoStep(m: Managed): Step {
    var s := m.state;
    if s.currentIndex == 0 then Done(m)
    else if 0 <= s.currentIndex - 1 < |s.history| then Done(m.(state := Install(s, s.currentIndex - 1)))
    else Throws
  }

  /** redo, on values. */
  function RedoStep(m: Managed): Step {
    var s := m.state;
    if s.currentIndex == |s.history| - 1 then Done(m)
    else if 0 <= s.currentIndex + 1 < |s.history| then Done(m.(state := Install(s, s.currentIndex + 1)))
    else Throws
  }

  /** push appends exactly the current blocks and positions, keeps every
      older entry and every other field, and leaves `currentIndex` alone. */
  lemma PushAppends(m: Managed)
    ensures var p := Pushed(m);
      && |p.state.history| == |m.state.history| + 1
      && p.state.history[..|m.state.history|] == m.state.history
      && p.state.history[|m.state.history|] == HistoryState(m.state.blocks, m.state.positions)
      && p.state.currentIndex == m.state.currentIndex
      && p.state.(history := m.state.history) == m.state
  {
  }

  /** undo at the start is a no-op; otherwise it installs the entry before
      the cursor, or throws when there is none, and never touches the title,
      the history or `currentIdx`. */
  lemma UndoShape(m: Managed)
    ensures m.state.currentIndex == 0 ==> UndoStep(m) == Done(m)
    ensures UndoStep(m).Done? && m.state.currentIndex != 0 ==>
      var n := UndoStep(m).next;
      && n.state.currentIndex == m.state.currentIndex - 1
      && n.state.blocks == m.state.history[m.state.currentIndex - 1].blocks
      && n.state.positions == m.state.history[m.state.currentIndex - 1].positions
    ensures UndoStep(m).Done? ==>
      var n := UndoStep(m).next;
      n.state.title == m.state.title && n.state.history == m.state.history && n.currentIdx == m.currentIdx
    ensures UndoStep(m) == Throws <==> m.state.currentIndex != 0 && !(1 <= m.state.currentIndex <= |m.state.history|)
  {
  }

  /** redo at the last entry is a no-op; otherwise it installs the entry after
      the cursor, or throws when there is none. */
  lemma RedoShape(m: Managed)
    ensures m.state.currentIndex == |m.state.history| - 1 ==> RedoStep(m) == Done(m)
    ensures RedoStep(m).Done? && m.state.currentIndex != |m.state.history| - 1 ==>
      var n := RedoStep(m).next;
      && n.state.currentIndex == m.state.currentIndex + 1
      && n.state.blocks == m.state.history[m.state.currentIndex + 1].blocks
      && n.state.positions == m.state.history[m.state.currentIndex + 1].positions
    ensures RedoStep(m).Done? ==>
      var n := RedoStep(m).next;
      n.state.title == m.state.title && n.state.history == m.state.history && n.currentIdx == m.currentIdx
    ensures RedoStep(m) == Throws <==>
      m.state.currentIndex != |m.state.history| - 1 && !(-1 <= m.state.currentIndex < |m.state.history| - 1)
  {
  }

  /** An undo from a cursor inside the history, then a redo, brings the
      cursor back and installs the entry under it. */
  lemma UndoThenRedo(m: Managed)
    requires 1 <= m.state.currentIndex < |m.state.history|
    ensures UndoStep(m).Done? && RedoStep(UndoStep(m).next).Done?
    ensures var n := RedoStep(UndoStep(m).next).next;
      n == m.(state := Install(m.state, m.state.currentIndex))
  {
  }

  /** A redo from a cursor before the last entry, then an undo, brings the
      cursor back and installs the entry under it. */
  lemma RedoThenUndo(m: Managed)
    requires 0 <= m.state.currentIndex < |m.state.history| - 1
    ensures RedoStep(m).Done?
    ensures var n := RedoStep(m).next;
      n.state.currentIndex != 0 && UndoStep(n) == Done(m.(state := Install(m.state, m.state.currentIndex)))
  {
  }

  class HistoryManager {
    /** The workspace store's current value. */
    var store: Managed

    constructor(workspace: WorkspaceState)
      ensures store == Managed(workspace, None)
    {
      store := Managed(workspace, None);
    }

    /** push: appends a copy of the current blocks and positions and writes
        the cursor to `currentIdx`. */
    method Push()
      modifies this
      ensures store == Pushed(old(store))
    {
      var state := store.state;
      var blocks := state.blocks;
      var positions := state.positions;
      store := Managed(state.(history := state.history + [HistoryState(blocks, positions)]), Some(|state.history|));
    }

    /** undo; `thrown` reports the TypeError of a missing entry, which leaves
        the store as it was. */
    method Undo() returns (thrown: bool)
      modifies this
      ensures thrown <==> UndoStep(old(store)) == Throws
      ensures !thrown ==> UndoStep(old(store)) == Done(store)
      ensures thrown ==> store == old(store)
    {
      var state := store.state;
      if state.currentIndex == 0 {
        return false;
      }
      if !(0 <= state.currentIndex - 1 < |state.history|) {
        return true;
      }
      var history := state.history[state.currentIndex - 1];
      store := store.(state := state.(blocks := history.blocks, positions := history.positions,
                                      currentIndex := state.currentIndex - 1));
      return false;
    }

    /** redo; `thrown` reports the TypeError of a missing entry, which leaves
        the store as it was. */
    method Redo() returns (thrown: bool)
      modifies this
      ensures thrown <==> RedoStep(old(store)) == Throws
      ensures !thrown ==> RedoStep(old(store)) == Done(store)
      ensures thrown ==> store == old(store)
    {
      var state := store.state;
      if state.currentIndex == |state.history| - 1 {
        return false;
      }
      if !(0 <= state.currentIndex + 1 < |state.history|) {
        return true;
      }
      var history := state.history[state.currentIndex + 1];
      store := store.(state := state.(blocks := history.blocks, positions := history.positions,
                                      currentIndex := state.currentIndex + 1));
      return false;
    }
  }
}
