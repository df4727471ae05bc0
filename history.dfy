/** The undo/redo history of src/renderer/lib/stores/index.ts: two stacks of
    snapshots beside the workspace writable. A snapshot holds the block map
    and the position of every block; the workspace value holds the blocks and
    the title (the writable starts as `{blocks, title: 'Untitled'}`, and
    restoring a snapshot writes back only those two fields). */
module History {
  import opened Records
  import opened RendererTypes

  /** The value the workspace writable holds. */
  datatype Workspace = Workspace(blocks: map<string, Block>, title: string)

  /** The longest undo stack a push leaves behind. */
  const MaxHistory: nat := 30

  /** The snapshot of a workspace: its block map and every block's position. */
  function Snapshot(ws: Workspace): HistoryState {
    HistoryState(ws.blocks, map k | k in ws.blocks :: ws.blocks[k].position)
  }

  /** A block moved to the snapshot's position for its key, when it has one. */
  function Placed(state: HistoryState, k: string): Block
    requires k in state.blocks
  {
    if k in state.positions then state.blocks[k].(position := state.positions[k]) else state.blocks[k]
  }

  /** The workspace a snapshot restores under the current title. */
  function Restored(state: HistoryState, title: string): Workspace {
    Workspace(map k | k in state.blocks :: Placed(state, k), title)
  }

  /** Restoring the snapshot of a workspace gives that workspace back. */
  lemma RestoreSnapshot(ws: Workspace)
    ensures Restored(Snapshot(ws), ws.title) == ws
  {
    var r := Restored(Snapshot(ws), ws.title);
    assert r.blocks.Keys == ws.blocks.Keys;
    forall k | k in ws.blocks
      ensures r.blocks[k] == ws.blocks[k]
    {
      assert Placed(Snapshot(ws), k) == ws.blocks[k].(position := ws.blocks[k].position);
    }
  }

  /** Restoring keeps every block's key, and moves only blocks with a stored
      position; the title is the one given. */
  lemma RestoredShape(state: HistoryState, title: string)
    ensures Restored(state, title).blocks.Keys == state.blocks.Keys
    ensures Restored(state, title).title == title
    ensures forall k :: k in state.blocks && k !in state.positions ==> Restored(state, title).blocks[k] == state.blocks[k]
    ensures forall k :: k in state.blocks && k in state.positions ==>
      Restored(state, title).blocks[k].position == state.positions[k]
      && Restored(state, title).blocks[k] == state.blocks[k].(position := state.positions[k])
  {
  }

  /** createHistoryState: copies the block map and records a copy of every
      block's position under the block's key. */
  method CreateHistoryState(ws: Workspace) returns (h: HistoryState)
    ensures h == Snapshot(ws)
    ensures h.positions.Keys == ws.blocks.Keys && h.blocks == ws.blocks
    ensures forall k :: k in h.positions ==> h.positions[k] == ws.blocks[k].position
  {
    var positions: map<string, Pos> := map[];
    var todo := ws.blocks.Keys;
    while todo != {}
      invariant todo <= ws.blocks.Keys
      invariant positions.Keys == ws.blocks.Keys - todo
      invariant forall k :: k in positions ==> positions[k] == ws.blocks[k].position
      decreases todo
    {
      var k :| k in todo;
      positions := positions[k := ws.blocks[k].position];
      todo := todo - {k};
    }
    h := HistoryState(ws.blocks, positions);
  }

  /** restoreState: copies the snapshot's block map, gives every block with a
      stored position that position, and keeps the workspace's current title. */
  method RestoreState(state: HistoryState, title: string) returns (ws: Workspace)
    ensures ws == Restored(state, title)
  {
    var blocks := state.blocks;
    var todo := state.blocks.Keys;
    while todo != {}
      invariant todo <= state.blocks.Keys && blocks.Keys == state.blocks.Keys
      invariant forall k :: k in blocks ==> blocks[k] == if k in todo then state.blocks[k] else Placed(state, k)
      decreases todo
    {
      var k :| k in todo;
      if k in state.positions {
        blocks := blocks[k := blocks[k].(position := state.positions[k])];
      }
      todo := todo - {k};
    }
    ws := Workspace(blocks, title);
  }

  /** Two finite sets, one inside the other, of the same size are equal. */
  lemma SubsetSameSize<T>(a: set<T>, b: set<T>)
    requires a <= b && |a| == |b|
    ensures a == b
  {
    assert |b - a| == |b| - |a|;
  }

  /** A map that agrees with another of the same size on each of its keys is
      that map. */
  lemma MapsAgree<V>(a: map<string, V>, b: map<string, V>)
    requires |a| == |b|
    requires forall k :: k in a ==> k in b && b[k] == a[k]
    ensures a == b
  {
    assert |a.Keys| == |a| && |b.Keys| == |b|;
    SubsetSameSize(a.Keys, b.Keys);
  }

  /** areStatesIdentical: equal sizes, every block equal to the one under the
      same key, every position equal to the one under the same key. Blocks
      whose JSON texts agree are the equal block records. */
  predicate Identical(s1: HistoryState, s2: HistoryState) {
    && |s1.blocks| == |s2.blocks| && |s1.positions| == |s2.positions|
    && (forall k :: k in s1.blocks ==> k in s2.blocks && s2.blocks[k] == s1.blocks[k])
    && (forall k :: k in s1.positions ==> k in s2.positions && s2.positions[k] == s1.positions[k])
  }

  /** The comparison holds exactly between equal snapshots. */
  lemma IdenticalIffEqual(s1: HistoryState, s2: HistoryState)
    ensures Identical(s1, s2) <==> s1 == s2
  {
    if Identical(s1, s2) {
      MapsAgree(s1.blocks, s2.blocks);
      MapsAgree(s1.positions, s2.positions);
    }
  }

  /** areStatesIdentical, with its early returns. */
  method AreStatesIdentical(s1: HistoryState, s2: HistoryState) returns (r: bool)
    ensures r <==> Identical(s1, s2)
    ensures r <==> s1 == s2
  {
    IdenticalIffEqual(s1, s2);
    if |s1.blocks| != |s2.blocks| || |s1.positions| != |s2.positions| {
      return false;
    }
    var todo := s1.blocks.Keys;
    while todo != {}
      invariant todo <= s1.blocks.Keys
      invariant forall k :: k in s1.blocks && k !in todo ==> k in s2.blocks && s2.blocks[k] == s1.blocks[k]
      decreases todo
    {
      var k :| k in todo;
      if k !in s2.blocks || s2.blocks[k] != s1.blocks[k] {
        return false;
      }
      todo := todo - {k};
    }
    var rest := s1.positions.Keys;
    while rest != {}
      invariant rest <= s1.positions.Keys
      invariant forall k :: k in s1.positions && k !in rest ==> k in s2.positions && s2.positions[k] == s1.positions[k]
      decreases rest
    {
      var k :| k in rest;
      if k !in s2.positions || s2.positions[k].x != s1.positions[k].x || s2.positions[k].y != s1.positions[k].y {
        return false;
      }
      rest := rest - {k};
    }
    return true;
  }

  /** An undo stack after a push: the oldest entry is dropped once the stack
      is longer than `MaxHistory`. */
  function Capped(undo: seq<HistoryState>): seq<HistoryState> {
    if |undo| > MaxHistory then undo[1..] else undo
  }

  /** A push adds `current` when the stack is empty or its top differs. */
  predicate Adds(undo: seq<HistoryState>, current: HistoryState) {
    |undo| == 0 || undo[|undo| - 1] != current
  }

  /** An adding push ends the stack with the new snapshot, keeps every older
      entry but possibly the oldest, in order, and leaves a stack of at most
      `MaxHistory` entries behind one that had at most that many. */
  lemma PushShape(undo: seq<HistoryState>, current: HistoryState)
    ensures var u := Capped(undo + [current]);
      && |u| >= 1 && u[|u| - 1] == current
      && (|undo| < MaxHistory ==> u == undo + [current])
      && (|undo| >= MaxHistory ==> u == undo[1..] + [current])
      && (|undo| <= MaxHistory ==> |u| <= MaxHistory)
  {
    if |undo| >= MaxHistory {
      assert (undo + [current])[1..] == undo[1..] + [current];
    }
  }

  /** The two stacks and the workspace, between operations. */
  datatype Stacks = Stacks(undo: seq<HistoryState>, redo: seq<HistoryState>, workspace: Workspace)

  /** pushUndo, on values. */
  function PushNext(s: Stacks): Stacks {
    var current := Snapshot(s.workspace);
    if Adds(s.undo, current) then s.(undo := Capped(s.undo + [current]), redo := []) else s
  }

  /** undo, on values: the current snapshot goes onto redo and the top of undo
      is restored under the current title. */
  function UndoNext(s: Stacks): Stacks {
    if |s.undo| == 0 then s
    else
      Stacks(s.undo[..|s.undo| - 1], s.redo + [Snapshot(s.workspace)],
             Restored(s.undo[|s.undo| - 1], s.workspace.title))
  }

  /** redo, on values: the mirror image of `UndoNext`. */
  function RedoNext(s: Stacks): Stacks {
    if |s.redo| == 0 then s
    else
      Stacks(s.undo + [Snapshot(s.workspace)], s.redo[..|s.redo| - 1],
             Restored(s.redo[|s.redo| - 1], s.workspace.title))
  }

  /** A push that adds empties redo and never leaves more than `MaxHistory`
      entries behind a stack within the bound; a push that does not add
      changes nothing. */
  lemma PushBounds(s: Stacks)
    ensures Adds(s.undo, Snapshot(s.workspace)) ==>
      PushNext(s).redo == [] && |PushNext(s).undo| >= 1
      && PushNext(s).undo[|PushNext(s).undo| - 1] == Snapshot(s.workspace)
      && (|s.undo| <= MaxHistory ==> |PushNext(s).undo| <= MaxHistory)
    ensures !Adds(s.undo, Snapshot(s.workspace)) ==> PushNext(s) == s
    ensures PushNext(s).workspace == s.workspace
  {
    PushShape(s.undo, Snapshot(s.workspace));
  }

  /** Pushing twice without a change in between adds at most once. */
  lemma PushTwice(s: Stacks)
    ensures PushNext(PushNext(s)) == PushNext(s)
  {
    PushShape(s.undo, Snapshot(s.workspace));
  }

  /** undo and redo move one entry between the stacks: the total stays. */
  lemma MovesPreserveTotal(s: Stacks)
    ensures |UndoNext(s).undo| + |UndoNext(s).redo| == |s.undo| + |s.redo|
    ensures |RedoNext(s).undo| + |RedoNext(s).redo| == |s.undo| + |s.redo|
    ensures UndoNext(s).workspace.title == s.workspace.title
    ensures RedoNext(s).workspace.title == s.workspace.title
  {
  }

  /** An undo followed by a redo gives back the workspace and the redo stack,
      and the undo stack of the same length with the same older entries. */
  lemma UndoThenRedo(s: Stacks)
    requires |s.undo| > 0
    ensures var t := RedoNext(UndoNext(s));
      && t.workspace == s.workspace && t.redo == s.redo
      && |t.undo| == |s.undo| && t.undo[..|t.undo| - 1] == s.undo[..|s.undo| - 1]
      && t.undo[|t.undo| - 1] == Snapshot(Restored(s.undo[|s.undo| - 1], s.workspace.title))
  {
    var u := UndoNext(s);
    assert u.redo[..|u.redo| - 1] == s.redo;
    RestoreSnapshot(s.workspace);
  }

  /** A redo followed by an undo gives back the workspace and the undo stack. */
  lemma RedoThenUndo(s: Stacks)
    requires |s.redo| > 0
    ensures var t := UndoNext(RedoNext(s));
      && t.workspace == s.workspace && t.undo == s.undo
      && |t.redo| == |s.redo| && t.redo[..|t.redo| - 1] == s.redo[..|s.redo| - 1]
  {
    var r := RedoNext(s);
    assert r.undo[..|r.undo| - 1] == s.undo;
    RestoreSnapshot(s.workspace);
  }

  /** The `history` atom with its two stacks, and the workspace writable. */
  class History {
    var undo: seq<HistoryState>
    var redo: seq<HistoryState>
    var workspace: Workspace

    function State(): Stacks
      reads this
    {
      Stacks(undo, redo, workspace)
    }

    /** Both stacks empty, an empty untitled workspace. */
    constructor()
      ensures undo == [] && redo == [] && workspace == Workspace(map[], "Untitled")
    {
      undo := [];
      redo := [];
      workspace := Workspace(map[], "Untitled");
    }

    /** pushUndo. */
    method PushUndo()
      modifies this
      ensures State() == PushNext(old(State()))
    {
      var current := CreateHistoryState(workspace);
      if |undo| == 0 || undo[|undo| - 1] != current {
        undo := undo + [current];
        if |undo| > MaxHistory {
          undo := undo[1..];
        }
        redo := [];
      }
    }

    /** undo. */
    method Undo()
      modifies this
      ensures State() == UndoNext(old(State()))
    {
      if |undo| == 0 {
        return;
      }
      var current := CreateHistoryState(workspace);
      var previous := undo[|undo| - 1];
      undo := undo[..|undo| - 1];
      redo := redo + [current];
      workspace := RestoreState(previous, workspace.title);
    }

    /** redo. */
    method Redo()
      modifies this
      ensures State() == RedoNext(old(State()))
    {
      if |redo| == 0 {
        return;
      }
      var current := CreateHistoryState(workspace);
      var next := redo[|redo| - 1];
      redo := redo[..|redo| - 1];
      undo := undo + [current];
      workspace := RestoreState(next, workspace.title);
    }
  }
}
