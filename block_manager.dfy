/** BlockManager (src/renderer/lib/managers/BlockManager.ts): creating a
    block from a template, the `children`-chain test run before connecting,
    shallow updates of a stored block and the z-index renumbering of a chain,
    all over the workspace store's state. */
module BlockManager {
  import opened Records
  import opened RendererTypes
  import opened Text
  import opened Chain
  import opened Layout


  /** A `Partial<Block>`: the fields an update names. */
  datatype Patch = Patch(
    id: Option<string>,
    kind: Option<BlockKind>,
    color: Option<Color>,
    title: Option<string>,
    output: Option<string>,
    contents: Option<seq<Item>>,
    position: Option<Pos>,
    connections: Option<ConnectionPoint>,
    children: Option<string>,
    parentId: Option<string>,
    depth: Option<int>,
    zIndex: Option<int>)

  function Pick<T>(o: Option<T>, v: T): T {
    if o.Some? then o.value else v
  }

  /** `{ ...block, ...updates }`: every field the update names replaces the
      block's, the others stay. */
  function Merge(b: Block, u: Patch): (r: Block)
    ensures u == Patch(None, None, None, None, None, None, None, None, None, None, None, None) ==> r == b
    ensures u.children.Some? ==> r.children == u.children.value
    ensures u.children.None? ==> r.children == b.children
  {
    Record(
      Pick(u.id, b.id), Pick(u.kind, b.kind), Pick(u.title, b.title), Pick(u.output, b.output),
      Pick(u.contents, b.contents), Pick(u.position, b.position), Pick(u.children, b.children),
      Pick(u.parentId, b.parentId), Pick(u.depth, b.depth), Pick(u.zIndex, b.zIndex),
      Extra(Pick(u.color, b.extra.color), Pick(u.connections, b.extra.connections)))
  }

  /** An update that names a non-empty `children` renumbers the chain from
      that id. */
  predicate Renumbers(u: Patch) {
    u.children.Some? && u.children.value != ""
  }

  /** The state updateBlock leaves: the merged record under `id`, then, when
      the update names a child, the chain `c` from it numbered from 0. */
  ghost function Updated(s: WorkspaceState, id: string, u: Patch, c: seq<string>): (r: WorkspaceState)
    requires id in s.blocks && Renumbers(u) ==> Stored(s.blocks[id := Merge(s.blocks[id], u)], c)
  {
    if id !in s.blocks then s
    else
      var m1 := s.blocks[id := Merge(s.blocks[id], u)];
      if Renumbers(u) then s.(blocks := Numbered(m1, c, 0)) else s.(blocks := m1)
  }

  /** What the `wouldCreateCycle` search returns: `true`, `false`, or the
      empty `children` string at which the walk ends. */
  datatype Verdict = Yes | No | EmptyLink

  class Manager {
    /** The workspace store's current value. */
    var state: WorkspaceState

    constructor (initial: WorkspaceState)
      ensures state == initial
    {
      state := initial;
    }

    /** getNextZIndex: one more than the largest stored zIndex, or 1 when
        none is positive. */
    method GetNextZIndex() returns (z: int)
      ensures z >= 1
      ensures forall k :: k in state.blocks ==> state.blocks[k].zIndex < z
      ensures z == 1 || exists k :: k in state.blocks && state.blocks[k].zIndex == z - 1
    {
      var m := state.blocks;
      var rest := m.Keys;
      var best := 0;
      while rest != {}
        invariant rest <= m.Keys && best >= 0
        invariant forall k :: k in m && k !in rest ==> m[k].zIndex <= best
        invariant best == 0 || exists k :: k in m && m[k].zIndex == best
        decreases |rest|
      {
        var k :| k in rest;
        if m[k].zIndex > best {
          best := m[k].zIndex;
        }
        rest := rest - {k};
      }
      z := best + 1;
    }

    /** createBlock: the template with the fresh id `freshId`, no links,
        depth 0 and the zIndex `getNextZIndex` gives: one more than the
        largest stored zIndex, or 1 when none is positive. */
    method CreateBlock(template: Block, freshId: string) returns (b: Block)
      ensures b == template.(id := freshId, children := "", parentId := "", depth := 0, zIndex := b.zIndex)
      ensures b.zIndex >= 1 && forall k :: k in state.blocks ==> state.blocks[k].zIndex < b.zIndex
      ensures b.zIndex == 1 || exists k :: k in state.blocks && state.blocks[k].zIndex == b.zIndex - 1
    {
      var z := GetNextZIndex();
      b := template.(id := freshId, position := Pos(template.position.x, template.position.y),
                     children := "", parentId := "", depth := 0, zIndex := z);
    }

    /** wouldCreateCycle(sourceId, targetId) as written: the search starts at
        `targetId` and looks for `targetId`, so it answers `true` at once for
        every stored target stored under its own id. The visited set ends
        the walk on a circular chain. */
    method WouldCreateCycle(sourceId: string, targetId: string) returns (r: Verdict)
      ensures targetId !in state.blocks ==> r == No
      ensures targetId in state.blocks && state.blocks[targetId].id == targetId ==> r == Yes
    {
      var m := state.blocks;
      var visited: set<string> := {};
      var blockId := targetId;
      ghost var started := false;
      while true
        invariant visited <= m.Keys
        invariant !started ==> blockId == targetId && visited == {}
        invariant started ==> targetId in m && m[targetId].id != targetId
        decreases m.Keys - visited
      {
        if blockId in visited {
          return No;
        }
        visited := visited + {blockId};
        if blockId !in m {
          return No;
        }
        var block := m[blockId];
        if block.id == targetId {
          return Yes;
        }
        if block.children == "" {
          return EmptyLink;
        }
        blockId := block.children;
        started := true;
      }
    }

    /** connectBlocks: false when either block is missing, otherwise the
        negation of the search's answer. With every block stored under its
        own id that answer is always `true`, so no pair ever connects. */
    method ConnectBlocks(sourceId: string, targetId: string) returns (ok: bool)
      ensures KeysAgree(state.blocks) ==> !ok
      ensures sourceId !in state.blocks || targetId !in state.blocks ==> !ok
    {
      if sourceId !in state.blocks || targetId !in state.blocks {
        return false;
      }
      var r := WouldCreateCycle(sourceId, targetId);
      ok := r != Yes;
    }

    /** The evidently intended search: from `targetId` along `children`,
        looking for `sourceId`. With the walk `c` from the target, it
        answers `true` exactly when the source lies on it. */
    method WouldCreateCycleIntended(sourceId: string, targetId: string, ghost c: seq<string>) returns (r: Verdict)
      requires KeysAgree(state.blocks) && IsChain(Links(state.blocks), targetId, c)
      ensures r == Yes <==> sourceId in c
    {
      var m := state.blocks;
      var visited: set<string> := {};
      var blockId := targetId;
      ghost var j := 0;
      ChainDistinct(Links(m), targetId, c);
      ChainFacts(Links(m), targetId, c);
      while true
        invariant visited <= m.Keys && 0 <= j <= |c|
        invariant visited == set i | 0 <= i < j :: c[i]
        invariant j < |c| ==> blockId == c[j]
        invariant j == |c| ==> blockId !in m
        invariant sourceId !in c[..j]
        decreases m.Keys - visited
      {
        if blockId in visited {
          return No;
        }
        visited := visited + {blockId};
        if blockId !in m {
          return No;
        }
        assert j < |c|;
        var block := m[blockId];
        if block.id == sourceId {
          return Yes;
        }
        if block.children == "" {
          ChainEnd(m, targetId, c, j);
          return EmptyLink;
        }
        ChainNext(m, targetId, c, j);
        assert c[..j + 1] == c[..j] + [c[j]];
        blockId := block.children;
        j := j + 1;
      }
    }

    /** connectBlocks with the intended search: two stored blocks connect
        exactly when the source is not on the target's walk. */
    method ConnectBlocksIntended(sourceId: string, targetId: string, ghost c: seq<string>) returns (ok: bool)
      requires KeysAgree(state.blocks) && IsChain(Links(state.blocks), targetId, c)
      ensures ok <==> sourceId in state.blocks && targetId in state.blocks && sourceId !in c
    {
      if sourceId !in state.blocks || targetId !in state.blocks {
        return false;
      }
      var r := WouldCreateCycleIntended(sourceId, targetId, c);
      ok := r != Yes;
    }

    /** updateBlock: a missing id changes nothing; otherwise the merged record
        is stored and, when the update names a child, the chain from that
        child is renumbered. */
    method UpdateBlock(id: string, updates: Patch, ghost c: seq<string>)
      requires id in state.blocks && Renumbers(updates) ==>
        IsChain(Links(state.blocks[id := Merge(state.blocks[id], updates)]), updates.children.value, c)
      modifies this
      ensures id in old(state.blocks) && Renumbers(updates) ==> Stored(old(state.blocks)[id := Merge(old(state.blocks)[id], updates)], c)
      ensures state == Updated(old(state), id, updates, c)
    {
      if id !in state.blocks {
        return;
      }
      var block := state.blocks[id];
      var newBlock := Merge(block, updates);
      state := state.(blocks := state.blocks[id := newBlock]);
      if updates.children.Some? && updates.children.value != "" {
        UpdateBlockZIndex(updates.children.value, c);
      }
    }

    /** updateBlockZIndex: numbers the chain from `children` 0, 1, 2, … in the
        snapshot of the state taken at the start, and stores that snapshot
        back; the other fields of the state stay. */
    method UpdateBlockZIndex(children: string, ghost c: seq<string>)
      requires IsChain(Links(state.blocks), children, c)
      modifies this
      ensures Stored(old(state.blocks), c)
      ensures state == old(state).(blocks := Numbered(old(state.blocks), c, 0))
    {
      var snapshot := state;
      var sorted := snapshot.blocks;
      WalkStored(sorted, children, c);
      ghost var goal := Numbered(sorted, c, 0);
      ghost var links := Links(sorted);
      var currentIndex := 0;
      var blockId := children;
      ghost var rest := c;
      while blockId in sorted
        invariant |rest| == |c| - currentIndex && 0 <= currentIndex
        invariant sorted.Keys == snapshot.blocks.Keys && Links(sorted) == links
        invariant IsChain(links, blockId, rest) && Stored(sorted, rest)
        invariant Numbered(sorted, rest, currentIndex) == goal
        decreases |rest|
      {
        var block := sorted[blockId];
        ZStep(sorted, blockId, rest, currentIndex);
        block := block.(zIndex := currentIndex);
        LinksSameUpdate(sorted, blockId, block);
        sorted := sorted[blockId := block];
        currentIndex := currentIndex + 1;
        rest := rest[1..];
        if block.children == "" {
          break;
        }
        blockId := block.children;
      }
      assert rest == [];
      state := snapshot.(blocks := sorted);
    }
  }

  /** One step of the numbering walk. */
  lemma ZStep(m: map<string, Block>, id: string, c: seq<string>, i: int)
    requires IsChain(Links(m), id, c) && id in m && Stored(m, c)
    ensures |c| >= 1 && c[0] == id
    ensures Numbered(m, c, i) == Numbered(m[id := m[id].(zIndex := i)], c[1..], i + 1)
    ensures Stored(m[id := m[id].(zIndex := i)], c[1..])
    ensures m[id].children == "" ==> |c| == 1
    ensures m[id].children != "" ==> IsChain(Links(m), m[id].children, c[1..])
  {
    ChainLengthOne(Links(m), id, c);
  }

  /** At a block whose link is empty the walk is over. */
  lemma ChainEnd(m: map<string, Block>, id: string, c: seq<string>, j: int)
    requires IsChain(Links(m), id, c) && 0 <= j < |c| && c[j] in m && m[c[j]].children == ""
    ensures j == |c| - 1
  {
    ChainSuffix(Links(m), id, c, j);
    ChainLengthOne(Links(m), c[j], c[j..]);
  }

  /** Following a non-empty link moves one step along the walk. */
  lemma ChainNext(m: map<string, Block>, id: string, c: seq<string>, j: int)
    requires IsChain(Links(m), id, c) && 0 <= j < |c| && c[j] in m && m[c[j]].children != ""
    ensures j + 1 < |c| ==> m[c[j]].children == c[j + 1]
    ensures j + 1 == |c| ==> m[c[j]].children !in m
  {
    ChainSuffix(Links(m), id, c, j);
    ChainLengthOne(Links(m), c[j], c[j..]);
    if j + 1 < |c| {
      ChainTail(Links(m), c[j], c[j..]);
    }
  }
}
