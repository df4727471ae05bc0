/** The block engine of the renderer iteration
    (src/renderer/lib/utils/block.ts) over the workspace's block map.

    Each operation is a method of `Engine`, whose `blocks` field is the
    workspace's current map and `grace` the `timeoutState` flag. Every method
    is proved against a ghost function that states the finished map, and the
    lemmas below those functions state what the source promises about them.
    Walks along `children` carry a ghost `Chain.IsChain` witness: the source
    has no visited guard on them, so they return only on chains that end. */
module RendererBlock {
  import opened Records
  import opened RendererTypes
  import opened Text
  import opened Chain
  import opened Layout

  // ---------------------------------------------------------------- dragging and connecting

  /** handleBlockConnection's writes before the re-layout: the target's old
      parent loses its `children`, then the saved source and target records
      are stored with the new link and the target 40 below the source. */
  function Linked(m: map<string, Block>, s: string, t: string): (r: map<string, Block>)
    requires s in m && t in m
    ensures r.Keys == m.Keys
    ensures s != t ==> r[s] == m[s].(children := t)
    ensures r[t] == m[t].(parentId := s, position := Pos(m[s].position.x, m[s].position.y + Offset))
    ensures var p := m[t].parentId;
      p != "" && p in m && p != s && p != t ==> r[p] == m[p].(children := "")
    ensures forall k :: k in m && k != s && k != t && k != m[t].parentId ==> r[k] == m[k]
  {
    var source := m[s];
    var target := m[t];
    var m1 := if target.parentId != "" && target.parentId in m
      then m[target.parentId := m[target.parentId].(children := "")] else m;
    m1[s := source.(children := t)]
      [t := target.(parentId := s, position := Pos(source.position.x, source.position.y + Offset))]
  }

  /** The cases in which handleBlockConnection links the two blocks. */
  predicate Connectable(m: map<string, Block>, s: string, t: string) {
    s in m && t in m && m[s].children == "" && s != t
  }

  /** handleBlockConnection's finished map. */
  ghost function Connected(m: map<string, Block>, s: string, t: string): (r: map<string, Block>)
    requires Connectable(m, s, t) && HasChain(Links(Linked(m, s, t)), s)
  {
    var m3 := Linked(m, s, t);
    var c := ChainOf(Links(m3), s);
    WalkFacts(m3, s, c);
    Numbered(PlaceBelow(Scaled, m3, c, 0), c, 1)
  }

  /** On success the source names the target as its child and the target the
      source as its parent, the target's former parent (any third block)
      loses its `children`, and no block is added or lost. */
  lemma ConnectedLinks(m: map<string, Block>, s: string, t: string)
    requires Connectable(m, s, t) && HasChain(Links(Linked(m, s, t)), s)
    ensures var r := Connected(m, s, t);
      && r.Keys == m.Keys
      && r[s].children == t && r[t].parentId == s
      && (var p := m[t].parentId; p != "" && p in m && p != s && p != t ==> r[p].children == "")
  {
    var m3 := Linked(m, s, t);
    var c := ChainOf(Links(m3), s);
    WalkFacts(m3, s, c);
    var m4 := PlaceBelow(Scaled, m3, c, 0);
    PlaceBelowSameLinks(Scaled, m3, c, 0);
    NumberedSameLinks(m4, c, 1);
    assert SameLinks(Connected(m, s, t), m3);
  }

  /** On success the target sits 40 below the source, the source stays where
      it was, and the source and target are numbered 1 and 2, the target at
      depth 1, when the target is a real (non-empty) id. */
  lemma ConnectedLayout(m: map<string, Block>, s: string, t: string)
    requires Connectable(m, s, t) && HasChain(Links(Linked(m, s, t)), s)
    ensures var r := Connected(m, s, t);
      && r[s].position == m[s].position
      && r[t].position == Pos(m[s].position.x, m[s].position.y + Offset)
      && (t != "" ==> r[s].zIndex == 1 && r[t].zIndex == 2 && r[t].depth == 1)
  {
    var m3 := Linked(m, s, t);
    var c := ChainOf(Links(m3), s);
    WalkFacts(m3, s, c);
    var m4 := PlaceBelow(Scaled, m3, c, 0);
    assert c[0] !in c[1..];
    PlaceBelowOff(Scaled, m3, c, 0, s);
    NumberedOn(m4, c, 1, 0);
    ChainLengthOne(Links(m3), s, c);
    if t != "" {
      assert Links(m3)[s] == t && !Stops(Links(m3), s);
      ChainTail(Links(m3), s, c);
      assert Stride(Scaled, 0, 1) == Offset;
      PlaceBelowOn(Scaled, m3, c, 0, 1);
      NumberedOn(m4, c, 1, 1);
    } else {
      PlaceBelowOff(Scaled, m3, c, 0, t);
      NumberedOff(m4, c, 1, t);
    }
  }

  // ---------------------------------------------------------------- output

  /** The fold over a block's contents: 'space' entries are skipped, each
      content replaces every `${id}` by its value. */
  function Substitute(template: string, items: seq<Item>): (out: string)
    ensures (forall i :: 0 <= i < |items| ==> items[i].Space?) ==> out == template
    decreases |items|
  {
    if items == [] then template
    else
      var t := match items[0]
        case Space => template
        case Field(c) => ReplaceAll(template, Token(c.id), c.value);
      Substitute(t, items[1..])
  }

  function Render(b: Block): string {
    Substitute(b.output, b.contents)
  }

  /** `filter((block) => block.type !== 'flag')`. */
  function Visible(bs: seq<Block>): (r: seq<Block>)
    ensures |r| <= |bs|
    ensures forall i :: 0 <= i < |r| ==> r[i].kind != Flag
    ensures (forall i :: 0 <= i < |bs| ==> bs[i].kind != Flag) ==> r == bs
  {
    if bs == [] then []
    else if bs[0].kind == Flag then Visible(bs[1..])
    else [bs[0]] + Visible(bs[1..])
  }

  function RenderAll(bs: seq<Block>): (r: seq<string>)
    ensures |r| == |bs|
    ensures forall i :: 0 <= i < |bs| ==> r[i] == Render(bs[i])
  {
    if bs == [] then [] else [Render(bs[0])] + RenderAll(bs[1..])
  }

  /** formatOutput: the non-flag blocks rendered, joined by newlines, trimmed. */
  function FormatOutput(bs: seq<Block>): (out: string)
    ensures |out| > 0 ==> !IsSpace(out[0]) && !IsSpace(out[|out| - 1])
    ensures Visible(bs) == [] ==> out == ""
  {
    Trim(Join(RenderAll(Visible(bs)), "\n"))
  }

  lemma {:induction false} VisibleAppend(a: seq<Block>, b: seq<Block>)
    ensures Visible(a + b) == Visible(a) + Visible(b)
    decreases |a|
  {
    if a == [] {
      assert a + b == b;
    } else {
      assert (a + b)[0] == a[0];
      assert (a + b)[1..] == a[1..] + b;
      VisibleAppend(a[1..], b);
    }
  }

  lemma VisibleSkipsFlag(a: seq<Block>, f: Block, b: seq<Block>)
    requires f.kind == Flag
    ensures Visible(a + [f] + b) == Visible(a + b)
  {
    assert a + [f] + b == a + ([f] + b);
    assert ([f] + b)[1..] == b;
    VisibleAppend(a, [f] + b);
    VisibleAppend(a, b);
  }

  /** Flag blocks contribute nothing, wherever they stand. */
  lemma FormatOutputSkipsFlag(a: seq<Block>, f: Block, b: seq<Block>)
    requires f.kind == Flag
    ensures FormatOutput(a + [f] + b) == FormatOutput(a + b)
  {
    VisibleSkipsFlag(a, f, b);
  }

  /** One visible block's output is its substituted template, trimmed; one
      without content items contributes its template unchanged. */
  lemma FormatOutputSingle(b: Block)
    requires b.kind != Flag
    ensures FormatOutput([b]) == Trim(Render(b))
    ensures (forall i :: 0 <= i < |b.contents| ==> b.contents[i].Space?) ==> FormatOutput([b]) == Trim(b.output)
  {
  }

  /** A further visible block adds a newline and its text before trimming. */
  lemma FormatOutputSnoc(bs: seq<Block>, x: Block)
    requires Visible(bs) != [] && x.kind != Flag
    ensures FormatOutput(bs + [x]) == Trim(Join(RenderAll(Visible(bs)), "\n") + "\n" + Render(x))
  {
    VisibleAppend(bs, [x]);
    assert Visible([x]) == [x];
    var v := Visible(bs);
    assert Visible(bs + [x]) == v + [x];
    assert RenderAll(v + [x]) == RenderAll(v) + [Render(x)];
    JoinSnoc(RenderAll(v), Render(x), "\n");
  }


  /** handleBlockConnection's writes keep every block under its own id. */
  lemma LinkedKeysAgree(m: map<string, Block>, s: string, t: string)
    requires KeysAgree(m) && Connectable(m, s, t)
    ensures KeysAgree(Linked(m, s, t))
  {
  }

  // ---------------------------------------------------------------- the engine

  class Engine {
    /** The workspace's block map. */
    var blocks: map<string, Block>
    /** `timeoutState`: raised while a dragged block leaves its parent. */
    var grace: bool

    predicate Valid()
      reads this
    {
      KeysAgree(blocks)
    }

    constructor (initial: map<string, Block>)
      requires KeysAgree(initial)
      ensures Valid() && blocks == initial && !grace
    {
      blocks := initial;
      grace := false;
    }

    /** updateChildrenPositions: the k-th block of the walk below `b` goes to
        (b.x, b.y + 40·k); the loop stops at an empty or missing child. */
    method UpdateChildrenPositions(b: Block, ghost c: seq<string>)
      requires Valid() && WalkBelow(blocks, b, c)
      modifies this
      ensures Valid() && grace == old(grace)
      ensures Stored(old(blocks), c) && blocks == Stacked(old(blocks), b.position.x, b.position.y, c)
    {
      blocks := StackChildren(blocks, b, c);
    }

    /** updateChildrenPositions' loop, on the store's map `m`: each child
        read from the store is written back `currentOffset` below `b`. */
    static method StackChildren(m: map<string, Block>, b: Block, ghost c: seq<string>) returns (r: map<string, Block>)
      requires KeysAgree(m) && WalkBelow(m, b, c)
      ensures Stored(m, c) && KeysAgree(r) && r == Stacked(m, b.position.x, b.position.y, c)
    {
      if b.children != "" {
        WalkStored(m, b.children, c);
      }
      var x, y := b.position.x, b.position.y;
      ghost var goal := Stacked(m, x, y, c);
      r := m;
      var current := b;
      var currentOffset := Offset;
      ghost var rest := c;
      ghost var top := y;
      while current.children != ""
        invariant KeysAgree(r) && WalkBelow(r, current, rest) && Stored(r, rest)
        invariant top == y + currentOffset - Offset
        invariant Stacked(r, x, top, rest) == goal
        decreases |rest|
      {
        if current.children !in r {
          break;
        }
        var child := r[current.children];
        child := child.(position := Pos(x, y + currentOffset));
        StackStep(r, current, child, x, top, rest);
        r := r[child.id := child];
        current := child;
        currentOffset := currentOffset + Offset;
        rest := rest[1..];
        top := child.position.y;
      }
    }

    /** updateZIndex: the walk from `id` is numbered 1, 2, 3, … in walk order. */
    method UpdateZIndex(id: string, ghost c: seq<string>)
      requires Valid() && IsChain(Links(blocks), id, c)
      modifies this
      ensures Valid() && grace == old(grace)
      ensures Stored(old(blocks), c) && blocks == Numbered(old(blocks), c, 1)
    {
      var sorted := blocks;
      var numbered, _ := NumberChain(sorted, id, 1, c);
      NumberedKeysAgree(sorted, c, 1);
      blocks := numbered;
    }

    /** updateZIndex's `updateBlockZIndex`, on the re-ordered copy `sorted`
        whose entries it numbers from `index` on. */
    static method NumberChain(sorted: map<string, Block>, id: string, index: int, ghost c: seq<string>)
      returns (numbered: map<string, Block>, next: int)
      requires IsChain(Links(sorted), id, c)
      ensures Stored(sorted, c) && numbered == Numbered(sorted, c, index)
      ensures next == index + |c|
      decreases |c|
    {
      WalkStored(sorted, id, c);
      if id !in sorted {
        return sorted, index;
      }
      var block := sorted[id].(zIndex := index);
      LinksSameUpdate(sorted, id, block);
      numbered := sorted[id := block];
      next := index + 1;
      ghost var rest: seq<string> := if |c| >= 2 then c[1..] else [];
      if |c| >= 2 {
        ChainTail(Links(sorted), id, c);
      } else {
        ChainLengthOne(Links(sorted), id, c);
      }
      if block.children != "" {
        numbered, next := NumberChain(numbered, block.children, next, rest);
      }
      assert c == [id] + rest;
    }

    /** updateBlockPositions: every block of the walk below `id` is placed
        under its parent, the root staying where it is. */
    method UpdateBlockPositions(id: string, ghost c: seq<string>)
      requires Valid() && IsChain(Links(blocks), id, c)
      modifies this
      ensures Valid() && grace == old(grace)
      ensures Stored(old(blocks), c)
      ensures blocks == PlaceBelow(Scaled, old(blocks), c, 0)
    {
      WalkStored(blocks, id, c);
      if id !in blocks {
        return;
      }
      blocks := PlaceChildren(blocks, id, 0, c);
    }

    /** updateBlockPositions' inner `updateChildrenPositions(parentId, depth)`,
        on the store's map `m`: the child goes under its parent and takes the
        next depth, then the recursion goes on from the child. */
    static method PlaceChildren(m: map<string, Block>, parentId: string, depth: int, ghost c: seq<string>)
      returns (r: map<string, Block>)
      requires KeysAgree(m) && IsChain(Links(m), parentId, c)
      ensures Stored(m, c) && KeysAgree(r)
      ensures r == PlaceBelow(Scaled, m, c, depth)
      decreases |c|
    {
      PlaceStep(Scaled, m, parentId, depth, c);
      if parentId !in m {
        return m;
      }
      var parent := m[parentId];
      if parent.children == "" || parent.children !in m {
        return m;
      }
      var child := m[parent.children];
      child := child.(position := Pos(parent.position.x, parent.position.y + 40 * (depth + 1)), depth := depth + 1);
      r := PlaceChildren(m[child.id := child], child.id, depth + 1, c[1..]);
    }

    /** removeBlock's `removeChildren`: deletes the walk from `id`, the
        deepest block first. */
    method RemoveChildren(id: string, ghost c: seq<string>)
      requires IsChain(Links(blocks), id, c)
      modifies this
      ensures grace == old(grace)
      ensures blocks == old(blocks) - (set k | k in c)
      decreases |c|
    {
      ghost var rest := RemoveStep(blocks, id, c);
      if id in blocks && blocks[id].children != "" {
        RemoveChildren(blocks[id].children, rest);
      }
      blocks := blocks - {id};
    }

    /** removeBlock: detaches the block from its parent, deletes its walk,
        then re-lays out every remaining block in the map's order `order`. */
    method RemoveBlock(id: string, order: seq<string>)
      requires Valid() && AllChainsEnd(Links(blocks))
      modifies this
      ensures Valid() && grace == old(grace)
      ensures blocks == Removed(old(blocks), id, order)
    {
      if id !in blocks {
        return;
      }
      var block := blocks[id];
      if block.parentId != "" && block.parentId in blocks {
        var parentBlock := blocks[block.parentId];
        blocks := blocks[block.parentId := parentBlock.(children := "")];
      }
      assert blocks == Detached(old(blocks), id);
      ghost var c := RemovedWalk(old(blocks), id);
      RemoveChildren(id, c);
      RemovedUnfold(old(blocks), id, order);
      ghost var m2 := blocks;
      var j := 0;
      while j < |order|
        invariant 0 <= j <= |order|
        invariant Valid() && grace == old(grace) && AllChainsEnd(Links(blocks))
        invariant RelayAll(blocks, order[j..]) == RelayAll(m2, order)
      {
        ghost var ck := RelayStep(blocks, order[j..]);
        UpdateBlockPositions(order[j], ck);
        assert order[j..][1..] == order[j + 1..];
        j := j + 1;
      }
      RelayEnd(blocks, m2, order, id);
      blocks := blocks - {id};
    }

    /** onDragStart: the block leaves its parent, which loses its `children`;
        the grace flag goes up only when there was a parent. */
    method OnDragStart(id: string)
      requires Valid()
      modifies this
      ensures Valid()
      ensures id !in old(blocks) ==> blocks == old(blocks) && grace == old(grace)
      ensures id in old(blocks) ==>
        && blocks == DragDetached(old(blocks), id)
        && grace == (old(grace) || old(blocks)[id].parentId != "")
    {
      if id !in blocks {
        return;
      }
      var block := blocks[id];
      if block.parentId != "" {
        grace := true;
        if block.parentId in blocks {
          var parentBlock := blocks[block.parentId];
          parentBlock := parentBlock.(children := "");
          blocks := blocks[parentBlock.id := parentBlock];
        }
        block := blocks[id].(parentId := "");
      }
      blocks := blocks[id := block];
    }

    /** onDragEnd: the grace flag always goes down; with `strict`, every
        trash or block-list element under the mouse (`trashHits` of them)
        removes the block, the first removal doing all the work. */
    method OnDragEnd(id: string, strict: bool, trashHits: nat, order: seq<string>)
      requires Valid() && AllChainsEnd(Links(blocks))
      modifies this
      ensures Valid() && !grace
      ensures !strict || trashHits == 0 ==> blocks == old(blocks)
      ensures strict && trashHits > 0 ==> blocks == Removed(old(blocks), id, order)
    {
      grace := false;
      if !strict {
        return;
      }
      var n := 0;
      while n < trashHits
        invariant 0 <= n <= trashHits && Valid() && !grace
        invariant AllChainsEnd(Links(blocks))
        invariant n == 0 ==> blocks == old(blocks)
        invariant n > 0 ==> blocks == Removed(old(blocks), id, order) && id !in blocks
      {
        ghost var before := blocks;
        RemovedChainsEnd(before, id, order);
        RemovedShape(before, id, order);
        RemoveBlock(id, order);
        n := n + 1;
      }
    }

    /** handleBlockConnection's writes, on the store's map `m`: the target's
        old parent loses its `children`, then the copies of source and target
        taken before it are stored with the new link. */
    static method Link(m: map<string, Block>, s: string, t: string) returns (r: map<string, Block>)
      requires KeysAgree(m) && Connectable(m, s, t)
      ensures KeysAgree(r) && r == Linked(m, s, t)
    {
      var sourceBlock := m[s];
      var targetBlock := m[t];
      r := m;
      if targetBlock.parentId != "" && targetBlock.parentId in r {
        var oldParent := r[targetBlock.parentId];
        oldParent := oldParent.(children := "");
        r := r[oldParent.id := oldParent];
      }
      sourceBlock := sourceBlock.(children := t);
      targetBlock := targetBlock.(parentId := s, position := Pos(sourceBlock.position.x, sourceBlock.position.y + Offset));
      r := r[s := sourceBlock];
      r := r[t := targetBlock];
      LinkedKeysAgree(m, s, t);
    }

    /** handleBlockConnection: links `s` to `t` and re-lays out and renumbers
        the walk from `s`, or returns false, changing nothing. The ghost
        precondition says the new links from `s` end, without which the
        source's re-layout recursion never returns. */
    method HandleBlockConnection(s: string, t: string) returns (ok: bool)
      requires Valid()
      requires Connectable(blocks, s, t) ==> HasChain(Links(Linked(blocks, s, t)), s)
      modifies this
      ensures Valid() && grace == old(grace)
      ensures ok <==> Connectable(old(blocks), s, t)
      ensures !ok ==> blocks == old(blocks)
      ensures ok ==> blocks == Connected(old(blocks), s, t)
    {
      if s !in blocks || t !in blocks {
        return false;
      }
      var sourceBlock := blocks[s];
      var targetBlock := blocks[t];
      if sourceBlock.children != "" || t == s {
        return false;
      }
      blocks := Link(blocks, s, t);
      ghost var c := ChainOf(Links(blocks), s);
      ConnectStep(blocks, s, c);
      UpdateBlockPositions(s, c);
      UpdateZIndex(s, c);
      ok := true;
    }
  }
}
