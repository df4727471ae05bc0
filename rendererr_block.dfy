/** The block engine of the rendererr iteration
    (src/rendererr/lib/utils/block.ts) over the block store's map of
    `BlockType` records, linked by `childId` (the record's `children`) and
    `parentId`.

    The store this file is written against (`BlockStore.getInstance()`, whose
    `updateBlock` takes a partial record) is not part of this model. Its
    operations are taken as follows: `getBlock` returns the stored record
    itself, so a write through it is seen by every later read;
    `updateBlock(id, fields)` gives the stored record those fields;
    `removeBlock` deletes the key; `getBlocks` yields the stored records in
    the store's order, a parameter `order` here. */
module RendererrBlock {
  import opened Records
  import opened BlockTypes
  import opened Text
  import opened Chain
  import opened Layout
  import opened BlockUtils

  // ---------------------------------------------------------------- connecting

  /** handleBlockConnection's writes: the target's old parent loses its
      `childId`, then the copies of source and target taken before that
      (`structuredClone`) are stored with the new link. The target is not
      moved here; updateBlockPositions moves it. */
  function Linked(m: map<string, BlockType>, s: string, t: string): (r: map<string, BlockType>)
    requires s in m && t in m
    ensures r.Keys == m.Keys
  {
    var source := m[s];
    var target := m[t];
    var m1 := if target.parentId != "" && target.parentId in m
      then m[target.parentId := m[target.parentId].(children := "")] else m;
    m1[s := source.(children := t)][t := target.(parentId := s)]
  }

  /** The cases in which handleBlockConnection links the two blocks: both
      stored, the source without a child, and two different blocks. */
  predicate Connectable(m: map<string, BlockType>, s: string, t: string) {
    s in m && t in m && m[s].children == "" && s != t
  }

  /** handleBlockConnection's finished map: after the writes, the walk from
      the source is placed under it and numbered from 1. */
  ghost function Connected(m: map<string, BlockType>, s: string, t: string): (r: map<string, BlockType>)
    requires Connectable(m, s, t) && HasChain(Links(Linked(m, s, t)), s)
  {
    var m3 := Linked(m, s, t);
    var c := ChainOf(Links(m3), s);
    WalkFacts(m3, s, c);
    Numbered(PlaceBelow(Scaled, m3, c, 0), c, 1)
  }

  /** The records the writes leave: the source names the target, the target
      names the source, the target's former parent (a third block) has lost
      its `childId`, and every other block is as it was. A target that was
      its own parent gets its old `childId` back from its copy. */
  lemma LinkedShape(m: map<string, BlockType>, s: string, t: string)
    requires Connectable(m, s, t)
    ensures var r := Linked(m, s, t);
      var p := m[t].parentId;
      && r[s] == m[s].(children := t)
      && r[t] == m[t].(parentId := s)
      && (p != "" && p in m && p != s && p != t ==> r[p] == m[p].(children := ""))
      && (forall k :: k in m && k != s && k != t && k != p ==> r[k] == m[k])
  {
  }

  /** The re-layout and the renumbering keep every link of the writes. */
  lemma ConnectedSameLinks(m: map<string, BlockType>, s: string, t: string)
    requires Connectable(m, s, t) && HasChain(Links(Linked(m, s, t)), s)
    ensures SameLinks(Connected(m, s, t), Linked(m, s, t))
  {
    var m3 := Linked(m, s, t);
    var c := ChainOf(Links(m3), s);
    WalkFacts(m3, s, c);
    PlaceBelowSameLinks(Scaled, m3, c, 0);
    NumberedSameLinks(PlaceBelow(Scaled, m3, c, 0), c, 1);
  }

  /** On success the link is symmetric (`source.childId = target`,
      `target.parentId = source`), the target's former parent loses its
      `childId`, and every other block keeps its links. */
  lemma ConnectedLinks(m: map<string, BlockType>, s: string, t: string)
    requires Connectable(m, s, t) && HasChain(Links(Linked(m, s, t)), s)
    ensures var r := Connected(m, s, t);
      var p := m[t].parentId;
      && r.Keys == m.Keys
      && r[s].children == t && r[t].parentId == s
      && (p != "" && p in m && p != s && p != t ==> r[p].children == "")
      && (forall k :: k in m && k != s && k != t && k != p ==>
            r[k].children == m[k].children && r[k].parentId == m[k].parentId)
  {
    ConnectedSameLinks(m, s, t);
    LinkedShape(m, s, t);
  }

  /** On success with a real target id, the walk from the source starts
      source, target; the source keeps its record apart from the link and
      z-index 1; the k-th block after it sits at depth k, 20·k·(k+1) below
      it (offsets 40, 80, 120, … added up), with z-index k+1; every block
      off the walk keeps its written record. */
  lemma ConnectedLayout(m: map<string, BlockType>, s: string, t: string)
    requires Connectable(m, s, t) && HasChain(Links(Linked(m, s, t)), s) && t != ""
    ensures var m3 := Linked(m, s, t);
      var c := ChainOf(Links(m3), s);
      var r := Connected(m, s, t);
      var src := m[s].position;
      && Stored(m3, c) && |c| >= 2 && c[0] == s && c[1] == t
      && r[s] == m[s].(children := t, zIndex := 1)
      && (forall i :: 1 <= i < |c| ==>
            r[c[i]] == m3[c[i]].(position := Pos(src.x, src.y + 20 * i * (i + 1)), depth := i, zIndex := i + 1))
      && (forall k :: k in m && k !in c ==> r[k] == m3[k])
  {
    var m3 := Linked(m, s, t);
    var c := ChainOf(Links(m3), s);
    WalkFacts(m3, s, c);
    ChainDistinct(Links(m3), s, c);
    ChainLengthOne(Links(m3), s, c);
    assert !Stops(Links(m3), s);
    ChainTail(Links(m3), s, c);
    ConnectedLayoutOf(m3, c, m[s].position.x, m[s].position.y);
    assert m3[s] == m[s].(children := t);
  }

  /** The layout of a placed and numbered walk, from its head at (x, y). */
  lemma ConnectedLayoutOf(m3: map<string, BlockType>, c: seq<string>, x: int, y: int)
    requires Stored(m3, c) && Distinct(c) && |c| >= 1 && m3[c[0]].position == Pos(x, y)
    ensures var r := Numbered(PlaceBelow(Scaled, m3, c, 0), c, 1);
      && r[c[0]] == m3[c[0]].(zIndex := 1)
      && (forall i :: 1 <= i < |c| ==>
            r[c[i]] == m3[c[i]].(position := Pos(x, y + 20 * i * (i + 1)), depth := i, zIndex := i + 1))
      && (forall k :: k in m3 && k !in c ==> r[k] == m3[k])
  {
    var m4 := PlaceBelow(Scaled, m3, c, 0);
    var r := Numbered(m4, c, 1);
    assert c[0] !in c[1..];
    PlaceBelowOff(Scaled, m3, c, 0, c[0]);
    NumberedOn(m4, c, 1, 0);
    forall i | 1 <= i < |c|
      ensures r[c[i]] == m3[c[i]].(position := Pos(x, y + 20 * i * (i + 1)), depth := i, zIndex := i + 1)
    {
      StrideScaledFromRoot(i);
      PlaceBelowOn(Scaled, m3, c, 0, i);
      NumberedOn(m4, c, 1, i);
    }
    forall k | k in m3 && k !in c
      ensures r[k] == m3[k]
    {
      assert k !in c[1..];
      PlaceBelowOff(Scaled, m3, c, 0, k);
      NumberedOff(m4, c, 1, k);
    }
  }

  /** handleBlockConnection's writes keep every block under its own id. */
  lemma LinkedKeysAgree(m: map<string, BlockType>, s: string, t: string)
    requires KeysAgree(m) && Connectable(m, s, t)
    ensures KeysAgree(Linked(m, s, t))
  {
  }

  // ---------------------------------------------------------------- handleConnections

  /** The calls handleBlockConnection(hit, id) that handleConnections makes for
      the ids `hits` of the output elements overlapping an input element,
      taken in iteration order: a missing id ("") and the dragged block's own
      id are skipped. */
  function Attempts(hits: seq<string>, id: string): (a: seq<string>)
    ensures forall i :: 0 <= i < |a| ==> a[i] != "" && a[i] != id
    ensures |a| <= |hits|
  {
    if hits == [] then []
    else if hits[0] == "" || hits[0] == id then Attempts(hits[1..], id)
    else [hits[0]] + Attempts(hits[1..], id)
  }

  /** An id is attempted exactly when it is among the hits, is not "" and is
      not the dragged block. */
  lemma {:induction false} AttemptsMembers(hits: seq<string>, id: string, s: string)
    ensures s in Attempts(hits, id) <==> s in hits && s != "" && s != id
    decreases |hits|
  {
    if hits != [] {
      AttemptsMembers(hits[1..], id, s);
      assert hits == [hits[0]] + hits[1..];
    }
  }

  /** The connection from `s` to `t` ends: the source's walk after the writes
      ends whenever the pair is connectable. */
  ghost predicate AttemptEnds(m: map<string, BlockType>, s: string, t: string) {
    Connectable(m, s, t) ==> HasChain(Links(Linked(m, s, t)), s)
  }

  /** handleBlockConnection(s, t)'s finished map. */
  ghost function Attempt(m: map<string, BlockType>, s: string, t: string): (r: map<string, BlockType>)
    requires AttemptEnds(m, s, t)
  {
    if Connectable(m, s, t) then Connected(m, s, t) else m
  }

  /** Every attempted connection ends, each on the map the previous ones left. */
  ghost predicate AttemptsEnd(m: map<string, BlockType>, a: seq<string>, id: string)
    decreases |a|
  {
    a == [] || (AttemptEnds(m, a[0], id) && AttemptsEnd(Attempt(m, a[0], id), a[1..], id))
  }

  /** The map the attempted connections leave. */
  ghost function AttemptAll(m: map<string, BlockType>, a: seq<string>, id: string): (r: map<string, BlockType>)
    requires AttemptsEnd(m, a, id)
    decreases |a|
  {
    if a == [] then m else AttemptAll(Attempt(m, a[0], id), a[1..], id)
  }

  // ---------------------------------------------------------------- output

  /** formatOutput's fold over a block's contents, branch by branch: a
      separator returns at once, a 'value' entry replaces every `${id}` by
      its value, a select entry falls through both tests. */
  function Fill(template: string, items: seq<BlockContent>): (out: string)
    ensures (forall i :: 0 <= i < |items| ==> !items[i].content.ValueContent?) ==> out == template
    decreases |items|
  {
    if items == [] then template
    else
      var t := match items[0].content
        case SeparatorContent(_) => template
        case ValueContent(_, value, _) => ReplaceAll(template, Token(items[0].id), value)
        case SelectContent(_, _, _, _) => template;
      Fill(t, items[1..])
  }

  /** The rendererr fold computes blockUtils' substitution. */
  lemma {:induction false} FillSubstitutes(template: string, items: seq<BlockContent>)
    ensures Fill(template, items) == Substitute(template, items)
    decreases |items|
  {
    if items != [] {
      var t := if items[0].content.ValueContent?
        then ReplaceAll(template, Token(items[0].id), items[0].content.value)
        else template;
      FillSubstitutes(t, items[1..]);
    }
  }

  function FillAll(bs: seq<BlockType>): (r: seq<string>)
    ensures |r| == |bs|
    ensures forall i :: 0 <= i < |bs| ==> r[i] == Fill(bs[i].output, bs[i].contents)
  {
    if bs == [] then [] else [Fill(bs[0].output, bs[0].contents)] + FillAll(bs[1..])
  }

  /** formatOutput's text, the value `output.set` receives: the non-flag
      blocks filled, joined by newlines, trimmed. */
  function FormatOutput(bs: seq<BlockType>): (out: string)
    ensures |out| > 0 ==> !IsSpace(out[0]) && !IsSpace(out[|out| - 1])
    ensures Visible(bs) == [] ==> out == ""
  {
    Trim(Join(FillAll(Visible(bs)), "\n"))
  }

  /** formatOutput's text is blockUtils' formatBlockOutput of the same list,
      so it drops flag blocks, substitutes only 'value' entries and is
      trimmed (BlockUtils.FormatBlockOutputSkipsFlag, FormatBlockOutputSingle,
      FormatBlockOutputSnoc). */
  lemma FormatOutputAgrees(bs: seq<BlockType>)
    ensures FormatOutput(bs) == FormatBlockOutput(bs)
  {
    var v := Visible(bs);
    forall i | 0 <= i < |v|
      ensures FillAll(v)[i] == RenderAll(v)[i]
    {
      FillSubstitutes(v[i].output, v[i].contents);
    }
    assert FillAll(v) == RenderAll(v);
  }

  // ---------------------------------------------------------------- the engine

  class Engine {
    /** The block store's map. */
    var blocks: map<string, BlockType>
    /** `timeoutState`: raised while a dragged block leaves its parent. */
    var grace: bool

    predicate Valid()
      reads this
    {
      KeysAgree(blocks)
    }

    constructor (initial: map<string, BlockType>)
      requires KeysAgree(initial)
      ensures Valid() && blocks == initial && !grace
    {
      blocks := initial;
      grace := false;
    }

    /** removeBlock: an unknown id changes nothing; otherwise the block
        leaves its parent, its `childId` walk is deleted, and every remaining
        block is re-laid out in the store's order `order`. */
    method RemoveBlock(id: string, order: seq<string>)
      requires Valid() && AllChainsEnd(Links(blocks))
      modifies this
      ensures Valid() && grace == old(grace)
      ensures blocks == Removed(old(blocks), id, order)
    {
      if id !in blocks {
        return;
      }
      var block := blocks[id];
      if block.parentId != "" && block.parentId in blocks {
        var parentBlock := blocks[block.parentId];
        parentBlock := parentBlock.(children := "");
        blocks := blocks[parentBlock.id := parentBlock];
      }
      assert blocks == Detached(old(blocks), id);
      ghost var c := RemovedWalk(old(blocks), id);
      RemoveChildren(id, c);
      RemovedUnfold(old(blocks), id, order);
      ghost var m2 := blocks;
      var j := 0;
      while j < |order|
        invariant 0 <= j <= |order|
        invariant Valid() && grace == old(grace) && AllChainsEnd(Links(blocks))
        invariant RelayAll(blocks, order[j..]) == RelayAll(m2, order)
      {
        ghost var ck := RelayStep(blocks, order[j..]);
        UpdateBlockPositions(order[j], ck);
        assert order[j..][1..] == order[j + 1..];
        j := j + 1;
      }
      RelayEnd(blocks, m2, order, id);
      blocks := blocks - {id};
    }

    /** removeBlock's `removeChildren`: deletes the walk from `id`, the
        deepest block first; a missing id is deleted all the same, which
        changes nothing. */
    method RemoveChildren(id: string, ghost c: seq<string>)
      requires IsChain(Links(blocks), id, c)
      modifies this
      ensures grace == old(grace)
      ensures blocks == old(blocks) - (set k | k in c)
      decreases |c|
    {
      ghost var rest := RemoveStep(blocks, id, c);
      if id in blocks {
        var childBlock := blocks[id];
        if childBlock.children != "" {
          RemoveChildren(childBlock.children, rest);
        }
      }
      blocks := blocks - {id};
    }

    /** onDragStart: a block with a parent leaves it, the parent loses its
        `childId` and the grace flag goes up; a block without one, or an
        unknown id, changes nothing. */
    method OnDragStart(id: string)
      requires Valid()
      modifies this
      ensures Valid()
      ensures id !in old(blocks) || old(blocks)[id].parentId == "" ==> blocks == old(blocks) && grace == old(grace)
      ensures id in old(blocks) && old(blocks)[id].parentId != "" ==> blocks == DragDetached(old(blocks), id) && grace
    {
      if id !in blocks {
        return;
      }
      var block := blocks[id];
      if block.parentId != "" {
        grace := true;
        if block.parentId in blocks {
          var parentBlock := blocks[block.parentId];
          blocks := blocks[parentBlock.id := blocks[parentBlock.id].(children := "")];
        }
        blocks := blocks[block.id := blocks[block.id].(parentId := "")];
      }
    }

    /** onDragEnd: the grace flag always goes down; with `strict`, every
        trash or block-list element under the mouse (`trashHits` of them)
        removes the block, the first removal doing all the work. */
    method OnDragEnd(id: string, strict: bool, trashHits: nat, order: seq<string>)
      requires Valid() && AllChainsEnd(Links(blocks))
      modifies this
      ensures Valid() && !grace
      ensures !strict || trashHits == 0 ==> blocks == old(blocks)
      ensures strict && trashHits > 0 ==> blocks == Removed(old(blocks), id, order)
    {
      grace := false;
      if !strict {
        return;
      }
      var n := 0;
      while n < trashHits
        invariant 0 <= n <= trashHits && Valid() && !grace
        invariant AllChainsEnd(Links(blocks))
        invariant n == 0 ==> blocks == old(blocks)
        invariant n > 0 ==> blocks == Removed(old(blocks), id, order) && id !in blocks
      {
        ghost var before := blocks;
        RemovedChainsEnd(before, id, order);
        RemovedShape(before, id, order);
        RemoveBlock(id, order);
        n := n + 1;
      }
    }

    /** updateChildrenPositions: the k-th block of the walk below `b` goes to
        (b.x, b.y + 40·k); the loop stops at a missing child. */
    method UpdateChildrenPositions(b: BlockType, ghost c: seq<string>)
      requires Valid() && WalkBelow(blocks, b, c)
      modifies this
      ensures Valid() && grace == old(grace)
      ensures Stored(old(blocks), c) && blocks == Stacked(old(blocks), b.position.x, b.position.y, c)
    {
      blocks := FollowChildren(blocks, b, c);
    }

    /** updateChildrenPositions' loop, on the store's map `m`: each child
        takes the position 40 below the block before it, and that child, as
        updated, is the next block. */
    static method FollowChildren(m: map<string, BlockType>, b: BlockType, ghost c: seq<string>) returns (r: map<string, BlockType>)
      requires KeysAgree(m) && WalkBelow(m, b, c)
      ensures Stored(m, c) && KeysAgree(r) && r == Stacked(m, b.position.x, b.position.y, c)
    {
      if b.children != "" {
        WalkStored(m, b.children, c);
      }
      ghost var x := b.position.x;
      ghost var goal := Stacked(m, x, b.position.y, c);
      r := m;
      var currentBlock := b;
      ghost var rest := c;
      while currentBlock.children != ""
        invariant KeysAgree(r) && WalkBelow(r, currentBlock, rest) && Stored(r, rest)
        invariant currentBlock.position.x == x
        invariant Stacked(r, x, currentBlock.position.y, rest) == goal
        decreases |rest|
      {
        if currentBlock.children !in r {
          break;
        }
        var childBlock := r[currentBlock.children];
        var moved := childBlock.(position := Pos(currentBlock.position.x, currentBlock.position.y + Offset));
        StackStep(r, currentBlock, moved, x, currentBlock.position.y, rest);
        r := r[childBlock.id := moved];
        currentBlock := moved;
        rest := rest[1..];
      }
    }

    /** updateZIndex: the walk from `id` is numbered 1, 2, 3, … in walk
        order; no other block changes. */
    method UpdateZIndex(id: string, ghost c: seq<string>)
      requires Valid() && IsChain(Links(blocks), id, c)
      modifies this
      ensures Valid() && grace == old(grace)
      ensures Stored(old(blocks), c) && blocks == Numbered(old(blocks), c, 1)
    {
      var numbered, _ := NumberFrom(blocks, id, 1, c);
      NumberedKeysAgree(blocks, c, 1);
      blocks := numbered;
    }

    /** updateZIndex's `updateBlockZIndex`, on the store's map `m` (the
        sorted copy holds the same records): the block takes the counter's
        value, then the recursion goes on from its `childId`. */
    static method NumberFrom(m: map<string, BlockType>, id: string, currentIndex: int, ghost c: seq<string>)
      returns (r: map<string, BlockType>, next: int)
      requires IsChain(Links(m), id, c)
      ensures Stored(m, c) && r == Numbered(m, c, currentIndex)
      ensures next == currentIndex + |c|
      decreases |c|
    {
      WalkStored(m, id, c);
      if id !in m {
        return m, currentIndex;
      }
      var block := m[id];
      block := block.(zIndex := currentIndex);
      next := currentIndex + 1;
      LinksSameUpdate(m, id, block);
      r := m[id := block];
      ghost var rest: seq<string> := if |c| >= 2 then c[1..] else [];
      if |c| >= 2 {
        ChainTail(Links(m), id, c);
      } else {
        ChainLengthOne(Links(m), id, c);
      }
      if block.children != "" {
        r, next := NumberFrom(r, block.children, next, rest);
      }
      assert c == [id] + rest;
    }

    /** updateBlockPositions: every block of the walk below `id` is placed
        under its parent, the root staying where it is; the final write of
        the root's own record changes nothing. */
    method UpdateBlockPositions(id: string, ghost c: seq<string>)
      requires Valid() && IsChain(Links(blocks), id, c)
      modifies this
      ensures Valid() && grace == old(grace)
      ensures Stored(old(blocks), c)
      ensures blocks == PlaceBelow(Scaled, old(blocks), c, 0)
    {
      WalkStored(blocks, id, c);
      if id !in blocks {
        return;
      }
      var block := blocks[id];
      ChainDistinct(Links(blocks), id, c);
      PlaceBelowOff(Scaled, blocks, c, 0, id);
      blocks := PlaceUnder(blocks, id, 0, c);
      blocks := blocks[id := block];
    }

    /** updateBlockPositions' inner `updateChildrenPositions(parentId, depth)`,
        on the store's map `m`: the child goes 40·(depth + 1) below its
        parent at depth + 1, then the recursion goes on from the child. */
    static method PlaceUnder(m: map<string, BlockType>, parentId: string, depth: int, ghost c: seq<string>)
      returns (r: map<string, BlockType>)
      requires KeysAgree(m) && IsChain(Links(m), parentId, c)
      ensures Stored(m, c) && KeysAgree(r)
      ensures r == PlaceBelow(Scaled, m, c, depth)
      decreases |c|
    {
      PlaceStep(Scaled, m, parentId, depth, c);
      if parentId !in m {
        return m;
      }
      var parent := m[parentId];
      if parent.children == "" {
        return m;
      }
      if parent.children !in m {
        return m;
      }
      var child := m[parent.children];
      child := child.(position := Pos(parent.position.x, parent.position.y + 40 * (depth + 1)), depth := depth + 1);
      r := PlaceUnder(m[child.id := child], child.id, depth + 1, c[1..]);
    }

    /** handleBlockConnection's writes, on the store's map `m`. */
    static method Link(m: map<string, BlockType>, s: string, t: string) returns (r: map<string, BlockType>)
      requires KeysAgree(m) && Connectable(m, s, t)
      ensures KeysAgree(r) && r == Linked(m, s, t)
    {
      var sourceBlock := m[s];
      var targetBlock := m[t];
      r := m;
      if targetBlock.parentId != "" && targetBlock.parentId in r {
        var oldParent := r[targetBlock.parentId];
        oldParent := oldParent.(children := "");
        r := r[oldParent.id := oldParent];
      }
      sourceBlock := sourceBlock.(children := t);
      targetBlock := targetBlock.(parentId := s);
      r := r[s := sourceBlock];
      r := r[t := targetBlock];
      LinkedKeysAgree(m, s, t);
    }

    /** handleBlockConnection: links `s` to `t`, then re-lays out and
        renumbers the walk from `s`; or returns false, changing nothing. The
        ghost precondition says the new walk from `s` ends, without which the
        source's recursions never return. */
    method HandleBlockConnection(s: string, t: string) returns (ok: bool)
      requires Valid() && AttemptEnds(blocks, s, t)
      modifies this
      ensures Valid() && grace == old(grace)
      ensures ok <==> Connectable(old(blocks), s, t)
      ensures blocks == Attempt(old(blocks), s, t)
    {
      if s !in blocks || t !in blocks {
        return false;
      }
      var sourceBlock := blocks[s];
      if sourceBlock.children != "" || t == s {
        return false;
      }
      blocks := Link(blocks, s, t);
      ghost var c := ChainOf(Links(blocks), s);
      ConnectStep(blocks, s, c);
      UpdateBlockPositions(s, c);
      UpdateZIndex(s, c);
      ok := true;
    }

    /** handleConnections for the dragged block `id`: nothing while the grace
        flag is up or the workspace element is missing (`spaceReady`);
        otherwise handleBlockConnection(hit, id) for every overlapping output
        id `hit` in `hits` but "" and `id` itself. `tried` lists the sources
        of the calls made. */
    method HandleConnections(id: string, spaceReady: bool, hits: seq<string>) returns (tried: seq<string>)
      requires Valid() && (spaceReady && !grace ==> AttemptsEnd(blocks, Attempts(hits, id), id))
      modifies this
      ensures Valid() && grace == old(grace)
      ensures !spaceReady || old(grace) ==> tried == [] && blocks == old(blocks)
      ensures spaceReady && !old(grace) ==> tried == Attempts(hits, id) && blocks == AttemptAll(old(blocks), tried, id)
    {
      tried := [];
      if !spaceReady || grace {
        return;
      }
      ghost var goal := AttemptAll(blocks, Attempts(hits, id), id);
      ghost var rest := Attempts(hits, id);
      assert hits[0..] == hits;
      var j := 0;
      while j < |hits|
        invariant 0 <= j <= |hits| && Valid() && grace == old(grace)
        invariant rest == Attempts(hits[j..], id)
        invariant tried + rest == Attempts(hits, id)
        invariant AttemptsEnd(blocks, rest, id)
        invariant AttemptAll(blocks, rest, id) == goal
      {
        var targetId := hits[j];
        AttemptsStep(hits, id, j);
        if targetId != "" && targetId != id {
          var _ := HandleBlockConnection(targetId, id);
          assert tried + rest == (tried + [targetId]) + rest[1..];
          tried := tried + [targetId];
          rest := rest[1..];
        }
        j := j + 1;
      }
      assert hits[j..] == [];
    }
  }

  /** Attempts over a suffix, one hit at a time. */
  lemma AttemptsStep(hits: seq<string>, id: string, j: nat)
    requires j < |hits|
    ensures Attempts(hits[j..], id) == if hits[j] == "" || hits[j] == id then Attempts(hits[j + 1..], id)
      else [hits[j]] + Attempts(hits[j + 1..], id)
  {
    assert hits[j..][1..] == hits[j + 1..];
  }
}
