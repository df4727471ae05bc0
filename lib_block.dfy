/** The block engine of the lib iteration (src/lib/utils/block.ts).

    Its operations change the records of the workspace map in place
    (`ws.blocks.get(id).children = ''`); the model stores each changed record
    back at once and reads every record again from the map after a write, so
    that two names for one record (a block that is its own parent, a target
    that is its source) see each other's changes as they do in the source.
    `Engine.blocks` is the workspace map and `Engine.grace` the
    `timeoutState` flag. */
module LibBlock {
  import opened Records
  import opened RendererTypes
  import opened Chain
  import opened Layout

  // ---------------------------------------------------------------- adding

  /** addBlock with the fresh id `newId`: the template, copied, under a key
      equal to its new id; every other block as it was. */
  function Added(m: map<string, Block>, template: Block, newId: string): (r: map<string, Block>)
    ensures newId in r && r[newId] == template.(id := newId)
    ensures r.Keys == m.Keys + {newId}
    ensures forall k :: k in m && k != newId ==> r[k] == m[k]
    ensures KeysAgree(m) ==> KeysAgree(r)
  {
    m[newId := template.(id := newId)]
  }

  // ---------------------------------------------------------------- dragging

  /** onDrag's first writes: the block leaves its parent (which loses its
      `children`) and goes to (x, y). */
  function Dropped(m: map<string, Block>, id: string, x: int, y: int): (r: map<string, Block>)
    requires id in m
    ensures r.Keys == m.Keys
  {
    var m1 := DragDetached(m, id);
    m1[id := m1[id].(position := Pos(x, y))]
  }

  lemma DroppedChainsEnd(m: map<string, Block>, id: string, x: int, y: int)
    requires id in m && AllChainsEnd(Links(m))
    ensures AllChainsEnd(Links(Dropped(m, id, x, y)))
  {
    var m1 := DragDetached(m, id);
    DragDetachedPruned(m, id);
    LinksSameUpdate(m1, id, m1[id].(position := Pos(x, y)));
    AllChainsEndPruned(Links(Dropped(m, id, x, y)), Links(m));
  }

  /** The walk below the dropped block. */
  ghost function DragWalk(m: map<string, Block>, id: string, x: int, y: int): (c: seq<string>)
    requires AllChainsEnd(Links(m)) && id in m
    ensures WalkBelow(Dropped(m, id, x, y), Dropped(m, id, x, y)[id], c)
    ensures Stored(Dropped(m, id, x, y), c)
  {
    var m2 := Dropped(m, id, x, y);
    DroppedChainsEnd(m, id, x, y);
    AllChainsWalk(m2, m2[id]);
    var c := WalkOf(m2, m2[id]);
    ChildWalk(m2, m2[id], c);
    c
  }

  /** onDrag's store update: after the drop, each block of the walk below
      the block goes 40 below the one before it. */
  ghost function Followed(m: map<string, Block>, id: string, x: int, y: int): (r: map<string, Block>)
    requires AllChainsEnd(Links(m)) && id in m
    ensures r.Keys == m.Keys
  {
    Stacked(Dropped(m, id, x, y), x, y, DragWalk(m, id, x, y))
  }

  /** The walk the z-order pass takes from the dragged block: the block
      itself, then the walk below it. */
  lemma FollowedChain(m: map<string, Block>, id: string, x: int, y: int)
    requires AllChainsEnd(Links(m)) && id in m
    ensures IsChain(Links(Followed(m, id, x, y)), id, [id] + DragWalk(m, id, x, y))
  {
    var m2 := Dropped(m, id, x, y);
    var c := DragWalk(m, id, x, y);
    WalkHead(m2, id, c);
    StackedLinks(m2, x, y, c);
    SameLinksEqual(Followed(m, id, x, y), m2);
  }

  /** The store update: the block is at (x, y) without a parent, its
      former parent (another block) has no `children`, the k-th block of the
      walk below it sits at (x, y + 40·k), and every other block is as it
      was. */
  lemma FollowedShape(m: map<string, Block>, id: string, x: int, y: int)
    requires AllChainsEnd(Links(m)) && id in m
    ensures var c := DragWalk(m, id, x, y);
      var r := Followed(m, id, x, y);
      var p := m[id].parentId;
      && r[id].position == Pos(x, y) && r[id].parentId == ""
      && (p != "" && p in m && p != id ==> r[p].children == "")
      && (p != "" && p in m && p != id && p !in c ==> r[p] == m[p].(children := ""))
      && (forall i :: 0 <= i < |c| ==> r[c[i]].position == Pos(x, y + Offset * (i + 1)))
      && (forall k :: k in m && k != id && k != p && k !in c ==> r[k] == m[k])
  {
    var m2 := Dropped(m, id, x, y);
    var c := DragWalk(m, id, x, y);
    var p := m[id].parentId;
    StackedBelow(m2, id, x, y, c);
    StackedLinks(m2, x, y, c);
    assert p != "" && p in m && p != id ==> m2[p] == m[p].(children := "");
  }

  /** onDrag's finished map: the store update, then updateZIndex from the
      block, which the listener onDrag subscribes runs at once. */
  ghost function Dragged(m: map<string, Block>, id: string, x: int, y: int): (r: map<string, Block>)
    requires AllChainsEnd(Links(m))
  {
    if id !in m then m
    else
      FollowedChain(m, id, x, y);
      ZIndexed(Followed(m, id, x, y), id, [id] + DragWalk(m, id, x, y))
  }

  lemma DraggedUnfold(m: map<string, Block>, id: string, x: int, y: int)
    requires AllChainsEnd(Links(m)) && id in m
    ensures IsChain(Links(Followed(m, id, x, y)), id, [id] + DragWalk(m, id, x, y))
    ensures Dragged(m, id, x, y) == ZIndexed(Followed(m, id, x, y), id, [id] + DragWalk(m, id, x, y))
  {
    FollowedChain(m, id, x, y);
  }

  /** onDrag: the block is at (x, y) without a parent and at z-index 1, its
      former parent (another block) has no `children`, the k-th block of the
      walk below it sits at (x, y + 40·k) with z-index k+1, and every other
      block is as it was but at z-index 0. */
  lemma DraggedShape(m: map<string, Block>, id: string, x: int, y: int)
    requires AllChainsEnd(Links(m)) && id in m
    ensures var c := DragWalk(m, id, x, y);
      var r := Dragged(m, id, x, y);
      var p := m[id].parentId;
      && r.Keys == m.Keys
      && r[id].position == Pos(x, y) && r[id].parentId == "" && r[id].zIndex == 1
      && (p != "" && p in m && p != id ==> r[p].children == "")
      && (p != "" && p in m && p != id && p !in c ==> r[p] == m[p].(children := "", zIndex := 0))
      && (forall i :: 0 <= i < |c| ==>
            r[c[i]].position == Pos(x, y + Offset * (i + 1)) && r[c[i]].zIndex == i + 2)
      && (forall k :: k in m && k != id && k != p && k !in c ==> r[k] == m[k].(zIndex := 0))
  {
    var c := DragWalk(m, id, x, y);
    var p := m[id].parentId;
    var r := Dragged(m, id, x, y);
    DraggedRecord(m, id, x, y, id);
    FollowedShape(m, id, x, y);
    if p != "" && p in m && p != id {
      DraggedRecord(m, id, x, y, p);
      if p in c {
        var j :| 0 <= j < |c| && c[j] == p;
        DragWalkIndex(m, id, x, y, j);
      }
    }
    forall i | 0 <= i < |c|
      ensures r[c[i]].position == Pos(x, y + Offset * (i + 1)) && r[c[i]].zIndex == i + 2
    {
      DraggedRecord(m, id, x, y, c[i]);
      DragWalkIndex(m, id, x, y, i);
    }
    forall k | k in m && k != id && k != p && k !in c
      ensures r[k] == m[k].(zIndex := 0)
    {
      DraggedRecord(m, id, x, y, k);
    }
  }

  /** Each record onDrag leaves is the store update's record with its new
      z-index. */
  lemma DraggedRecord(m: map<string, Block>, id: string, x: int, y: int, k: string)
    requires AllChainsEnd(Links(m)) && id in m && k in m
    ensures var c := DragWalk(m, id, x, y);
      var m3 := Followed(m, id, x, y);
      var r := Dragged(m, id, x, y);
      && r.Keys == m.Keys
      && (k == id ==> r[k] == m3[k].(zIndex := 1))
      && (k != id && k !in c ==> r[k] == m3[k].(zIndex := 0))
  {
    var c := DragWalk(m, id, x, y);
    DraggedUnfold(m, id, x, y);
    ZIndexedPrefix(Followed(m, id, x, y), id, c);
  }

  /** The i-th block of the walk below the dragged block gets z-index i+2. */
  lemma DragWalkIndex(m: map<string, Block>, id: string, x: int, y: int, i: nat)
    requires AllChainsEnd(Links(m)) && id in m && i < |DragWalk(m, id, x, y)|
    ensures var c := DragWalk(m, id, x, y);
      var m3 := Followed(m, id, x, y);
      c[i] in m3 && Dragged(m, id, x, y)[c[i]] == m3[c[i]].(zIndex := i + 2)
  {
    var c := DragWalk(m, id, x, y);
    DraggedUnfold(m, id, x, y);
    ZIndexedPrefix(Followed(m, id, x, y), id, c);
  }

  /** Numbering a chain that starts with `id`: 1 for `id`, k+1 for the k-th
      block after it and 0 for every other block; only z-indices change. */
  lemma ZIndexedPrefix(m: map<string, Block>, id: string, c: seq<string>)
    requires id in m && IsChain(Links(m), id, [id] + c)
    ensures var r := ZIndexed(m, id, [id] + c);
      && r.Keys == m.Keys
      && r[id] == m[id].(zIndex := 1) && Stored(m, c)
      && (forall i :: 0 <= i < |c| ==> r[c[i]] == m[c[i]].(zIndex := i + 2))
      && (forall k :: k in m && k != id && k !in c ==> r[k] == m[k].(zIndex := 0))
  {
    var cs := [id] + c;
    ZIndexedShape(m, id, cs);
    assert cs[0] == id;
    forall i | 0 <= i < |c|
      ensures cs[i + 1] == c[i]
    {
    }
  }

  /** Stacking the walk below a block leaves that block and every block off
      the walk as they were. */
  lemma StackedBelow(m: map<string, Block>, id: string, x: int, y: int, c: seq<string>)
    requires id in m && WalkBelow(m, m[id], c) && Stored(m, c)
    ensures var r := Stacked(m, x, y, c);
      && r.Keys == m.Keys && r[id] == m[id]
      && (forall i :: 0 <= i < |c| ==> r[c[i]].position == Pos(x, y + Offset * (i + 1)))
      && (forall k :: k in m && k !in c ==> r[k] == m[k])
  {
    ChildWalk(m, m[id], c);
    if m[id].children != "" && m[id].children in m {
      assert !Stops(Links(m), id);
      ChainAvoidsHead(Links(m), id, c);
    }
    assert id !in c;
    StackedLayout(m, x, y, c);
  }

  // ---------------------------------------------------------------- removal

  /** removeBlock's finished map: the block goes, then the block its
      `children` names, and so on; no other record changes. The shrinking
      map makes every call return, even on a circular walk. */
  function Cascade(m: map<string, Block>, id: string): (r: map<string, Block>)
    decreases m.Keys
  {
    if id !in m then m
    else if m[id].children == "" then m - {id}
    else Cascade(m - {id}, m[id].children)
  }

  /** removeBlock deletes the block and changes no remaining record: the
      former parent keeps its stale `children`. */
  lemma {:induction false} CascadeSub(m: map<string, Block>, id: string)
    ensures var r := Cascade(m, id);
      && r.Keys <= m.Keys && id !in r
      && (forall k :: k in r ==> r[k] == m[k])
    decreases m.Keys
  {
    if id in m && m[id].children != "" {
      CascadeSub(m - {id}, m[id].children);
    }
  }

  /** On a walk that ends, removeBlock deletes exactly the blocks of the walk. */
  lemma {:induction false} CascadeChain(m: map<string, Block>, id: string, c: seq<string>)
    requires IsChain(Links(m), id, c)
    ensures Cascade(m, id) == m - (set k | k in c)
    decreases |c|
  {
    if id !in m {
      assert c == [];
      assert m - (set k | k in c) == m;
    } else {
      ChainLengthOne(Links(m), id, c);
      var next := m[id].children;
      if next == "" || next !in m {
        assert c == [id];
        assert (set k | k in c) == {id};
        if next != "" {
          assert Cascade(m - {id}, next) == m - {id};
        }
      } else {
        ChainTail(Links(m), id, c);
        var rest := c[1..];
        ChainDistinct(Links(m), id, c);
        assert id !in rest by {
          forall j | 0 <= j < |rest| ensures rest[j] != id { assert rest[j] == c[j + 1]; }
        }
        ChainWithout(Links(m), id, next, rest);
        assert Links(m) - {id} == Links(m - {id});
        CascadeChain(m - {id}, next, rest);
        assert c == [id] + rest;
        assert (set k | k in c) == {id} + (set k | k in rest);
        assert (m - {id}) - (set k | k in rest) == m - (set k | k in c);
      }
    }
  }

  // ---------------------------------------------------------------- z-order

  /** updateZIndex's first pass: every block at z-index 0. */
  function Zeroed(m: map<string, Block>): (r: map<string, Block>)
    ensures r.Keys == m.Keys
  {
    map k | k in m :: m[k].(zIndex := 0)
  }

  /** updateZIndex's finished map; a missing id changes nothing. */
  ghost function ZIndexed(m: map<string, Block>, id: string, c: seq<string>): (r: map<string, Block>)
    requires IsChain(Links(m), id, c)
  {
    WalkStored(m, id, c);
    if id !in m then m else Numbered(Zeroed(m), c, 1)
  }

  /** updateZIndex on a stored block numbers its walk 1, 2, 3, … in walk
      order and puts every other block at 0; on a missing id it changes
      nothing. */
  lemma ZIndexedShape(m: map<string, Block>, id: string, c: seq<string>)
    requires IsChain(Links(m), id, c)
    ensures id !in m ==> ZIndexed(m, id, c) == m
    ensures id in m ==>
      var r := ZIndexed(m, id, c);
      && r.Keys == m.Keys && Stored(m, c)
      && (forall i :: 0 <= i < |c| ==> r[c[i]] == m[c[i]].(zIndex := i + 1))
      && (forall k :: k in m && k !in c ==> r[k] == m[k].(zIndex := 0))
  {
    WalkFacts(m, id, c);
    if id in m {
      NumberedLayout(Zeroed(m), c, 1);
    }
  }

  // ---------------------------------------------------------------- connecting

  /** The cases in which handleBlockConnection links the two blocks. */
  predicate Connectable(m: map<string, Block>, grace: bool, s: string, t: string) {
    s in m && t in m && !grace && m[s].children == ""
  }

  /** handleBlockConnection's writes before the walk: the target's old parent
      loses its `children`, the source names the target, and the target
      names the source and goes 40 below it. */
  function Linked(m: map<string, Block>, s: string, t: string): (r: map<string, Block>)
    requires s in m && t in m
    ensures r.Keys == m.Keys
  {
    var p := m[t].parentId;
    var m1 := if p != "" && p in m then m[p := m[p].(children := "")] else m;
    var m2 := m1[s := m1[s].(children := t)];
    m2[t := m2[t].(parentId := s, position := Pos(m[s].position.x, m[s].position.y + Offset))]
  }

  /** The walks of handleBlockConnection end: from the target's child (its
      position loop) and from the source (updateZIndex). */
  ghost predicate WalksEnd(m: map<string, Block>, s: string, t: string)
    requires s in m && t in m
  {
    var m3 := Linked(m, s, t);
    HasChain(Links(m3), s) && (m3[t].children == "" || HasChain(Links(m3), m3[t].children))
  }

  /** Connecting a block to itself links it to itself, so the source's walk
      never returns; no call of handleBlockConnection on such a pair ends. */
  lemma SelfConnectionLoops(m: map<string, Block>, s: string)
    requires s in m && s != ""
    ensures !WalksEnd(m, s, s)
  {
    var next := Links(Linked(m, s, s));
    forall c ensures !IsChain(next, s, c) {
      SelfLinkNoChain(next, s, c);
    }
  }

  /** The walk below the target once it is linked. */
  ghost function TargetWalk(m: map<string, Block>, s: string, t: string): (ct: seq<string>)
    requires s in m && t in m && WalksEnd(m, s, t)
    ensures WalkBelow(Linked(m, s, t), Linked(m, s, t)[t], ct) && Stored(Linked(m, s, t), ct)
  {
    var m3 := Linked(m, s, t);
    var ct := WalkOf(m3, m3[t]);
    ChildWalk(m3, m3[t], ct);
    ct
  }

  /** handleBlockConnection's map before the z-order pass: the k-th block of
      the walk below the target sits 40·(k+1) below the source. */
  ghost function Restacked(m: map<string, Block>, s: string, t: string): (r: map<string, Block>)
    requires s in m && t in m && WalksEnd(m, s, t)
    ensures SameLinks(r, Linked(m, s, t)) && Links(r) == Links(Linked(m, s, t))
  {
    var m3 := Linked(m, s, t);
    var ct := TargetWalk(m, s, t);
    var r := Stacked(m3, m[s].position.x, m[s].position.y + Offset, ct);
    StackedLinks(m3, m[s].position.x, m[s].position.y + Offset, ct);
    SameLinksEqual(r, m3);
    r
  }

  lemma RestackedUnfold(m: map<string, Block>, s: string, t: string)
    requires s in m && t in m && WalksEnd(m, s, t)
    ensures Restacked(m, s, t) == Stacked(Linked(m, s, t), m[s].position.x, m[s].position.y + Offset, TargetWalk(m, s, t))
  {
  }

  /** The map the writes `m3` and the stacking from (x, y) leave is the
      restacked map. */
  lemma RestackedFrom(m: map<string, Block>, s: string, t: string, m3: map<string, Block>, r: map<string, Block>, x: int, y: int)
    requires s in m && t in m && WalksEnd(m, s, t)
    requires m3 == Linked(m, s, t) && x == m[s].position.x && y == m[s].position.y
    requires Stored(m3, TargetWalk(m, s, t)) && r == Stacked(m3, x, y + Offset, TargetWalk(m, s, t))
    ensures r == Restacked(m, s, t)
  {
  }

  /** handleBlockConnection's finished map: after the stacking, the
      z-indices are renumbered from the source. */
  ghost function Connected(m: map<string, Block>, s: string, t: string): (r: map<string, Block>)
    requires s in m && t in m && WalksEnd(m, s, t)
  {
    var m4 := Restacked(m, s, t);
    ZIndexed(m4, s, ChainOf(Links(m4), s))
  }

  /** The z-order pass changes no link. */
  lemma ConnectedSameLinks(m: map<string, Block>, s: string, t: string)
    requires s in m && t in m && WalksEnd(m, s, t)
    ensures SameLinks(Connected(m, s, t), Linked(m, s, t))
  {
    var m4 := Restacked(m, s, t);
    var cs := ChainOf(Links(m4), s);
    WalkFacts(m4, s, cs);
    NumberedSameLinks(Zeroed(m4), cs, 1);
  }

  /** On success the source names the target and the target the source, the
      target's former parent (a third block) loses its `children`, and every
      other block keeps its links. */
  lemma ConnectedLinks(m: map<string, Block>, s: string, t: string)
    requires s in m && t in m && WalksEnd(m, s, t)
    ensures var r := Connected(m, s, t);
      var p := m[t].parentId;
      && r.Keys == m.Keys
      && r[s].children == t && r[t].parentId == s
      && (p != "" && p in m && p != s && p != t ==> r[p].children == "")
      && (forall k :: k in m && k != s && k != t && k != p ==>
            r[k].children == m[k].children && r[k].parentId == m[k].parentId)
  {
    ConnectedSameLinks(m, s, t);
    LinkedLinks(m, s, t);
  }

  /** The links handleBlockConnection's writes leave. */
  lemma LinkedLinks(m: map<string, Block>, s: string, t: string)
    requires s in m && t in m
    ensures var r := Linked(m, s, t);
      var p := m[t].parentId;
      && r[s].children == t && r[t].parentId == s
      && (p != "" && p in m && p != s && p != t ==> r[p].children == "")
      && (forall k :: k in m && k != s && k != t && k != p ==>
            r[k].children == m[k].children && r[k].parentId == m[k].parentId)
  {
    if s != t {
      LinkedShape(m, s, t);
    }
  }

  /** The records handleBlockConnection's writes leave: the source names the
      target, the target names the source and sits 40 below it (and has lost
      its `children` when it was its own parent), the target's former parent
      (a third block) has lost its `children`, and the rest are as they were. */
  lemma LinkedShape(m: map<string, Block>, s: string, t: string)
    requires s in m && t in m && s != t
    ensures var r := Linked(m, s, t);
      var p := m[t].parentId;
      var src := m[s].position;
      && r[s] == m[s].(children := t)
      && r[t] == m[t].(children := if p == t && t != "" then "" else m[t].children,
                       parentId := s, position := Pos(src.x, src.y + Offset))
      && (p != "" && p in m && p != s && p != t ==> r[p] == m[p].(children := ""))
      && (forall k :: k in m && k != s && k != t && k != p ==> r[k] == m[k])
  {
  }

  /** Neither the source nor the target is on the walk below the linked
      target. */
  lemma TargetWalkAvoids(m: map<string, Block>, s: string, t: string)
    requires s in m && t in m && WalksEnd(m, s, t) && s != t && t != ""
    ensures var ct := TargetWalk(m, s, t); s !in ct && t !in ct
  {
    var m3 := Linked(m, s, t);
    var ct := TargetWalk(m, s, t);
    ChildWalk(m3, m3[t], ct);
    if m3[t].children != "" && m3[t].children in m3 {
      assert !Stops(Links(m3), t);
      ChainAvoidsHead(Links(m3), t, ct);
      if s in ct {
        var j :| 0 <= j < |ct| && ct[j] == s;
        ChainSuffix(Links(m3), m3[t].children, ct, j);
        LinkedShape(m, s, t);
        ChainTail(Links(m3), s, ct[j..]);
        assert false;
      }
    }
  }

  /** On success the target sits 40 below the source and the k-th block of
      the walk below the target 40·(k+1) below it, all at the source's x;
      the source keeps its place. */
  lemma RestackedLayout(m: map<string, Block>, s: string, t: string)
    requires s in m && t in m && WalksEnd(m, s, t) && s != t && t != ""
    ensures var ct := TargetWalk(m, s, t);
      var r := Restacked(m, s, t);
      var src := m[s].position;
      && r.Keys == m.Keys && Stored(m, ct)
      && r[s].position == src
      && r[t].position == Pos(src.x, src.y + Offset)
      && (forall i :: 0 <= i < |ct| ==> r[ct[i]].position == Pos(src.x, src.y + Offset * (i + 2)))
  {
    var m3 := Linked(m, s, t);
    var ct := TargetWalk(m, s, t);
    ChildWalk(m3, m3[t], ct);
    var src := m[s].position;
    TargetWalkAvoids(m, s, t);
    LinkedShape(m, s, t);
    RestackedUnfold(m, s, t);
    StackedLayout(m3, src.x, src.y + Offset, ct);
  }

  /** The z-order pass walks the source, the target and the walk below it. */
  lemma ConnectedChain(m: map<string, Block>, s: string, t: string)
    requires s in m && t in m && WalksEnd(m, s, t) && s != t && t != ""
    ensures ChainOf(Links(Restacked(m, s, t)), s) == [s, t] + TargetWalk(m, s, t)
  {
    var m3 := Linked(m, s, t);
    var ct := TargetWalk(m, s, t);
    WalkHead(m3, t, ct);
    ChainCons(Links(m3), s, [t] + ct);
    assert [s] + ([t] + ct) == [s, t] + ct;
    ChainUnique(Links(m3), s, ChainOf(Links(Restacked(m, s, t)), s), [s, t] + ct);
  }

  /** On success the source gets z-index 1, the target 2, the k-th block of
      the walk below the target k+2, and every other block 0. */
  lemma ConnectedZOrder(m: map<string, Block>, s: string, t: string)
    requires s in m && t in m && WalksEnd(m, s, t) && s != t && t != ""
    ensures var ct := TargetWalk(m, s, t);
      var r := Connected(m, s, t);
      && r.Keys == m.Keys && Stored(m, ct)
      && r[s].zIndex == 1 && r[t].zIndex == 2
      && (forall i :: 0 <= i < |ct| ==> r[ct[i]].zIndex == i + 3)
      && (forall k :: k in m && k != s && k != t && k !in ct ==> r[k].zIndex == 0)
  {
    var ct := TargetWalk(m, s, t);
    var m4 := Restacked(m, s, t);
    ConnectedChain(m, s, t);
    assert Connected(m, s, t) == ZIndexed(m4, s, [s, t] + ct);
    ZIndexedPair(m4, s, t, ct);
  }

  /** Numbering a chain that starts `s`, `t`: 1 for `s`, 2 for `t`, k+2 for
      the k-th block after them and 0 for every other block. */
  lemma ZIndexedPair(m: map<string, Block>, s: string, t: string, ct: seq<string>)
    requires s in m && t in m && IsChain(Links(m), s, [s, t] + ct)
    ensures var r := ZIndexed(m, s, [s, t] + ct);
      && r.Keys == m.Keys && Stored(m, ct)
      && r[s].zIndex == 1 && r[t].zIndex == 2
      && (forall i :: 0 <= i < |ct| ==> r[ct[i]].zIndex == i + 3)
      && (forall k :: k in m && k != s && k != t && k !in ct ==> r[k].zIndex == 0)
  {
    var cs := [s, t] + ct;
    ZIndexedShape(m, s, cs);
    assert cs[0] == s && cs[1] == t;
    forall i | 0 <= i < |ct|
      ensures cs[i + 2] == ct[i]
    {
    }
  }

  // ---------------------------------------------------------------- the engine

  class Engine {
    /** The workspace's block map. */
    var blocks: map<string, Block>
    /** `timeoutState`: raised while a dragged block leaves its parent. */
    var grace: bool

    predicate Valid()
      reads this
    {
      KeysAgree(blocks)
    }

    constructor (initial: map<string, Block>)
      requires KeysAgree(initial)
      ensures Valid() && blocks == initial && !grace
    {
      blocks := initial;
      grace := false;
    }

    /** addBlock: the template, copied, under the fresh id. */
    method AddBlock(template: Block, newId: string)
      requires Valid()
      modifies this
      ensures Valid() && grace == old(grace)
      ensures blocks == Added(old(blocks), template, newId)
    {
      var newCon := template.(id := newId);
      blocks := blocks[newId := newCon];
    }

    /** onDrag: the store update (the block leaves its parent, goes to
        (x, y), and the walk below it follows, each block 40 below the one
        before), then updateZIndex from the block, which the `subscribe`
        call runs at once. */
    method OnDrag(id: string, x: int, y: int)
      requires Valid() && AllChainsEnd(Links(blocks))
      modifies this
      ensures Valid() && grace == old(grace)
      ensures blocks == Dragged(old(blocks), id, x, y)
    {
      if id !in blocks {
        return;
      }
      ghost var m0 := blocks;
      blocks := DragUpdate(blocks, id, x, y);
      DraggedUnfold(m0, id, x, y);
      UpdateZIndex(id, [id] + DragWalk(m0, id, x, y));
    }

    /** onDrag's `workspace.update`, on the store's map `m`: the block leaves
        its parent and goes to (x, y), and the walk below it follows. */
    static method DragUpdate(m: map<string, Block>, id: string, x: int, y: int) returns (r: map<string, Block>)
      requires KeysAgree(m) && AllChainsEnd(Links(m)) && id in m
      ensures KeysAgree(r) && r == Followed(m, id, x, y)
    {
      r := DetachFromParent(m, id);
      var block := r[id];
      block := block.(position := Pos(x, y));
      r := r[id := block];
      assert r == Dropped(m, id, x, y);
      ghost var c := DragWalk(m, id, x, y);
      r := FollowDown(r, block, c);
    }

    /** onDrag's loop, on the store's map `m`: each child read from the store
        is written back 40 below the block before it. */
    static method FollowDown(m: map<string, Block>, b: Block, ghost c: seq<string>) returns (r: map<string, Block>)
      requires KeysAgree(m) && WalkBelow(m, b, c)
      ensures Stored(m, c) && KeysAgree(r) && r == Stacked(m, b.position.x, b.position.y, c)
    {
      if b.children != "" {
        WalkStored(m, b.children, c);
      }
      ghost var goal := Stacked(m, b.position.x, b.position.y, c);
      r := m;
      var currentBlock := b;
      ghost var rest := c;
      while currentBlock.children != ""
        invariant KeysAgree(r) && WalkBelow(r, currentBlock, rest) && Stored(r, rest)
        invariant currentBlock.position.x == b.position.x
        invariant Stacked(r, b.position.x, currentBlock.position.y, rest) == goal
        decreases |rest|
      {
        if currentBlock.children !in r {
          break;
        }
        var childBlock := r[currentBlock.children];
        childBlock := childBlock.(position := Pos(currentBlock.position.x, currentBlock.position.y + Offset));
        StackStep(r, currentBlock, childBlock, b.position.x, currentBlock.position.y, rest);
        r := r[childBlock.id := childBlock];
        currentBlock := childBlock;
        rest := rest[1..];
      }
    }

    /** onDragStart: nothing when `strict`; otherwise the block leaves its
        parent, which loses its `children`, and the grace flag goes up when
        there was a parent. */
    method OnDragStart(strict: bool, id: string)
      requires Valid()
      modifies this
      ensures Valid()
      ensures strict || id !in old(blocks) ==> blocks == old(blocks) && grace == old(grace)
      ensures !strict && id in old(blocks) ==>
        && blocks == DragDetached(old(blocks), id)
        && grace == (old(grace) || old(blocks)[id].parentId != "")
    {
      if strict {
        return;
      }
      if id !in blocks {
        return;
      }
      if blocks[id].parentId != "" {
        grace := true;
      }
      blocks := DetachFromParent(blocks, id);
    }

    /** The parent link's removal shared by onDrag and onDragStart, on the
        store's map `m`: the parent, when stored, loses its `children`, then
        the block (read again, as it may be its own parent) loses its
        `parentId`; a block without a parent is left alone. */
    static method DetachFromParent(m: map<string, Block>, id: string) returns (r: map<string, Block>)
      requires KeysAgree(m) && id in m
      ensures KeysAgree(r) && r == DragDetached(m, id)
    {
      r := m;
      var block := r[id];
      if block.parentId != "" {
        if block.parentId in r {
          var parentBlock := r[block.parentId];
          parentBlock := parentBlock.(children := "");
          r := r[parentBlock.id := parentBlock];
        }
        block := r[id].(parentId := "");
        r := r[id := block];
      } else {
        assert r[id].(parentId := "") == r[id];
      }
    }

    /** onDragEnd: the grace flag goes down; every trash element under the
        mouse (`trashHits` of them) removes the block, the first removal
        doing all the work. */
    method OnDragEnd(id: string, trashHits: nat)
      requires Valid()
      modifies this
      ensures Valid() && !grace
      ensures trashHits == 0 ==> blocks == old(blocks)
      ensures trashHits > 0 ==> blocks == Cascade(old(blocks), id)
    {
      grace := false;
      var n := 0;
      while n < trashHits
        invariant 0 <= n <= trashHits && Valid() && !grace
        invariant n == 0 ==> blocks == old(blocks)
        invariant n > 0 ==> blocks == Cascade(old(blocks), id) && id !in blocks
      {
        CascadeSub(blocks, id);
        RemoveBlock(id);
        n := n + 1;
      }
    }

    /** removeBlock: deletes the block, then removes the block its
        `children` names. */
    method RemoveBlock(id: string)
      requires Valid()
      modifies this
      ensures Valid() && grace == old(grace)
      ensures blocks == Cascade(old(blocks), id)
      decreases blocks.Keys
    {
      if id !in blocks {
        return;
      }
      var block := blocks[id];
      blocks := blocks - {block.id};
      KeysAgreeRemove(old(blocks), {id});
      if block.children != "" {
        RemoveBlock(block.children);
      }
    }

    /** updateZIndex: on a stored block, every block goes to z-index 0, then
        the walk from the block is numbered 1, 2, 3, …; a missing id changes
        nothing. */
    method UpdateZIndex(id: string, ghost c: seq<string>)
      requires Valid() && IsChain(Links(blocks), id, c)
      modifies this
      ensures Valid() && grace == old(grace)
      ensures blocks == ZIndexed(old(blocks), id, c)
    {
      if id !in blocks {
        return;
      }
      ghost var m := blocks;
      blocks := ZeroAll(blocks);
      assert Links(blocks) == Links(m);
      var numbered, _ := SetZIndex(blocks, id, 1, c);
      NumberedKeysAgree(blocks, c, 1);
      blocks := numbered;
    }

    /** updateZIndex's first loop, on the store's map `m`: every block goes to
        z-index 0. */
    static method ZeroAll(m: map<string, Block>) returns (r: map<string, Block>)
      requires KeysAgree(m)
      ensures r == Zeroed(m)
    {
      r := m;
      var rest := m.Keys;
      while rest != {}
        invariant rest <= m.Keys && r.Keys == m.Keys
        invariant forall k :: k in m ==> r[k] == if k in rest then m[k] else m[k].(zIndex := 0)
        decreases rest
      {
        var k :| k in rest;
        var b := r[k];
        b := b.(zIndex := 0);
        r := r[b.id := b];
        rest := rest - {k};
      }
    }

    /** updateZIndex's `setZIndex`, on the store's map `m`: numbers the walk
        from `id` with the counter `zIndex`, returning the counter's next
        value. */
    static method SetZIndex(m: map<string, Block>, id: string, zIndex: int, ghost c: seq<string>)
      returns (r: map<string, Block>, next: int)
      requires IsChain(Links(m), id, c)
      ensures Stored(m, c) && r == Numbered(m, c, zIndex)
      ensures next == zIndex + |c|
      decreases |c|
    {
      WalkStored(m, id, c);
      if id !in m {
        return m, zIndex;
      }
      var block := m[id];
      block := block.(zIndex := zIndex);
      LinksSameUpdate(m, id, block);
      r := m[id := block];
      next := zIndex + 1;
      ghost var rest: seq<string> := if |c| >= 2 then c[1..] else [];
      if |c| >= 2 {
        ChainTail(Links(m), id, c);
      } else {
        ChainLengthOne(Links(m), id, c);
      }
      if block.children != "" {
        r, next := SetZIndex(r, block.children, next, rest);
      }
      assert c == [id] + rest;
    }

    /** updateBlockPositions: nothing when `strict`; otherwise each block of
        the walk below `id` goes under its parent, 40 + 2·(parent's depth)
        lower, and takes the next depth. */
    method UpdateBlockPositions(strict: bool, id: string, depth: int, ghost c: seq<string>)
      requires Valid() && IsChain(Links(blocks), id, c)
      modifies this
      ensures Valid() && grace == old(grace) && Stored(old(blocks), c)
      ensures strict ==> blocks == old(blocks)
      ensures !strict ==> blocks == PlaceBelow(Staggered, old(blocks), c, depth)
    {
      WalkStored(blocks, id, c);
      if strict {
        return;
      }
      blocks := PlaceFrom(blocks, id, depth, c);
    }

    /** updateBlockPositions' recursion, on the store's map `m`: the child
        goes `offsetY` below the block and takes the next depth, then the
        recursion goes on from the child. */
    static method PlaceFrom(m: map<string, Block>, id: string, depth: int, ghost c: seq<string>)
      returns (r: map<string, Block>)
      requires KeysAgree(m) && IsChain(Links(m), id, c)
      ensures Stored(m, c) && KeysAgree(r)
      ensures r == PlaceBelow(Staggered, m, c, depth)
      decreases |c|
    {
      PlaceStep(Staggered, m, id, depth, c);
      if id !in m {
        return m;
      }
      var block := m[id];
      var offsetY := Offset + depth * 2;
      if block.children == "" || block.children !in m {
        return m;
      }
      var childBlock := m[block.children];
      childBlock := childBlock.(position := Pos(block.position.x, block.position.y + offsetY), depth := depth + 1);
      assert childBlock == PlacedChild(Staggered, m, id, block.children, depth);
      r := PlaceFrom(m[block.children := childBlock], block.children, depth + 1, c[1..]);
    }

    /** handleBlockConnection's writes, on the store's map `m`. */
    static method Link(m: map<string, Block>, s: string, t: string) returns (r: map<string, Block>)
      requires KeysAgree(m) && s in m && t in m
      ensures KeysAgree(r) && r == Linked(m, s, t)
    {
      r := m;
      var targetBlock := r[t];
      if targetBlock.parentId != "" && targetBlock.parentId in r {
        var oldParent := r[targetBlock.parentId];
        oldParent := oldParent.(children := "");
        r := r[oldParent.id := oldParent];
      }
      var sourceBlock := r[s];
      sourceBlock := sourceBlock.(children := t);
      r := r[s := sourceBlock];
      targetBlock := r[t];
      targetBlock := targetBlock.(parentId := s, position := Pos(sourceBlock.position.x, sourceBlock.position.y + Offset));
      r := r[t := targetBlock];
    }

    /** handleBlockConnection's loop, on the store's map `m`: each child read
        from the store is written back `currentOffset` below the source's
        place (sx, sy), the offset growing by 40 before each. */
    static method FollowSource(m: map<string, Block>, target: Block, sx: int, sy: int, ghost c: seq<string>)
      returns (r: map<string, Block>)
      requires KeysAgree(m) && WalkBelow(m, target, c)
      ensures Stored(m, c) && KeysAgree(r) && r == Stacked(m, sx, sy + Offset, c)
    {
      if target.children != "" {
        WalkStored(m, target.children, c);
      }
      ghost var goal := Stacked(m, sx, sy + Offset, c);
      r := m;
      var currentBlock := target;
      var currentOffset := Offset;
      ghost var rest := c;
      ghost var top := sy + Offset;
      while currentBlock.children != ""
        invariant KeysAgree(r) && WalkBelow(r, currentBlock, rest) && Stored(r, rest)
        invariant top == sy + currentOffset
        invariant Stacked(r, sx, top, rest) == goal
        decreases |rest|
      {
        if currentBlock.children !in r {
          break;
        }
        var childBlock := r[currentBlock.children];
        currentOffset := currentOffset + Offset;
        childBlock := childBlock.(position := Pos(sx, sy + currentOffset));
        StackStep(r, currentBlock, childBlock, sx, top, rest);
        r := r[childBlock.id := childBlock];
        currentBlock := childBlock;
        rest := rest[1..];
        top := childBlock.position.y;
      }
    }

    /** handleBlockConnection's writes and loop, on the store's map `m`. */
    static method Restack(m: map<string, Block>, s: string, t: string) returns (r: map<string, Block>)
      requires KeysAgree(m) && s in m && t in m && WalksEnd(m, s, t)
      ensures KeysAgree(r) && r == Restacked(m, s, t)
    {
      var sourceBlock := m[s];
      var m3 := Link(m, s, t);
      var targetBlock := m3[t];
      ghost var ct := TargetWalk(m, s, t);
      var x, y := m[s].position.x, m[s].position.y;
      r := FollowSource(m3, targetBlock, x, y, ct);
      RestackedFrom(m, s, t, m3, r, x, y);
    }

    /** handleBlockConnection: links `s` to `t`, stacks the walk below the
        target under the source and renumbers the z-indices from the source,
        or returns false, changing nothing. The ghost precondition says the
        walks end, without which the source's loops never return (as on
        s = t, see `SelfConnectionLoops`). The final re-stores of the source
        and target records store the records already in the map and change
        nothing. */
    method HandleBlockConnection(s: string, t: string) returns (ok: bool)
      requires Valid()
      requires Connectable(blocks, grace, s, t) ==> WalksEnd(blocks, s, t)
      modifies this
      ensures Valid() && grace == old(grace)
      ensures ok <==> Connectable(old(blocks), old(grace), s, t)
      ensures !ok ==> blocks == old(blocks)
      ensures ok ==> blocks == Connected(old(blocks), s, t)
    {
      if s !in blocks || t !in blocks || grace {
        return false;
      }
      var sourceBlock := blocks[s];
      if sourceBlock.children != "" {
        return false;
      }
      ghost var m4 := Restacked(blocks, s, t);
      blocks := Restack(blocks, s, t);
      ghost var cs := ChainOf(Links(m4), s);
      UpdateZIndex(s, cs);
      assert blocks == ZIndexed(m4, s, cs);
      ok := true;
    }
  }
}
