/** The walks over the `children` links that the renderer and lib iterations
    share (src/renderer/lib/utils/block.ts, src/lib/utils/block.ts): placing
    every block of a walk under its parent, stacking a walk below a block,
    numbering a walk's z-indices, and finding a root along `parentId`. The
    two iterations space a child below its parent differently (`Spacing`). */
module Layout {
  import opened Records
  import opened Chain
  import opened Text

  /** The vertical distance between two stacked blocks. */
  const Offset: int := 40

  /** Every id of `c` names a stored block. */
  predicate Stored<K, C, X>(m: map<string, Record<K, C, X>>, c: seq<string>) {
    forall i :: 0 <= i < |c| ==> c[i] in m
  }

  lemma WalkStored<K, C, X>(m: map<string, Record<K, C, X>>, id: string, c: seq<string>)
    requires IsChain(Links(m), id, c)
    ensures Stored(m, c)
  {
    ChainFacts(Links(m), id, c);
  }

  lemma WalkFacts<K, C, X>(m: map<string, Record<K, C, X>>, id: string, c: seq<string>)
    requires IsChain(Links(m), id, c)
    ensures Stored(m, c) && Distinct(c)
  {
    WalkStored(m, id, c);
    ChainDistinct(Links(m), id, c);
  }

  /** The walk below a block `b`, from `b.children`. */
  ghost predicate WalkBelow<K, C, X>(m: map<string, Record<K, C, X>>, b: Record<K, C, X>, c: seq<string>) {
    if b.children == "" then c == [] else IsChain(Links(m), b.children, c)
  }

  /** What the walk below a block looks like in `m`. */
  lemma ChildWalk<K, C, X>(m: map<string, Record<K, C, X>>, b: Record<K, C, X>, c: seq<string>)
    requires WalkBelow(m, b, c)
    ensures Stored(m, c) && Distinct(c)
    ensures forall i :: 0 <= i < |c| ==> c[i] != ""
    ensures |c| == 0 ==> b.children == "" || b.children !in m
    ensures |c| > 0 ==> c[0] == b.children
    ensures forall i :: 1 <= i < |c| ==> m[c[i - 1]].children == c[i]
    ensures |c| > 0 ==> m[c[|c| - 1]].children == "" || m[c[|c| - 1]].children !in m
  {
    if b.children != "" {
      ChainFacts(Links(m), b.children, c);
      WalkFacts(m, b.children, c);
      if |c| > 0 {
        ChainLengthOne(Links(m), b.children, c);
      }
    }
  }

  /** The walk below `b` when it ends. */
  ghost function WalkOf<K, C, X>(m: map<string, Record<K, C, X>>, b: Record<K, C, X>): (c: seq<string>)
    requires b.children == "" || HasChain(Links(m), b.children)
    ensures WalkBelow(m, b, c)
  {
    if b.children == "" then [] else ChainOf(Links(m), b.children)
  }

  /** A stored block followed by the walk below it is its chain. */
  lemma WalkHead<K, C, X>(m: map<string, Record<K, C, X>>, k: string, c: seq<string>)
    requires k in m && WalkBelow(m, m[k], c)
    ensures IsChain(Links(m), k, [k] + c)
  {
    var b := m[k];
    if b.children != "" && b.children in m {
      ChainCons(Links(m), k, c);
    } else if b.children != "" {
      assert c == [];
    }
  }

  /** When every walk ends, so does the walk below any block. */
  lemma AllChainsWalk<K, C, X>(m: map<string, Record<K, C, X>>, b: Record<K, C, X>)
    requires AllChainsEnd(Links(m))
    ensures b.children == "" || HasChain(Links(m), b.children)
  {
    if b.children != "" && b.children !in m {
      assert IsChain(Links(m), b.children, []);
    }
  }

  // ---------------------------------------------------------------- detaching from the parent

  /** The parent of `id`, when it exists, loses its
      `children`, whatever they named. */
  function Detached<K, C, X>(m: map<string, Record<K, C, X>>, id: string): (r: map<string, Record<K, C, X>>)
    ensures r.Keys == m.Keys
    ensures forall k :: k in m && !(id in m && k == m[id].parentId) ==> r[k] == m[k]
    ensures id in m && m[id].parentId != "" && m[id].parentId in m ==> r[m[id].parentId] == m[m[id].parentId].(children := "")
  {
    if id in m && m[id].parentId != "" && m[id].parentId in m then
      m[m[id].parentId := m[m[id].parentId].(children := "")]
    else m
  }

  /** Dragging a block off its parent: the former parent loses its `children`, the
      block loses its `parentId`. */
  function DragDetached<K, C, X>(m: map<string, Record<K, C, X>>, id: string): (r: map<string, Record<K, C, X>>)
    requires id in m
    ensures r.Keys == m.Keys
    ensures r[id].parentId == ""
    ensures m[id].parentId != "" && m[id].parentId in m && m[id].parentId != id ==> r[m[id].parentId] == m[m[id].parentId].(children := "")
    ensures forall k :: k in m && k != id && k != m[id].parentId ==> r[k] == m[k]
  {
    var m1 := Detached(m, id);
    m1[id := m1[id].(parentId := "")]
  }

  /** Detaching only empties a link. */
  lemma DetachedPruned<K, C, X>(m: map<string, Record<K, C, X>>, id: string)
    ensures Pruned(Links(Detached(m, id)), Links(m))
  {
  }

  lemma DragDetachedPruned<K, C, X>(m: map<string, Record<K, C, X>>, id: string)
    requires id in m
    ensures Pruned(Links(DragDetached(m, id)), Links(m))
  {
    LinksSameUpdate(Detached(m, id), id, Detached(m, id)[id].(parentId := ""));
  }

  // ---------------------------------------------------------------- placement under the parent

  /** How far below its parent at depth `d` a child is placed:
      40·(d+1) in the renderer iteration, 40 + 2·d in the lib iteration. */
  datatype Spacing = Scaled | Staggered

  function Gap(s: Spacing, d: int): int {
    match s
    case Scaled => Offset * (d + 1)
    case Staggered => Offset + 2 * d
  }

  /** Gap(d) + Gap(d+1) + … + Gap(d+i-1): how far the i-th block below a
      parent at depth `d` ends up. */
  function Stride(s: Spacing, d: int, i: nat): int {
    if i == 0 then 0 else Stride(s, d, i - 1) + Gap(s, d + i - 1)
  }

  lemma {:induction false} StrideStep(s: Spacing, d: int, i: nat)
    requires i >= 1
    ensures Stride(s, d, i) == Gap(s, d) + Stride(s, d + 1, i - 1)
  {
    if i > 1 {
      StrideStep(s, d, i - 1);
    }
  }

  /** Renderer spacing from the root (depth 0): the k-th block sits
      40·(1+…+k) = 20·k·(k+1) lower. */
  lemma {:induction false} StrideScaledFromRoot(k: nat)
    ensures Stride(Scaled, 0, k) == 20 * k * (k + 1)
  {
    if k > 0 {
      StrideScaledFromRoot(k - 1);
      assert 20 * k * (k + 1) == 20 * (k - 1) * k + 40 * k;
    }
  }

  /** Lib spacing from the root (depth 0): the k-th block sits
      (40 + 0) + (40 + 2) + … + (40 + 2·(k-1)) = 40·k + k·(k-1) lower. */
  lemma {:induction false} StrideStaggeredFromRoot(k: nat)
    ensures Stride(Staggered, 0, k) == 40 * k + k * (k - 1)
  {
    if k > 0 {
      StrideStaggeredFromRoot(k - 1);
      assert 40 * k + k * (k - 1) == 40 * (k - 1) + (k - 1) * (k - 2) + 40 + 2 * (k - 1);
    }
  }

  /** One step of updateBlockPositions' recursion: the child under its parent. */
  function PlacedChild<K, C, X>(s: Spacing, m: map<string, Record<K, C, X>>, parent: string, child: string, d: int): Record<K, C, X>
    requires parent in m && child in m
  {
    m[child].(position := Pos(m[parent].position.x, m[parent].position.y + Gap(s, d)), depth := d + 1)
  }

  /** updateBlockPositions' recursion, from the parent `c[0]` at depth `d`
      down the walk `c`: each child goes under its (already moved) parent
      and takes the next depth. */
  ghost function PlaceBelow<K, C, X>(s: Spacing, m: map<string, Record<K, C, X>>, c: seq<string>, d: int): (r: map<string, Record<K, C, X>>)
    requires Stored(m, c)
    ensures r.Keys == m.Keys
    decreases |c|
  {
    if |c| < 2 then m
    else PlaceBelow(s, m[c[1] := PlacedChild(s, m, c[0], c[1], d)], c[1..], d + 1)
  }

  /** The placement moves blocks and changes their depth, never a link. */
  lemma {:induction false} PlaceBelowSameLinks<K, C, X>(s: Spacing, m: map<string, Record<K, C, X>>, c: seq<string>, d: int)
    requires Stored(m, c)
    ensures SameLinks(PlaceBelow(s, m, c, d), m)
    decreases |c|
  {
    if |c| >= 2 {
      PlaceBelowSameLinks(s, m[c[1] := PlacedChild(s, m, c[0], c[1], d)], c[1..], d + 1);
    }
  }

  /** What one call of updateBlockPositions' recursion needs: it stops where
      the walk does, and otherwise places the child and goes on from it. */
  lemma PlaceStep<K, C, X>(s: Spacing, m: map<string, Record<K, C, X>>, parentId: string, depth: int, c: seq<string>)
    requires KeysAgree(m) && IsChain(Links(m), parentId, c)
    ensures Stored(m, c)
    ensures parentId !in m || m[parentId].children == "" || m[parentId].children !in m ==> PlaceBelow(s, m, c, depth) == m
    ensures parentId in m && m[parentId].children != "" && m[parentId].children in m ==>
      var child := PlacedChild(s, m, parentId, m[parentId].children, depth);
      && |c| >= 2 && child.id == c[1] && KeysAgree(m[c[1] := child])
      && IsChain(Links(m[c[1] := child]), c[1], c[1..])
      && PlaceBelow(s, m, c, depth) == PlaceBelow(s, m[c[1] := child], c[1..], depth + 1)
  {
    WalkStored(m, parentId, c);
    if parentId in m {
      ChainLengthOne(Links(m), parentId, c);
      if m[parentId].children != "" && m[parentId].children in m {
        ChainTail(Links(m), parentId, c);
        LinksSameUpdate(m, c[1], PlacedChild(s, m, parentId, c[1], depth));
      }
    }
  }

  /** The head of the walk and every block off it keep their records. */
  lemma {:induction false} PlaceBelowOff<K, C, X>(s: Spacing, m: map<string, Record<K, C, X>>, c: seq<string>, d: int, k: string)
    requires Stored(m, c) && k in m && (c == [] || k !in c[1..])
    ensures PlaceBelow(s, m, c, d)[k] == m[k]
    decreases |c|
  {
    if |c| >= 2 {
      assert k != c[1];
      assert k !in c[1..][1..] by { assert c[1..][1..] == c[2..]; }
      PlaceBelowOff(s, m[c[1] := PlacedChild(s, m, c[0], c[1], d)], c[1..], d + 1, k);
    }
  }

  /** The i-th block below the head keeps the head's x, sits `Stride(s, d, i)`
      lower and has depth d + i. */
  lemma {:induction false} PlaceBelowOn<K, C, X>(s: Spacing, m: map<string, Record<K, C, X>>, c: seq<string>, d: int, i: nat)
    requires Stored(m, c) && Distinct(c) && 1 <= i < |c|
    ensures PlaceBelow(s, m, c, d)[c[i]]
      == m[c[i]].(position := Pos(m[c[0]].position.x, m[c[0]].position.y + Stride(s, d, i)), depth := d + i)
    decreases |c|
  {
    var m' := m[c[1] := PlacedChild(s, m, c[0], c[1], d)];
    var c' := c[1..];
    assert Distinct(c');
    StrideStep(s, d, i);
    if i == 1 {
      assert c[1] !in c'[1..] by {
        forall j | 1 <= j < |c'| ensures c'[j] != c[1] { assert c'[j] == c[j + 1]; }
      }
      PlaceBelowOff(s, m', c', d + 1, c[1]);
    } else {
      assert c'[i - 1] == c[i] && c[i] != c[1];
      PlaceBelowOn(s, m', c', d + 1, i - 1);
    }
  }

  /** Along a walk, the i-th block below `c[0]` keeps the parent's x, sits
      `Stride(s, d, i)` lower and has depth d + i; `c[0]` and every block off
      the walk are untouched. */
  lemma PlaceBelowLayout<K, C, X>(s: Spacing, m: map<string, Record<K, C, X>>, c: seq<string>, d: int)
    requires Stored(m, c) && Distinct(c) && |c| >= 1
    ensures var r := PlaceBelow(s, m, c, d);
      && (forall i :: 1 <= i < |c| ==>
            r[c[i]] == m[c[i]].(position := Pos(m[c[0]].position.x, m[c[0]].position.y + Stride(s, d, i)), depth := d + i))
      && (forall k :: k in m && k !in c[1..] ==> r[k] == m[k])
  {
    forall i | 1 <= i < |c|
      ensures PlaceBelow(s, m, c, d)[c[i]]
        == m[c[i]].(position := Pos(m[c[0]].position.x, m[c[0]].position.y + Stride(s, d, i)), depth := d + i)
    {
      PlaceBelowOn(s, m, c, d, i);
    }
    forall k | k in m && k !in c[1..] ensures PlaceBelow(s, m, c, d)[k] == m[k] {
      PlaceBelowOff(s, m, c, d, k);
    }
  }

  /** Repeating the placement changes nothing: it reads only the parent at
      the head of the walk, which it never moves. */
  lemma PlaceBelowIdempotent<K, C, X>(s: Spacing, m: map<string, Record<K, C, X>>, c: seq<string>, d: int)
    requires Stored(m, c) && Distinct(c)
    ensures PlaceBelow(s, PlaceBelow(s, m, c, d), c, d) == PlaceBelow(s, m, c, d)
  {
    if |c| >= 1 {
      var r1 := PlaceBelow(s, m, c, d);
      var r2 := PlaceBelow(s, r1, c, d);
      assert c[0] !in c[1..];
      PlaceBelowOff(s, m, c, d, c[0]);
      forall k | k in r1 ensures r2[k] == r1[k] {
        if k in c[1..] {
          var i :| 1 <= i < |c| && c[i] == k;
          PlaceBelowOn(s, m, c, d, i);
          PlaceBelowOn(s, r1, c, d, i);
        } else {
          PlaceBelowOff(s, r1, c, d, k);
        }
      }
    }
    assert PlaceBelow(s, PlaceBelow(s, m, c, d), c, d) == PlaceBelow(s, m, c, d);
  }

  /** The re-layout keeps the links, so the walk from the source is still a
      walk for the renumbering (renderer and rendererr handleBlockConnection). */
  lemma ConnectStep<K, C, X>(m3: map<string, Record<K, C, X>>, s: string, c: seq<string>)
    requires IsChain(Links(m3), s, c)
    ensures Stored(m3, c) && IsChain(Links(PlaceBelow(Scaled, m3, c, 0)), s, c)
  {
    WalkStored(m3, s, c);
    PlaceBelowSameLinks(Scaled, m3, c, 0);
    SameLinksEqual(PlaceBelow(Scaled, m3, c, 0), m3);
  }

  // ---------------------------------------------------------------- stacking below a block

  /** The walks of updateChildrenPositions and onDrag: each block of `c` goes
      40 below the one before it, the first 40 below (x, y). */
  ghost function Stacked<K, C, X>(m: map<string, Record<K, C, X>>, x: int, y: int, c: seq<string>): (r: map<string, Record<K, C, X>>)
    requires Stored(m, c)
    ensures r.Keys == m.Keys
    decreases |c|
  {
    if c == [] then m
    else Stacked(m[c[0] := m[c[0]].(position := Pos(x, y + Offset))], x, y + Offset, c[1..])
  }

  /** Stacking moves blocks, never a link. */
  lemma {:induction false} StackedLinks<K, C, X>(m: map<string, Record<K, C, X>>, x: int, y: int, c: seq<string>)
    requires Stored(m, c)
    ensures SameLinks(Stacked(m, x, y, c), m)
    decreases |c|
  {
    if c != [] {
      StackedLinks(m[c[0] := m[c[0]].(position := Pos(x, y + Offset))], x, y + Offset, c[1..]);
    }
  }

  /** A block off the walk keeps its record. */
  lemma {:induction false} StackedOff<K, C, X>(m: map<string, Record<K, C, X>>, x: int, y: int, c: seq<string>, k: string)
    requires Stored(m, c) && k in m && k !in c
    ensures Stacked(m, x, y, c)[k] == m[k]
    decreases |c|
  {
    if c != [] {
      assert k !in c[1..];
      StackedOff(m[c[0] := m[c[0]].(position := Pos(x, y + Offset))], x, y + Offset, c[1..], k);
    }
  }

  /** The i-th block of the walk ends up at (x, y + 40·(i+1)). */
  lemma {:induction false} StackedOn<K, C, X>(m: map<string, Record<K, C, X>>, x: int, y: int, c: seq<string>, i: nat)
    requires Stored(m, c) && Distinct(c) && i < |c|
    ensures Stacked(m, x, y, c)[c[i]] == m[c[i]].(position := Pos(x, y + Offset * (i + 1)))
    decreases |c|
  {
    var m' := m[c[0] := m[c[0]].(position := Pos(x, y + Offset))];
    var c' := c[1..];
    assert Distinct(c');
    if i == 0 {
      assert c[0] !in c' by {
        forall j | 0 <= j < |c'| ensures c'[j] != c[0] { assert c'[j] == c[j + 1]; }
      }
      StackedOff(m', x, y + Offset, c', c[0]);
    } else {
      assert c'[i - 1] == c[i] && c[i] != c[0];
      StackedOn(m', x, y + Offset, c', i - 1);
    }
  }

  /** Stacking along a walk: the i-th block is at (x, y + 40·(i+1)), every
      block off the walk is untouched. */
  lemma StackedLayout<K, C, X>(m: map<string, Record<K, C, X>>, x: int, y: int, c: seq<string>)
    requires Stored(m, c) && Distinct(c)
    ensures var r := Stacked(m, x, y, c);
      && (forall i :: 0 <= i < |c| ==> r[c[i]] == m[c[i]].(position := Pos(x, y + Offset * (i + 1))))
      && (forall k :: k in m && k !in c ==> r[k] == m[k])
  {
    forall i | 0 <= i < |c| ensures Stacked(m, x, y, c)[c[i]] == m[c[i]].(position := Pos(x, y + Offset * (i + 1))) {
      StackedOn(m, x, y, c, i);
    }
    forall k | k in m && k !in c ensures Stacked(m, x, y, c)[k] == m[k] {
      StackedOff(m, x, y, c, k);
    }
  }

  /** Stacking keeps every block under its own id. */
  lemma {:induction false} StackedKeysAgree<K, C, X>(m: map<string, Record<K, C, X>>, x: int, y: int, c: seq<string>)
    requires KeysAgree(m) && Stored(m, c)
    ensures KeysAgree(Stacked(m, x, y, c))
    decreases |c|
  {
    if c != [] {
      var b := m[c[0]].(position := Pos(x, y + Offset));
      KeysAgreeUpdate(m, b);
      StackedKeysAgree(m[c[0] := b], x, y + Offset, c[1..]);
    }
  }

  /** One pass of a stacking loop at `current`, with `rest` the walk below
      it: the child read from the map, moved to (x, top + 40), keeps its link
      and its id, and the loop goes on from it along the rest of the walk. */
  lemma StackStep<K, C, X>(blocks: map<string, Record<K, C, X>>, current: Record<K, C, X>, child: Record<K, C, X>, x: int, top: int, rest: seq<string>)
    requires KeysAgree(blocks) && WalkBelow(blocks, current, rest)
    requires current.children != "" && current.children in blocks
    requires child == blocks[current.children].(position := Pos(x, top + Offset))
    ensures Stored(blocks, rest) && |rest| >= 1 && rest[0] == current.children
    ensures child.id == current.children
    ensures KeysAgree(blocks[child.id := child]) && Links(blocks[child.id := child]) == Links(blocks)
    ensures WalkBelow(blocks[child.id := child], child, rest[1..]) && Stored(blocks[child.id := child], rest[1..])
    ensures Stacked(blocks, x, top, rest) == Stacked(blocks[child.id := child], x, child.position.y, rest[1..])
  {
    WalkStored(blocks, current.children, rest);
    ChainLengthOne(Links(blocks), current.children, rest);
    LinksSameUpdate(blocks, current.children, child);
    KeysAgreeUpdate(blocks, child);
    if |rest| >= 2 {
      ChainTail(Links(blocks), current.children, rest);
    }
    if child.children != "" {
      WalkStored(blocks, child.children, rest[1..]);
    }
  }

  // ---------------------------------------------------------------- z-order

  /** updateZIndex's inner recursion: the blocks of the walk get
      `from`, `from + 1`, … in walk order. */
  ghost function Numbered<K, C, X>(m: map<string, Record<K, C, X>>, c: seq<string>, from: int): (r: map<string, Record<K, C, X>>)
    requires Stored(m, c)
    ensures r.Keys == m.Keys
    decreases |c|
  {
    if c == [] then m
    else Numbered(m[c[0] := m[c[0]].(zIndex := from)], c[1..], from + 1)
  }

  /** The numbering changes z-indices only, never a link. */
  lemma {:induction false} NumberedSameLinks<K, C, X>(m: map<string, Record<K, C, X>>, c: seq<string>, from: int)
    requires Stored(m, c)
    ensures SameLinks(Numbered(m, c, from), m)
    decreases |c|
  {
    if c != [] {
      NumberedSameLinks(m[c[0] := m[c[0]].(zIndex := from)], c[1..], from + 1);
    }
  }

  /** A block off the walk keeps its record. */
  lemma {:induction false} NumberedOff<K, C, X>(m: map<string, Record<K, C, X>>, c: seq<string>, from: int, k: string)
    requires Stored(m, c) && k in m && k !in c
    ensures Numbered(m, c, from)[k] == m[k]
    decreases |c|
  {
    if c != [] {
      assert k !in c[1..];
      NumberedOff(m[c[0] := m[c[0]].(zIndex := from)], c[1..], from + 1, k);
    }
  }

  /** The i-th block of a walk gets z-index `from + i`. */
  lemma {:induction false} NumberedOn<K, C, X>(m: map<string, Record<K, C, X>>, c: seq<string>, from: int, i: nat)
    requires Stored(m, c) && Distinct(c) && i < |c|
    ensures Numbered(m, c, from)[c[i]] == m[c[i]].(zIndex := from + i)
    decreases |c|
  {
    var m' := m[c[0] := m[c[0]].(zIndex := from)];
    var c' := c[1..];
    assert Distinct(c');
    if i == 0 {
      assert c[0] !in c' by {
        forall j | 0 <= j < |c'| ensures c'[j] != c[0] { assert c'[j] == c[j + 1]; }
      }
      NumberedOff(m', c', from + 1, c[0]);
    } else {
      assert c'[i - 1] == c[i] && c[i] != c[0];
      NumberedOn(m', c', from + 1, i - 1);
    }
  }

  /** The i-th block of a walk gets z-index `from + i`; nothing else changes. */
  lemma NumberedLayout<K, C, X>(m: map<string, Record<K, C, X>>, c: seq<string>, from: int)
    requires Stored(m, c) && Distinct(c)
    ensures var r := Numbered(m, c, from);
      && (forall i :: 0 <= i < |c| ==> r[c[i]] == m[c[i]].(zIndex := from + i))
      && (forall k :: k in m && k !in c ==> r[k] == m[k])
  {
    forall i | 0 <= i < |c| ensures Numbered(m, c, from)[c[i]] == m[c[i]].(zIndex := from + i) {
      NumberedOn(m, c, from, i);
    }
    forall k | k in m && k !in c ensures Numbered(m, c, from)[k] == m[k] {
      NumberedOff(m, c, from, k);
    }
  }

  /** The numbering keeps every block under its own id. */
  lemma {:induction false} NumberedKeysAgree<K, C, X>(m: map<string, Record<K, C, X>>, c: seq<string>, from: int)
    requires KeysAgree(m) && Stored(m, c)
    ensures KeysAgree(Numbered(m, c, from))
    decreases |c|
  {
    if c != [] {
      var b := m[c[0]].(zIndex := from);
      KeysAgreeUpdate(m, b);
      NumberedKeysAgree(m[c[0] := b], c[1..], from + 1);
    }
  }

  // ---------------------------------------------------------------- removal (renderer and rendererr)

  /** updateBlockPositions(k) on a map whose walks all end. */
  ghost function Relaid<K, C, X>(m: map<string, Record<K, C, X>>, k: string): (r: map<string, Record<K, C, X>>)
    requires AllChainsEnd(Links(m))
    ensures SameLinks(r, m)
  {
    if k in m then
      assert HasChain(Links(m), k);
      var c := ChainOf(Links(m), k);
      WalkFacts(m, k, c);
      PlaceBelowSameLinks(Scaled, m, c, 0);
      PlaceBelow(Scaled, m, c, 0)
    else m
  }

  /** The loop over the remaining blocks: updateBlockPositions on each id of
      `order`, the map's iteration order; an id no longer stored is skipped. */
  ghost function RelayAll<K, C, X>(m: map<string, Record<K, C, X>>, order: seq<string>): (r: map<string, Record<K, C, X>>)
    requires AllChainsEnd(Links(m))
    ensures SameLinks(r, m)
    decreases |order|
  {
    if order == [] then m
    else
      var m' := Relaid(m, order[0]);
      SameLinksEqual(m', m);
      RelayAll(m', order[1..])
  }

  /** The walk removeBlock deletes: the chain from `id` once its parent has
      been detached. */
  ghost function RemovedWalk<K, C, X>(m: map<string, Record<K, C, X>>, id: string): (c: seq<string>)
    requires AllChainsEnd(Links(m))
    ensures IsChain(Links(Detached(m, id)), id, c)
  {
    DetachedPruned(m, id);
    AllChainsEndPruned(Links(Detached(m, id)), Links(m));
    if id in m then (assert HasChain(Links(Detached(m, id)), id); ChainOf(Links(Detached(m, id)), id))
    else []
  }

  /** removeBlock's finished map. */
  ghost function Removed<K, C, X>(m: map<string, Record<K, C, X>>, id: string, order: seq<string>): (r: map<string, Record<K, C, X>>)
    requires AllChainsEnd(Links(m))
  {
    if id !in m then m
    else
      var m1 := Detached(m, id);
      var c := RemovedWalk(m, id);
      var m2 := m1 - (set k | k in c);
      DetachedPruned(m, id);
      AllChainsEndPruned(Links(m1), Links(m));
      assert Pruned(Links(m2), Links(m1));
      AllChainsEndPruned(Links(m2), Links(m1));
      RelayAll(m2, order)
  }

  /** removeBlock deletes the block and every block its `children` walk
      reaches; the former parent (when it stays) has no `children`; every
      other remaining block keeps its link; an unknown id changes nothing. */
  lemma RemovedShape<K, C, X>(m: map<string, Record<K, C, X>>, id: string, order: seq<string>)
    requires AllChainsEnd(Links(m))
    ensures id !in m ==> Removed(m, id, order) == m
    ensures id in m ==>
      var r := Removed(m, id, order);
      var c := RemovedWalk(m, id);
      && |c| >= 1 && c[0] == id
      && r.Keys == m.Keys - (set k | k in c)
      && (m[id].parentId != "" && m[id].parentId in r ==> r[m[id].parentId].children == "")
      && (forall k :: k in r && k != m[id].parentId ==> r[k].children == m[k].children)
  {
    if id in m {
      var m1 := Detached(m, id);
      var c := RemovedWalk(m, id);
      var m2 := m1 - (set k | k in c);
      assert SameLinks(Removed(m, id, order), m2);
    }
  }

  /** After a removal every remaining walk still ends, so removals compose. */
  lemma RemovedChainsEnd<K, C, X>(m: map<string, Record<K, C, X>>, id: string, order: seq<string>)
    requires AllChainsEnd(Links(m))
    ensures AllChainsEnd(Links(Removed(m, id, order)))
  {
    if id in m {
      var m1 := Detached(m, id);
      var c := RemovedWalk(m, id);
      var m2 := m1 - (set k | k in c);
      DetachedPruned(m, id);
      AllChainsEndPruned(Links(m1), Links(m));
      assert Pruned(Links(m2), Links(m1));
      AllChainsEndPruned(Links(m2), Links(m1));
      SameLinksEqual(Removed(m, id, order), m2);
    }
  }

  /** The deletion walk in removeBlock's recursive `removeChildren`. */
  lemma RemoveStep<K, C, X>(m: map<string, Record<K, C, X>>, id: string, c: seq<string>)
    returns (rest: seq<string>)
    requires IsChain(Links(m), id, c)
    ensures id !in m ==> c == [] && m - {id} == m
    ensures id in m && m[id].children == "" ==> c == [id]
    ensures id in m ==> c == [id] + rest && (set k | k in c) == (set k | k in rest) + {id}
    ensures id in m && m[id].children != "" ==> IsChain(Links(m), m[id].children, rest)
  {
    rest := [];
    if id in m {
      ChainLengthOne(Links(m), id, c);
      if |c| >= 2 {
        ChainTail(Links(m), id, c);
        rest := c[1..];
      }
      assert c == [id] + rest;
    } else {
      assert m - {id} == m;
    }
  }

  /** removeBlock after its deletion: the remaining map `m2`, whose walks all
      end and whose re-layout is the finished map. */
  lemma RemovedUnfold<K, C, X>(m: map<string, Record<K, C, X>>, id: string, order: seq<string>)
    requires KeysAgree(m) && AllChainsEnd(Links(m)) && id in m
    ensures var m2 := Detached(m, id) - (set k | k in RemovedWalk(m, id));
      && KeysAgree(m2) && AllChainsEnd(Links(m2)) && id !in m2
      && Removed(m, id, order) == RelayAll(m2, order)
  {
    var m1 := Detached(m, id);
    var c := RemovedWalk(m, id);
    var m2 := m1 - (set k | k in c);
    ChainLengthOne(Links(m1), id, c);
    DetachedPruned(m, id);
    AllChainsEndPruned(Links(m1), Links(m));
    assert Pruned(Links(m2), Links(m1));
    AllChainsEndPruned(Links(m2), Links(m1));
    assert KeysAgree(m1);
    KeysAgreeRemove(m1, set k | k in c);
  }

  /** One pass of removeBlock's re-layout loop. */
  lemma RelayStep<K, C, X>(m: map<string, Record<K, C, X>>, order: seq<string>)
    returns (ck: seq<string>)
    requires AllChainsEnd(Links(m)) && |order| > 0
    ensures IsChain(Links(m), order[0], ck)
    ensures Stored(m, ck) && PlaceBelow(Scaled, m, ck, 0) == Relaid(m, order[0])
    ensures AllChainsEnd(Links(Relaid(m, order[0])))
    ensures RelayAll(m, order) == RelayAll(Relaid(m, order[0]), order[1..])
  {
    var k := order[0];
    if k in m {
      assert HasChain(Links(m), k);
      ck := ChainOf(Links(m), k);
    } else {
      ck := [];
    }
    WalkStored(m, k, ck);
    SameLinksEqual(Relaid(m, k), m);
  }

  /** The end of removeBlock: the re-laid-out map no longer holds `id`, so
      the final `workspace.delete(blockId)` changes nothing. */
  lemma RelayEnd<K, C, X>(m: map<string, Record<K, C, X>>, m2: map<string, Record<K, C, X>>, order: seq<string>, id: string)
    requires AllChainsEnd(Links(m)) && AllChainsEnd(Links(m2)) && id !in m2
    requires RelayAll(m, order[|order|..]) == RelayAll(m2, order)
    ensures m - {id} == RelayAll(m2, order)
  {
    assert order[|order|..] == [];
    assert m == RelayAll(m2, order);
    assert id !in m;
    assert m - {id} == m;
  }

  // ---------------------------------------------------------------- roots

  /** A walk up the `parentId` links from `p[0]` to a block with none. */
  ghost predicate ParentPath<K, C, X>(ws: map<string, Record<K, C, X>>, p: seq<string>) {
    && |p| >= 1
    && (forall i :: 0 <= i < |p| ==> p[i] in ws)
    && (forall i :: 1 <= i < |p| ==> p[i] != "" && ws[p[i - 1]].parentId == p[i])
    && ws[p[|p| - 1]].parentId == ""
  }

  /** findRootBlock: follows `parentId` until a block without one; `None` on a
      missing id or one met before. The visited set makes every call return. */
  function FindRootBlock<K, C, X>(ws: map<string, Record<K, C, X>>, id: string, visited: set<string>): (r: Option<Record<K, C, X>>)
    ensures r.Some? ==> r.value.parentId == "" && exists k :: k in ws && ws[k] == r.value
    ensures id in visited || id !in ws ==> r.None?
    decreases ws.Keys - visited
  {
    if id in visited then None
    else if id !in ws then None
    else if ws[id].parentId == "" then Some(ws[id])
    else FindRootBlock(ws, ws[id].parentId, visited + {id})
  }

  /** A found root is the end of a parent walk from `id` that avoids `visited`. */
  lemma {:induction false} FindRootSound<K, C, X>(ws: map<string, Record<K, C, X>>, id: string, visited: set<string>)
    returns (p: seq<string>)
    requires FindRootBlock(ws, id, visited).Some?
    ensures ParentPath(ws, p) && p[0] == id
    ensures ws[p[|p| - 1]] == FindRootBlock(ws, id, visited).value
    ensures forall i :: 0 <= i < |p| ==> p[i] !in visited
    decreases ws.Keys - visited
  {
    if ws[id].parentId == "" {
      p := [id];
    } else {
      var q := FindRootSound(ws, ws[id].parentId, visited + {id});
      p := [id] + q;
      assert forall i :: 1 <= i < |p| ==> p[i] == q[i - 1];
    }
  }

  /** Every repetition-free parent walk avoiding `visited` is found. */
  lemma {:induction false} FindRootComplete<K, C, X>(ws: map<string, Record<K, C, X>>, p: seq<string>, visited: set<string>)
    requires ParentPath(ws, p) && Distinct(p)
    requires forall i :: 0 <= i < |p| ==> p[i] !in visited
    ensures FindRootBlock(ws, p[0], visited) == Some(ws[p[|p| - 1]])
    decreases |p|
  {
    if |p| > 1 {
      var q := p[1..];
      assert ws[p[0]].parentId == q[0] && q[0] != "";
      assert ParentPath(ws, q) by {
        assert forall i :: 1 <= i < |q| ==> q[i] == p[i + 1] && q[i - 1] == p[i];
      }
      assert Distinct(q);
      forall i | 0 <= i < |q| ensures q[i] !in visited + {p[0]} {
        assert q[i] == p[i + 1];
      }
      FindRootComplete(ws, q, visited + {p[0]});
    }
  }
}
