/** The store-facing part of the BaseBlock component
    (src/renderer/lib/components/BaseBlock.tsx): connecting the dragged
    block to the output connection points it was dropped on, moving it
    under its new parent, and compiling a flag block's program text.

    The component works against a block store (`getBlock`, `updateBlock`
    with a partial record, `getBlocks().idList`, `clearOutput`, `setOutput`)
    that is not part of this model. Its operations are taken as follows:
    `getBlock` returns the stored record, `updateBlock(id, fields)` gives the
    stored record those fields and changes nothing for an unknown id, and
    `setOutput` replaces the published text. `dragged` is the component's
    `blockContent`: the record it was rendered with, which the store's
    record may have moved on from. */
module BaseBlock {
  import opened Records
  import opened BlockTypes
  import opened Text
  import opened BlockUtils

  // ---------------------------------------------------------------- formatOutput

  /** The mark in a loop block's template where its enclosed blocks go. */
  const Sentinel: string := "${&&}"

  /** The enclosed blocks' templates, each with its own contents
      substituted, joined by newlines. */
  function EncloseText(enclosed: seq<BlockType>): string {
    Join(RenderAll(enclosed), "\n")
  }

  /** One block's text: a loop block with an enclosure first has the first
      `${&&}` of its template replaced by a newline, a tab, its enclosure's
      text and a newline; then every block has its 'value' entries
      substituted. */
  function Expand(b: BlockType): (r: string)
    ensures !Occurs(b.output, Sentinel) ==> r == Render(b)
  {
    var output := if b.kind == Loop && b.extra.enclose.Some?
      then ReplaceFirst(b.output, Sentinel, "\n\t" + EncloseText(b.extra.enclose.value.contents) + "\n")
      else b.output;
    Substitute(output, b.contents)
  }

  /** The splice: the template's first `${&&}`, and no other, becomes the
      enclosure's text between a newline and tab and a newline. */
  lemma ExpandSplice(b: BlockType, pre: string, post: string)
    requires b.kind == Loop && b.extra.enclose.Some?
    requires b.output == pre + Sentinel + post
    requires forall j: nat :: j < |pre| ==> !MatchAt(b.output, Sentinel, j)
    ensures Expand(b) == Substitute(pre + "\n\t" + EncloseText(b.extra.enclose.value.contents) + "\n" + post, b.contents)
  {
    var inner := "\n\t" + EncloseText(b.extra.enclose.value.contents) + "\n";
    ReplaceFirstAt(b.output, Sentinel, inner, pre, post);
    assert pre + inner + post == pre + "\n\t" + EncloseText(b.extra.enclose.value.contents) + "\n" + post;
  }

  /** Only a loop block with an enclosure splices: any other block's text
      is its substituted template, whatever it contains. */
  lemma ExpandOthers(b: BlockType)
    requires b.kind != Loop || b.extra.enclose.None?
    ensures Expand(b) == Render(b)
  {
  }

  /** Enclosed blocks are expanded one level only: the enclosure's text
      reads nothing of an enclosed block but its template and contents, so
      neither its kind nor its own enclosure matters. */
  lemma {:induction false} EncloseTextOneLevel(a: seq<BlockType>, b: seq<BlockType>)
    requires |a| == |b|
    requires forall i :: 0 <= i < |a| ==> a[i].output == b[i].output && a[i].contents == b[i].contents
    ensures EncloseText(a) == EncloseText(b)
  {
    assert RenderAll(a) == RenderAll(b);
  }

  function ExpandAll(bs: seq<BlockType>): (r: seq<string>)
    ensures |r| == |bs|
    ensures forall i :: 0 <= i < |bs| ==> r[i] == Expand(bs[i])
  {
    if bs == [] then [] else [Expand(bs[0])] + ExpandAll(bs[1..])
  }

  /** formatOutput's text: the flag block `root`, then every block below it
      by `parentId` (searchAllChildren, in `idList` order, depth first),
      each expanded, joined by newlines. Nothing is trimmed and no flag
      block is dropped. */
  function FormatText(m: map<string, BlockType>, idList: seq<string>, root: BlockType, rank: string -> nat): (text: string)
    requires KeysAgree(m) && Ranked(m, rank, root.id)
    ensures |Expand(root)| <= |text| && text[..|Expand(root)|] == Expand(root)
  {
    Join(ExpandAll([root] + FindAllChildren(m, idList, root.id, rank)), "\n")
  }

  /** A block without children gives exactly its own text, untrimmed, even
      when it is a flag block. */
  lemma FormatTextLone(m: map<string, BlockType>, idList: seq<string>, root: BlockType, rank: string -> nat)
    requires KeysAgree(m) && Ranked(m, rank, root.id)
    requires forall j :: j in m ==> m[j].parentId != root.id
    ensures FormatText(m, idList, root, rank) == Expand(root)
  {
    FindAllChildrenLeaf(m, idList, root.id, rank);
    assert [root] + FindAllChildren(m, idList, root.id, rank) == [root];
  }

  /** Two blocks that are each other's parent (a drag of `a` onto `b`,
      then of `b` onto `a`) do not stop formatOutput for a flag block `d`
      outside their cycle: the ranking puts everything but `d` at 1, and
      the text is `d`'s own. */
  lemma FormatTextBesideCycle(a: BlockType, b: BlockType, d: BlockType, idList: seq<string>)
    requires a.parentId == b.id && b.parentId == a.id
    requires d.id != a.id && d.id != b.id && d.parentId != d.id
    ensures Ranked(map[a.id := a, b.id := b, d.id := d], s => if s == d.id then 0 else 1, d.id)
    ensures FormatText(map[a.id := a, b.id := b, d.id := d], idList, d, s => if s == d.id then 0 else 1) == Expand(d)
  {
    var m := map[a.id := a, b.id := b, d.id := d];
    FormatTextLone(m, idList, d, s => if s == d.id then 0 else 1);
  }

  /** With children, the root's text comes first, then a newline and the
      children's texts joined by newlines. */
  lemma FormatTextCons(m: map<string, BlockType>, idList: seq<string>, root: BlockType, rank: string -> nat)
    requires KeysAgree(m) && Ranked(m, rank, root.id)
    requires FindAllChildren(m, idList, root.id, rank) != []
    ensures FormatText(m, idList, root, rank) ==
      Expand(root) + "\n" + Join(ExpandAll(FindAllChildren(m, idList, root.id, rank)), "\n")
  {
    var cs := FindAllChildren(m, idList, root.id, rank);
    var parts := ExpandAll([root] + cs);
    assert parts[0] == Expand(root);
    assert parts[1..] == ExpandAll(cs);
  }

  /** No block of `bs` is a flag block or a loop block. */
  predicate Plain(bs: seq<BlockType>) {
    forall i :: 0 <= i < |bs| ==> bs[i].kind != Flag && bs[i].kind != Loop
  }

  /** Compared with blockUtils' compiler: when no listed block is a flag
      block or a loop block with an enclosure, BaseBlock's text, trimmed, is
      formatBlockOutput of the same blocks. */
  lemma FormatTextTrimmed(m: map<string, BlockType>, idList: seq<string>, root: BlockType, rank: string -> nat)
    requires KeysAgree(m) && Ranked(m, rank, root.id)
    requires Plain([root] + FindAllChildren(m, idList, root.id, rank))
    ensures Trim(FormatText(m, idList, root, rank)) == FormatBlockOutput([root] + FindAllChildren(m, idList, root.id, rank))
  {
    var bs := [root] + FindAllChildren(m, idList, root.id, rank);
    assert Visible(bs) == bs;
    forall i | 0 <= i < |bs|
      ensures ExpandAll(bs)[i] == RenderAll(bs)[i]
    {
      ExpandOthers(bs[i]);
    }
    assert ExpandAll(bs) == RenderAll(bs);
  }

  // ---------------------------------------------------------------- handleConnect

  /** An `.output` element in document order: the block id in its
      `data-id` ("" when absent) and how many `.input` elements overlap it
      within the tolerance. The overlap test itself reads the page layout
      and is not modelled. */
  datatype OutputHit = OutputHit(target: string, overlaps: nat)

  /** The test at the top of each output: no id, the dragged block itself,
      or a stored target that already has a `childId`. A target the store
      does not hold passes, since `getBlock(t)?.childId` is then undefined. */
  predicate Skips(m: map<string, BlockType>, d: BlockType, t: string) {
    t == "" || t == d.id || (t in m && m[t].children != "")
  }

  /** `updateBlock(k, {parentId: p})`. */
  function SetParent(m: map<string, BlockType>, k: string, p: string): (r: map<string, BlockType>)
    ensures r.Keys == m.Keys
  {
    if k in m then m[k := m[k].(parentId := p)] else m
  }

  /** `updateBlock(k, {childId: c})`. */
  function SetChild(m: map<string, BlockType>, k: string, c: string): (r: map<string, BlockType>)
    ensures r.Keys == m.Keys
  {
    if k in m then m[k := m[k].(children := c)] else m
  }

  /** A loop target takes the dragged record at the end of its enclosure's
      blocks, or gets a new enclosure, at offset (0, 0), holding just that
      record. */
  function Enclosed(m: map<string, BlockType>, d: BlockType, t: string): (r: map<string, BlockType>)
    requires t in m
    ensures r.Keys == m.Keys
  {
    var e := match m[t].extra.enclose
      case Some(e) => e.(contents := e.contents + [d])
      case None => Enclose(Pos(0, 0), Pos(0, 0), [d]);
    m[t := m[t].(extra := m[t].extra.(enclose := Some(e)))]
  }

  /** updateConnectedPosition(parentId): the dragged block goes 42 below the
      parent, indented by the enclosure's offset when the parent is a loop
      block with an enclosure; an unknown parent changes nothing. */
  function Positioned(m: map<string, BlockType>, id: string, parentId: string): (r: map<string, BlockType>)
    ensures r.Keys == m.Keys
  {
    if parentId !in m then m
    else
      var parent := m[parentId];
      var x := if parent.extra.enclose.Some? && parent.kind == Loop
        then parent.position.x + parent.extra.enclose.value.offset.x
        else parent.position.x;
      if id in m then m[id := m[id].(position := Pos(x, parent.position.y + 42))] else m
  }

  /** One overlapping input of an output that passed the test: a loop target
      encloses the dragged record, any other target (or an unknown one) is
      linked to it by `parentId` and `childId`; then the dragged block is
      moved under the target. */
  function ConnectOnce(m: map<string, BlockType>, d: BlockType, t: string): (r: map<string, BlockType>)
    ensures r.Keys == m.Keys
  {
    var m1 := if t in m && m[t].kind == Loop then Enclosed(m, d, t)
      else SetChild(SetParent(m, d.id, t), t, d.id);
    Positioned(m1, d.id, t)
  }

  /** The inner `forEach` over the `n` overlapping inputs of one output; the
      test is not repeated between them. */
  function Repeat(m: map<string, BlockType>, d: BlockType, t: string, n: nat): (r: map<string, BlockType>)
    ensures r.Keys == m.Keys
  {
    if n == 0 then m else ConnectOnce(Repeat(m, d, t, n - 1), d, t)
  }

  lemma RepeatNext(m: map<string, BlockType>, d: BlockType, t: string, n: nat)
    ensures Repeat(m, d, t, n + 1) == ConnectOnce(Repeat(m, d, t, n), d, t)
  {
  }

  /** One output of the outer `forEach`, checked against the store as the
      previous outputs left it. */
  function OutputStep(m: map<string, BlockType>, d: BlockType, o: OutputHit): (r: map<string, BlockType>)
    ensures r.Keys == m.Keys
  {
    if Skips(m, d, o.target) then m else Repeat(m, d, o.target, o.overlaps)
  }

  /** The outer `forEach` over the outputs in document order. */
  function ConnectAll(m: map<string, BlockType>, d: BlockType, outs: seq<OutputHit>): (r: map<string, BlockType>)
    ensures r.Keys == m.Keys
    decreases |outs|
  {
    if outs == [] then m
    else OutputStep(ConnectAll(m, d, outs[..|outs| - 1]), d, outs[|outs| - 1])
  }

  /** handleConnect's result: some output passed its test and had an
      overlapping input. */
  predicate AnyConnect(m: map<string, BlockType>, d: BlockType, outs: seq<OutputHit>)
    decreases |outs|
  {
    if outs == [] then false
    else
      var front := outs[..|outs| - 1];
      var o := outs[|outs| - 1];
      AnyConnect(m, d, front) || (!Skips(ConnectAll(m, d, front), d, o.target) && o.overlaps > 0)
  }

  /** A handleConnect that reports no connection changed no block. */
  lemma {:induction false} ConnectAllQuiet(m: map<string, BlockType>, d: BlockType, outs: seq<OutputHit>)
    requires !AnyConnect(m, d, outs)
    ensures ConnectAll(m, d, outs) == m
    decreases |outs|
  {
    if outs != [] {
      ConnectAllQuiet(m, d, outs[..|outs| - 1]);
    }
  }

  /** A plain target is linked both ways to the dragged block, which goes 42
      below it at its x; every other block is as it was. */
  lemma ConnectOnceLinks(m: map<string, BlockType>, d: BlockType, t: string)
    requires t in m && m[t].kind != Loop && d.id in m && d.id != t
    ensures var r := ConnectOnce(m, d, t);
      && r[t] == m[t].(children := d.id)
      && r[d.id] == m[d.id].(parentId := t, position := Pos(m[t].position.x, m[t].position.y + 42))
      && forall k :: k in m && k != t && k != d.id ==> r[k] == m[k]
  {
  }

  /** A loop target takes the dragged record at the end of its enclosure
      (a new enclosure at offset (0, 0) when it had none) and nothing else;
      the dragged block goes 42 below it, indented by the enclosure's offset;
      no `parentId` or `childId` changes. */
  lemma ConnectOnceEncloses(m: map<string, BlockType>, d: BlockType, t: string)
    requires t in m && m[t].kind == Loop && d.id in m && d.id != t
    ensures var r := ConnectOnce(m, d, t);
      var before := if m[t].extra.enclose.Some? then m[t].extra.enclose.value.contents else [];
      var offset := if m[t].extra.enclose.Some? then m[t].extra.enclose.value.offset else Pos(0, 0);
      && r[t].extra.enclose.Some? && r[t].extra.enclose.value.contents == before + [d]
      && r[t].extra.enclose.value.offset == offset
      && r[t] == m[t].(extra := r[t].extra) && r[t].extra.size == m[t].extra.size
      && r[d.id] == m[d.id].(position := Pos(m[t].position.x + offset.x, m[t].position.y + 42))
      && SameLinks(m, r)
      && forall k :: k in m && k != t && k != d.id ==> r[k] == m[k]
  {
    var r := ConnectOnce(m, d, t);
    var m1 := Enclosed(m, d, t);
    assert r == Positioned(m1, d.id, t);
    if m[t].extra.enclose.None? {
      assert [d] == [] + [d];
    }
  }

  /** Connecting keeps every record under its own id. */
  lemma {:induction false} ConnectAllKeysAgree(m: map<string, BlockType>, d: BlockType, outs: seq<OutputHit>)
    requires KeysAgree(m)
    ensures KeysAgree(ConnectAll(m, d, outs))
    decreases |outs|
  {
    if outs != [] {
      ConnectAllKeysAgree(m, d, outs[..|outs| - 1]);
      var m1 := ConnectAll(m, d, outs[..|outs| - 1]);
      RepeatKeysAgree(m1, d, outs[|outs| - 1].target, outs[|outs| - 1].overlaps);
    }
  }

  lemma {:induction false} RepeatKeysAgree(m: map<string, BlockType>, d: BlockType, t: string, n: nat)
    requires KeysAgree(m)
    ensures KeysAgree(Repeat(m, d, t, n))
    decreases n
  {
    if n > 0 {
      RepeatKeysAgree(m, d, t, n - 1);
      ConnectOnceKeysAgree(Repeat(m, d, t, n - 1), d, t);
    }
  }

  lemma ConnectOnceKeysAgree(m: map<string, BlockType>, d: BlockType, t: string)
    requires KeysAgree(m)
    ensures KeysAgree(ConnectOnce(m, d, t))
  {
  }

  /** Every stored `parentId` is empty or names a stored block. */
  predicate ParentsStored(m: map<string, BlockType>) {
    forall k {:trigger ParentStored(m, k)} :: k in m ==> ParentStored(m, k)
  }

  predicate ParentStored(m: map<string, BlockType>, k: string)
    requires k in m
  {
    m[k].parentId == "" || m[k].parentId in m
  }

  /** As written, an output whose id names no stored block passes the test:
      the dragged block takes that id as its parent, nothing takes it as a
      child, and handleConnect reports a connection. */
  lemma ConnectAllDangles()
    ensures var d := Record("a", Move, "", "", [], Pos(0, 0), "", "", 0, 0,
                            Extra(Connections(None, None), Size(0, 0), None));
      var m := map["a" := d];
      var outs := [OutputHit("b", 1)];
      && ParentsStored(m) && AnyConnect(m, d, outs)
      && !ParentsStored(ConnectAll(m, d, outs))
  {
    var d := Record("a", Move, "", "", [], Pos(0, 0), "", "", 0, 0,
                    Extra(Connections(None, None), Size(0, 0), None));
    var m := map["a" := d];
    var outs := [OutputHit("b", 1)];
    assert outs[..0] == [];
    assert !Skips(m, d, "b");
    assert Repeat(m, d, "b", 1) == ConnectOnce(m, d, "b");
    assert ConnectAll(m, d, outs[..0]) == m;
    var r := ConnectAll(m, d, outs);
    assert r == ConnectOnce(m, d, "b");
    assert r["a"].parentId == "b" && "b" !in r;
    assert !ParentStored(r, "a");
    assert ParentStored(m, "a");
  }

  /** The evidently intended test: an output whose id names no stored
      block is skipped as well. */
  predicate SkipsIntended(m: map<string, BlockType>, d: BlockType, t: string) {
    Skips(m, d, t) || t !in m
  }

  function ConnectAllIntended(m: map<string, BlockType>, d: BlockType, outs: seq<OutputHit>): (r: map<string, BlockType>)
    ensures r.Keys == m.Keys
    decreases |outs|
  {
    if outs == [] then m
    else
      var m1 := ConnectAllIntended(m, d, outs[..|outs| - 1]);
      var o := outs[|outs| - 1];
      if SkipsIntended(m1, d, o.target) then m1 else Repeat(m1, d, o.target, o.overlaps)
  }

  /** With the intended test, connecting never leaves a `parentId` naming a
      block the store does not hold. */
  lemma {:induction false} ConnectAllIntendedParents(m: map<string, BlockType>, d: BlockType, outs: seq<OutputHit>)
    requires ParentsStored(m)
    ensures ParentsStored(ConnectAllIntended(m, d, outs))
    decreases |outs|
  {
    if outs != [] {
      ConnectAllIntendedParents(m, d, outs[..|outs| - 1]);
      var m1 := ConnectAllIntended(m, d, outs[..|outs| - 1]);
      var o := outs[|outs| - 1];
      if !SkipsIntended(m1, d, o.target) {
        RepeatParents(m1, d, o.target, o.overlaps);
      }
    }
  }

  lemma {:induction false} RepeatParents(m: map<string, BlockType>, d: BlockType, t: string, n: nat)
    requires ParentsStored(m) && t in m
    ensures ParentsStored(Repeat(m, d, t, n))
    decreases n
  {
    if n > 0 {
      RepeatParents(m, d, t, n - 1);
      var r := Repeat(m, d, t, n - 1);
      assert t in r;
      ConnectOnceParents(r, d, t);
    }
  }

  lemma ConnectOnceParents(m: map<string, BlockType>, d: BlockType, t: string)
    requires ParentsStored(m) && t in m
    ensures ParentsStored(ConnectOnce(m, d, t))
  {
    var m1 := if m[t].kind == Loop then Enclosed(m, d, t) else SetChild(SetParent(m, d.id, t), t, d.id);
    if m[t].kind == Loop {
      EnclosedParents(m, d, t);
    } else {
      LinkParents(m, d, t);
    }
    PositionedParents(m1, d.id, t);
  }

  lemma EnclosedParents(m: map<string, BlockType>, d: BlockType, t: string)
    requires ParentsStored(m) && t in m
    ensures ParentsStored(Enclosed(m, d, t))
  {
    var r := Enclosed(m, d, t);
    forall k | k in r ensures ParentStored(r, k) { assert ParentStored(m, k); }
  }

  lemma LinkParents(m: map<string, BlockType>, d: BlockType, t: string)
    requires ParentsStored(m) && t in m
    ensures ParentsStored(SetChild(SetParent(m, d.id, t), t, d.id))
  {
    var m1 := SetParent(m, d.id, t);
    forall k | k in m1 ensures ParentStored(m1, k) { assert ParentStored(m, k); }
    var r := SetChild(m1, t, d.id);
    forall k | k in r ensures ParentStored(r, k) { assert ParentStored(m1, k); }
  }

  lemma PositionedParents(m: map<string, BlockType>, id: string, p: string)
    requires ParentsStored(m)
    ensures ParentsStored(Positioned(m, id, p))
  {
    var r := Positioned(m, id, p);
    forall k | k in r ensures ParentStored(r, k) { assert ParentStored(m, k); }
  }

  // ---------------------------------------------------------------- the store

  class Store {
    /** The block store's records by id. */
    var blocks: map<string, BlockType>
    /** `getBlocks().idList`: the store's order of ids. */
    var idList: seq<string>
    /** The published program text. */
    var output: string

    predicate Valid()
      reads this
    {
      KeysAgree(blocks)
    }

    constructor (initial: map<string, BlockType>, order: seq<string>)
      requires KeysAgree(initial)
      ensures Valid() && blocks == initial && idList == order && output == ""
    {
      blocks := initial;
      idList := order;
      output := "";
    }

    /** updateConnectedPosition(parentId) for the dragged block `d`. */
    method UpdateConnectedPosition(d: BlockType, parentId: string)
      modifies this
      ensures blocks == Positioned(old(blocks), d.id, parentId)
      ensures idList == old(idList) && output == old(output)
    {
      if parentId !in blocks {
        return;
      }
      var parentBlock := blocks[parentId];
      if parentBlock.extra.enclose.Some? && parentBlock.kind == Loop {
        if d.id in blocks {
          var p := Pos(parentBlock.position.x + parentBlock.extra.enclose.value.offset.x, parentBlock.position.y + 42);
          blocks := blocks[d.id := blocks[d.id].(position := p)];
        }
      } else {
        if d.id in blocks {
          var p := Pos(parentBlock.position.x, parentBlock.position.y + 42);
          blocks := blocks[d.id := blocks[d.id].(position := p)];
        }
      }
    }

    /** The body of the inner `forEach` for one overlapping input. */
    method ConnectTo(d: BlockType, targetId: string)
      requires Valid()
      modifies this
      ensures Valid()
      ensures blocks == ConnectOnce(old(blocks), d, targetId)
      ensures idList == old(idList) && output == old(output)
    {
      ghost var start := blocks;
      if targetId in blocks && blocks[targetId].kind == Loop {
        // the target's enclosure takes the dragged record
        blocks := Enclosed(blocks, d, targetId);
      } else {
        // updateBlock(dragged, {parentId}) then updateBlock(target, {childId})
        blocks := SetParent(blocks, d.id, targetId);
        blocks := SetChild(blocks, targetId, d.id);
      }
      UpdateConnectedPosition(d, targetId);
      ConnectOnceKeysAgree(start, d, targetId);
    }

    /** The body of the outer `forEach` for one output element: unless the
        target is skipped, one connection per overlapping input. */
    method ConnectOutput(d: BlockType, o: OutputHit) returns (hit: bool)
      requires Valid()
      modifies this
      ensures Valid()
      ensures blocks == OutputStep(old(blocks), d, o)
      ensures hit == (!Skips(old(blocks), d, o.target) && o.overlaps > 0)
      ensures idList == old(idList) && output == old(output)
    {
      hit := false;
      var targetId := o.target;
      if !(targetId == "" || targetId == d.id || (targetId in blocks && blocks[targetId].children != "")) {
        ghost var start := blocks;
        var i: nat := 0;
        while i < o.overlaps
          invariant 0 <= i <= o.overlaps && Valid()
          invariant idList == old(idList) && output == old(output)
          invariant blocks == Repeat(start, d, targetId, i)
          invariant hit == (i > 0)
        {
          RepeatNext(start, d, targetId, i);
          ConnectTo(d, targetId);
          assert blocks == Repeat(start, d, targetId, i + 1);
          hit := true;
          i := i + 1;
        }
      }
    }

    /** handleConnect for the dragged block `d`, over the output elements
        `outs` in document order. */
    method HandleConnect(d: BlockType, outs: seq<OutputHit>) returns (connected: bool)
      requires Valid()
      modifies this
      ensures Valid()
      ensures blocks == ConnectAll(old(blocks), d, outs)
      ensures connected == AnyConnect(old(blocks), d, outs)
      ensures idList == old(idList) && output == old(output)
    {
      connected := false;
      ghost var start := blocks;
      var j := 0;
      while j < |outs|
        invariant 0 <= j <= |outs| && Valid()
        invariant idList == old(idList) && output == old(output)
        invariant blocks == ConnectAll(start, d, outs[..j])
        invariant connected == AnyConnect(start, d, outs[..j])
      {
        ConnectAllSnoc(start, d, outs, j);
        ghost var pre := blocks;
        var hit := ConnectOutput(d, outs[j]);
        assert blocks == OutputStep(pre, d, outs[j]) == ConnectAll(start, d, outs[..j + 1]);
        connected := connected || hit;
        assert connected == AnyConnect(start, d, outs[..j + 1]);
        j := j + 1;
      }
      assert outs[..|outs|] == outs;
    }
    /** formatOutput for the flag block `d`: the text is published with
        clearOutput and setOutput, and returned. */
    method FormatOutput(d: BlockType, rank: string -> nat) returns (text: string)
      requires Valid() && Ranked(blocks, rank, d.id)
      modifies this
      ensures Valid() && blocks == old(blocks) && idList == old(idList)
      ensures text == FormatText(blocks, idList, d, rank) && output == text
    {
      text := FormatText(blocks, idList, d, rank);
      output := "";
      output := text;
    }
  }

  /** The fold over one more output element. */
  lemma ConnectAllSnoc(m: map<string, BlockType>, d: BlockType, outs: seq<OutputHit>, j: nat)
    requires j < |outs|
    ensures ConnectAll(m, d, outs[..j + 1]) == OutputStep(ConnectAll(m, d, outs[..j]), d, outs[j])
    ensures AnyConnect(m, d, outs[..j + 1]) ==
      (AnyConnect(m, d, outs[..j]) || (!Skips(ConnectAll(m, d, outs[..j]), d, outs[j].target) && outs[j].overlaps > 0))
  {
    assert outs[..j + 1][..j] == outs[..j];
  }
}
