/** src/renderer/lib/utils/blockUtils.ts: the descendants of a block by
    `parentId`, and the output compiler over a list of `BlockType` records.
    The fold over a block's contents defined here is also the one BaseBlock
    uses for its blocks and the enclosed blocks of a loop. */
module BlockUtils {
  import opened Records
  import opened BlockTypes
  import opened Text

  // ---------------------------------------------------------------- findAllChildren

  /** `rank` ranks every block below `root` under its parent: each stored
      block whose parent ranks no higher than `root` ranks below that
      parent. So no `parentId` chain comes back to `root` or to a block
      below it, the one thing the source's recursion needs in order to
      return (a block that is its own parent, or two blocks that are each
      other's parent, below `root`); a `parentId` cycle elsewhere in the
      store ranks above `root` and is left unconstrained. */
  predicate Ranked(m: map<string, BlockType>, rank: string -> nat, root: string) {
    forall k :: k in m && rank(m[k].parentId) <= rank(root) ==> rank(k) < rank(m[k].parentId)
  }

  /** findAllChildren(store, id): the root's children are the stored blocks,
      in the order of `idList`, whose `parentId` is `id`; each is followed at
      once by its own descendants. Ids of `idList` without a stored block
      are skipped. */
  function FindAllChildren(m: map<string, BlockType>, idList: seq<string>, id: string, rank: string -> nat): (r: seq<BlockType>)
    requires KeysAgree(m) && Ranked(m, rank, id)
    ensures forall i :: 0 <= i < |r| ==> r[i].id in m && m[r[i].id] == r[i] && rank(r[i].id) < rank(id)
    decreases rank(id), |idList| + 1
  {
    Scan(m, idList, idList, id, rank)
  }

  /** The `reduce` over the part `ids` of `idList` still to visit. */
  function Scan(m: map<string, BlockType>, idList: seq<string>, ids: seq<string>, id: string, rank: string -> nat): (r: seq<BlockType>)
    requires KeysAgree(m) && Ranked(m, rank, id)
    ensures forall i :: 0 <= i < |r| ==> r[i].id in m && m[r[i].id] == r[i] && rank(r[i].id) < rank(id)
    decreases rank(id), |ids|
  {
    if ids == [] then []
    else if ids[0] in m && m[ids[0]].parentId == id then
      [m[ids[0]]] + FindAllChildren(m, idList, m[ids[0]].id, rank) + Scan(m, idList, ids[1..], id, rank)
    else Scan(m, idList, ids[1..], id, rank)
  }

  /** `k` is a stored block whose `parentId` chain reaches `root`. */
  ghost predicate Descends(m: map<string, BlockType>, k: string, root: string, rank: string -> nat)
    requires Ranked(m, rank, root)
    decreases rank(root) - rank(k)
  {
    k in m &&
    (m[k].parentId == root ||
     (rank(m[k].parentId) < rank(root) && Descends(m, m[k].parentId, root, rank)))
  }

  /** A block ranks below every block it descends from. */
  lemma {:induction false} DescendsRank(m: map<string, BlockType>, k: string, root: string, rank: string -> nat)
    requires Ranked(m, rank, root) && Descends(m, k, root, rank)
    ensures rank(k) < rank(root)
    decreases rank(root) - rank(k)
  {
    if m[k].parentId != root {
      DescendsRank(m, m[k].parentId, root, rank);
    }
  }

  /** Descending from a child of `root` is descending from `root`. */
  lemma {:induction false} DescendsThrough(m: map<string, BlockType>, k: string, p: string, root: string, rank: string -> nat)
    requires Ranked(m, rank, root) && p in m && m[p].parentId == root
    requires Descends(m, k, p, rank)
    ensures Descends(m, k, root, rank)
    decreases rank(p) - rank(k)
  {
    DescendsRank(m, k, p, rank);
    if m[k].parentId != p {
      DescendsThrough(m, m[k].parentId, p, root, rank);
    }
  }

  /** Every block findAllChildren lists is a stored block named in `idList`
      whose `parentId` chain reaches `id`; the root itself is never listed. */
  lemma FindAllChildrenSound(m: map<string, BlockType>, idList: seq<string>, id: string, rank: string -> nat, i: nat)
    returns (k: string)
    requires KeysAgree(m) && Ranked(m, rank, id)
    requires i < |FindAllChildren(m, idList, id, rank)|
    ensures k in idList && k in m && FindAllChildren(m, idList, id, rank)[i] == m[k]
    ensures Descends(m, k, id, rank) && k != id
  {
    k := ScanSound(m, idList, idList, id, rank, i);
    DescendsRank(m, k, id, rank);
  }

  lemma {:induction false} ScanSound(m: map<string, BlockType>, idList: seq<string>, ids: seq<string>, id: string, rank: string -> nat, i: nat)
    returns (k: string)
    requires KeysAgree(m) && Ranked(m, rank, id)
    requires i < |Scan(m, idList, ids, id, rank)|
    ensures (k in idList || k in ids) && k in m && Scan(m, idList, ids, id, rank)[i] == m[k]
    ensures Descends(m, k, id, rank)
    decreases rank(id), |ids|
  {
    var q := ids[0];
    if q in m && m[q].parentId == id {
      var below := FindAllChildren(m, idList, q, rank);
      var rest := Scan(m, idList, ids[1..], id, rank);
      assert Scan(m, idList, ids, id, rank) == [m[q]] + below + rest;
      if i == 0 {
        k := q;
      } else if i - 1 < |below| {
        k := ScanSound(m, idList, idList, q, rank, i - 1);
        DescendsThrough(m, k, q, id, rank);
      } else {
        k := ScanSound(m, idList, ids[1..], id, rank, i - 1 - |below|);
      }
    } else {
      k := ScanSound(m, idList, ids[1..], id, rank, i);
    }
  }

  /** Every stored block whose `parentId` chain reaches `id` is listed, when
      `idList` names every stored block. */
  lemma {:induction false} FindAllChildrenComplete(m: map<string, BlockType>, idList: seq<string>, id: string, rank: string -> nat, k: string)
    requires KeysAgree(m) && Ranked(m, rank, id)
    requires forall j :: j in m ==> j in idList
    requires Descends(m, k, id, rank)
    ensures m[k] in FindAllChildren(m, idList, id, rank)
    decreases rank(id) - rank(k)
  {
    var p := m[k].parentId;
    if p == id {
      ScanContains(m, idList, idList, id, rank, k, m[k]);
    } else {
      ScanContains(m, idList, idList, p, rank, k, m[k]);
      SubtreeIn(m, idList, p, id, rank, m[k]);
    }
  }

  /** What is listed below a descendant of `id` is listed below `id`. */
  lemma {:induction false} SubtreeIn(m: map<string, BlockType>, idList: seq<string>, p: string, id: string, rank: string -> nat, x: BlockType)
    requires KeysAgree(m) && Ranked(m, rank, id)
    requires forall j :: j in m ==> j in idList
    requires Descends(m, p, id, rank) && x in FindAllChildren(m, idList, p, rank)
    ensures x in FindAllChildren(m, idList, id, rank)
    decreases rank(id) - rank(p)
  {
    var g := m[p].parentId;
    ScanContains(m, idList, idList, g, rank, p, x);
    if g != id {
      SubtreeIn(m, idList, g, id, rank, x);
    }
  }

  /** A child `q` of `id` met on the way, and everything below it, is
      listed. */
  lemma {:induction false} ScanContains(m: map<string, BlockType>, idList: seq<string>, ids: seq<string>, id: string, rank: string -> nat, q: string, x: BlockType)
    requires KeysAgree(m) && Ranked(m, rank, id)
    requires q in ids && q in m && m[q].parentId == id
    requires x == m[q] || x in FindAllChildren(m, idList, q, rank)
    ensures x in Scan(m, idList, ids, id, rank)
    decreases |ids|
  {
    if ids[0] != q {
      ScanContains(m, idList, ids[1..], id, rank, q, x);
    }
  }

  /** A block nothing names as parent has no descendants. */
  lemma {:induction false} FindAllChildrenLeaf(m: map<string, BlockType>, idList: seq<string>, id: string, rank: string -> nat)
    requires KeysAgree(m) && Ranked(m, rank, id)
    requires forall j :: j in m ==> m[j].parentId != id
    ensures FindAllChildren(m, idList, id, rank) == []
  {
    ScanNone(m, idList, idList, id, rank);
  }

  lemma {:induction false} ScanNone(m: map<string, BlockType>, idList: seq<string>, ids: seq<string>, id: string, rank: string -> nat)
    requires KeysAgree(m) && Ranked(m, rank, id)
    requires forall j :: j in m ==> m[j].parentId != id
    ensures Scan(m, idList, ids, id, rank) == []
    decreases |ids|
  {
    if ids != [] {
      ScanNone(m, idList, ids[1..], id, rank);
    }
  }

  // ---------------------------------------------------------------- formatBlockOutput

  /** The fold over a block's contents: a 'value' entry replaces every
      `${id}` by its value; separator and select entries are skipped. */
  function Substitute(template: string, items: seq<BlockContent>): (out: string)
    ensures (forall i :: 0 <= i < |items| ==> !items[i].content.ValueContent?) ==> out == template
    decreases |items|
  {
    if items == [] then template
    else
      var t := if items[0].content.ValueContent?
        then ReplaceAll(template, Token(items[0].id), items[0].content.value)
        else template;
      Substitute(t, items[1..])
  }

  /** The fold over `a + b` is the fold over `b` after the fold over `a`. */
  lemma {:induction false} SubstituteAppend(template: string, a: seq<BlockContent>, b: seq<BlockContent>)
    ensures Substitute(template, a + b) == Substitute(Substitute(template, a), b)
    decreases |a|
  {
    if a == [] {
      assert a + b == b;
    } else {
      assert (a + b)[0] == a[0];
      assert (a + b)[1..] == a[1..] + b;
      var t := if a[0].content.ValueContent?
        then ReplaceAll(template, Token(a[0].id), a[0].content.value)
        else template;
      SubstituteAppend(t, a[1..], b);
    }
  }

  /** A separator or select entry leaves the output as if it were absent. */
  lemma SubstituteSkips(template: string, a: seq<BlockContent>, x: BlockContent, b: seq<BlockContent>)
    requires !x.content.ValueContent?
    ensures Substitute(template, a + [x] + b) == Substitute(template, a + b)
  {
    assert a + [x] + b == a + ([x] + b);
    assert ([x] + b)[1..] == b;
    SubstituteAppend(template, a, [x] + b);
    SubstituteAppend(template, a, b);
  }

  /** A single 'value' entry replaces every occurrence of its placeholder. */
  lemma SubstituteValue(template: string, x: BlockContent)
    requires x.content.ValueContent?
    ensures Substitute(template, [x]) == ReplaceAll(template, Token(x.id), x.content.value)
  {
    assert [x][1..] == [];
  }

  /** One block's text: its template with its contents substituted. */
  function Render(b: BlockType): string {
    Substitute(b.output, b.contents)
  }

  /** `filter((block) => block.type !== 'flag')`. */
  function Visible(bs: seq<BlockType>): (r: seq<BlockType>)
    ensures |r| <= |bs|
    ensures forall i :: 0 <= i < |r| ==> r[i].kind != Flag
    ensures (forall i :: 0 <= i < |bs| ==> bs[i].kind != Flag) ==> r == bs
  {
    if bs == [] then []
    else if bs[0].kind == Flag then Visible(bs[1..])
    else [bs[0]] + Visible(bs[1..])
  }

  lemma {:induction false} VisibleAppend(a: seq<BlockType>, b: seq<BlockType>)
    ensures Visible(a + b) == Visible(a) + Visible(b)
    decreases |a|
  {
    if a == [] {
      assert a + b == b;
    } else {
      assert (a + b)[0] == a[0];
      assert (a + b)[1..] == a[1..] + b;
      VisibleAppend(a[1..], b);
    }
  }

  function RenderAll(bs: seq<BlockType>): (r: seq<string>)
    ensures |r| == |bs|
    ensures forall i :: 0 <= i < |bs| ==> r[i] == Render(bs[i])
  {
    if bs == [] then [] else [Render(bs[0])] + RenderAll(bs[1..])
  }

  /** formatBlockOutput: the non-flag blocks rendered in input order, joined
      by newlines, trimmed; an empty list gives "". */
  function FormatBlockOutput(bs: seq<BlockType>): (out: string)
    ensures |out| > 0 ==> !IsSpace(out[0]) && !IsSpace(out[|out| - 1])
    ensures Visible(bs) == [] ==> out == ""
  {
    Trim(Join(RenderAll(Visible(bs)), "\n"))
  }

  /** Flag blocks contribute nothing, wherever they stand. */
  lemma FormatBlockOutputSkipsFlag(a: seq<BlockType>, f: BlockType, b: seq<BlockType>)
    requires f.kind == Flag
    ensures FormatBlockOutput(a + [f] + b) == FormatBlockOutput(a + b)
  {
    assert a + [f] + b == a + ([f] + b);
    assert ([f] + b)[1..] == b;
    VisibleAppend(a, [f] + b);
    VisibleAppend(a, b);
  }

  /** One visible block's output is its substituted template, trimmed; a block
      without 'value' entries contributes its template unchanged. */
  lemma FormatBlockOutputSingle(b: BlockType)
    requires b.kind != Flag
    ensures FormatBlockOutput([b]) == Trim(Render(b))
    ensures (forall i :: 0 <= i < |b.contents| ==> !b.contents[i].content.ValueContent?) ==> FormatBlockOutput([b]) == Trim(b.output)
  {
  }

  /** A further visible block adds a newline and its text before trimming. */
  lemma FormatBlockOutputSnoc(bs: seq<BlockType>, x: BlockType)
    requires Visible(bs) != [] && x.kind != Flag
    ensures FormatBlockOutput(bs + [x]) == Trim(Join(RenderAll(Visible(bs)), "\n") + "\n" + Render(x))
  {
    VisibleAppend(bs, [x]);
    assert Visible([x]) == [x];
    var v := Visible(bs);
    assert Visible(bs + [x]) == v + [x];
    assert RenderAll(v + [x]) == RenderAll(v) + [Render(x)];
    JoinSnoc(RenderAll(v), Render(x), "\n");
  }
}
