/** Walks along the one-way child link that every block carries (`children`
    in one iteration, `childId` in another). Each engine projects its block
    map onto `next: map<string, string>`, the link of every stored block,
    with "" standing for "no child". */
module Chain {

  /** The walk stops at `k`: its link is empty or names no stored block. */
  predicate Stops(next: map<string, string>, k: string)
    requires k in next
  {
    next[k] == "" || next[k] !in next
  }

  /** `c` is the walk the source's `while (current.children)` loops and
      recursions perform from `id`: it starts at `id`, follows each link to a
      stored block, and ends at a block whose walk stops. A missing `id` gives
      the empty walk. No such `c` exists when the links from `id` run in a
      circle: those are the inputs on which the source never returns. */
  ghost predicate IsChain(next: map<string, string>, id: string, c: seq<string>)
    decreases |c|
  {
    if id !in next then c == []
    else
      && |c| >= 1 && c[0] == id
      && (if Stops(next, id) then |c| == 1 else IsChain(next, next[id], c[1..]))
  }

  /** The walk from `k` ends. */
  ghost predicate HasChain(next: map<string, string>, k: string) {
    exists c :: IsChain(next, k, c)
  }

  /** Every stored block's walk ends. */
  ghost predicate AllChainsEnd(next: map<string, string>) {
    forall k {:trigger HasChain(next, k)} :: k in next ==> HasChain(next, k)
  }

  /** The chain of a block whose walk ends. */
  ghost function ChainOf(next: map<string, string>, id: string): (c: seq<string>)
    requires HasChain(next, id)
    ensures IsChain(next, id, c)
  {
    var c :| IsChain(next, id, c); c
  }

  /** A chain of two or more blocks: its head links to the rest. */
  lemma ChainTail(next: map<string, string>, id: string, c: seq<string>)
    requires IsChain(next, id, c) && |c| >= 2
    ensures id in next && next[id] == c[1] && c[1] != "" && c[1] in next
    ensures IsChain(next, c[1], c[1..])
  {
  }

  /** A block that links on to a block with a chain has that chain behind it. */
  lemma ChainCons(next: map<string, string>, id: string, c: seq<string>)
    requires id in next && next[id] != "" && next[id] in next
    requires IsChain(next, next[id], c)
    ensures IsChain(next, id, [id] + c)
  {
    assert ([id] + c)[1..] == c;
  }

  /** A stored block's chain has one element exactly when its walk stops. */
  lemma ChainLengthOne(next: map<string, string>, id: string, c: seq<string>)
    requires IsChain(next, id, c) && id in next
    ensures |c| >= 1 && c[0] == id
    ensures |c| == 1 <==> Stops(next, id)
  {
  }

  /** Every block of a chain is stored, follows its predecessor's link and
      the last one's walk stops. */
  lemma {:induction false} ChainFacts(next: map<string, string>, id: string, c: seq<string>)
    requires IsChain(next, id, c)
    ensures forall i :: 0 <= i < |c| ==> c[i] in next
    ensures forall i :: 1 <= i < |c| ==> c[i] != "" && next[c[i - 1]] == c[i]
    ensures |c| >= 1 ==> Stops(next, c[|c| - 1])
    decreases |c|
  {
    if |c| >= 2 {
      ChainFacts(next, c[1], c[1..]);
      assert forall i :: 1 <= i < |c| ==> c[i] == c[1..][i - 1];
    }
  }

  /** The walk from a block is determined by the links. */
  lemma {:induction false} ChainUnique(next: map<string, string>, id: string, c1: seq<string>, c2: seq<string>)
    requires IsChain(next, id, c1) && IsChain(next, id, c2)
    ensures c1 == c2
    decreases |c1|
  {
    if id in next && !Stops(next, id) {
      ChainUnique(next, next[id], c1[1..], c2[1..]);
      assert c1 == [c1[0]] + c1[1..];
      assert c2 == [c2[0]] + c2[1..];
    }
  }

  /** Every suffix of a chain is the chain of its first block. */
  lemma {:induction false} ChainSuffix(next: map<string, string>, id: string, c: seq<string>, j: nat)
    requires IsChain(next, id, c) && j < |c|
    ensures IsChain(next, c[j], c[j..])
    decreases j
  {
    if j > 0 {
      ChainTail(next, id, c);
      ChainSuffix(next, c[1], c[1..], j - 1);
      assert c[1..][j - 1..] == c[j..];
    }
  }

  /** A chain never visits a block twice. */
  lemma ChainDistinct(next: map<string, string>, id: string, c: seq<string>)
    requires IsChain(next, id, c)
    ensures forall i, j :: 0 <= i < j < |c| ==> c[i] != c[j]
  {
    forall i, j | 0 <= i < j < |c|
      ensures c[i] != c[j]
    {
      if c[i] == c[j] {
        ChainSuffix(next, id, c, i);
        ChainSuffix(next, id, c, j);
        ChainUnique(next, c[i], c[i..], c[j..]);
      }
    }
  }

  /** A chain is unaffected by link changes to blocks outside it. */
  lemma {:induction false} ChainStable(next: map<string, string>, next': map<string, string>, id: string, c: seq<string>)
    requires IsChain(next, id, c)
    requires next'.Keys == next.Keys
    requires forall k :: k in c && k in next ==> next'[k] == next[k]
    ensures IsChain(next', id, c)
    decreases |c|
  {
    if id in next {
      assert c[0] in c;
      if !Stops(next, id) {
        assert forall k :: k in c[1..] ==> k in c;
        ChainStable(next, next', next[id], c[1..]);
      }
    }
  }

  /** `next'` comes from `next` by deleting blocks and emptying links. */
  ghost predicate Pruned(next': map<string, string>, next: map<string, string>) {
    next'.Keys <= next.Keys && forall k :: k in next' ==> next'[k] == next[k] || next'[k] == ""
  }

  /** Deleting blocks and emptying links only shortens chains. */
  lemma {:induction false} ChainPruned(next': map<string, string>, next: map<string, string>, id: string, c: seq<string>)
    returns (c': seq<string>)
    requires Pruned(next', next) && IsChain(next, id, c)
    ensures IsChain(next', id, c') && |c'| <= |c|
    decreases |c|
  {
    if id !in next' {
      c' := [];
    } else if Stops(next', id) {
      c' := [id];
    } else {
      assert next'[id] == next[id] && next[id] in next;
      ChainLengthOne(next, id, c);
      ChainTail(next, id, c);
      var rest := ChainPruned(next', next, c[1], c[1..]);
      ChainCons(next', id, rest);
      c' := [id] + rest;
    }
  }

  lemma AllChainsEndPruned(next': map<string, string>, next: map<string, string>)
    requires Pruned(next', next) && AllChainsEnd(next)
    ensures AllChainsEnd(next')
  {
    forall k | k in next'
      ensures HasChain(next', k)
    {
      var c' := PrunedChainOf(next', next, k);
    }
  }

  lemma PrunedChainOf(next': map<string, string>, next: map<string, string>, k: string)
    returns (c': seq<string>)
    requires Pruned(next', next) && AllChainsEnd(next) && k in next'
    ensures IsChain(next', k, c')
  {
    assert HasChain(next, k);
    var c := ChainOf(next, k);
    c' := ChainPruned(next', next, k, c);
  }

  /** Linking `s` to the start of a chain that avoids `s` puts that chain
      behind `s`, and leaves the chain itself as it was. */
  lemma ChainLink(next: map<string, string>, s: string, t: string, ct: seq<string>)
    requires s in next && t in next && t != ""
    requires IsChain(next, t, ct) && s !in ct
    ensures IsChain(next[s := t], t, ct)
    ensures IsChain(next[s := t], s, [s] + ct)
  {
    var n' := next[s := t];
    ChainStable(next, n', t, ct);
    ChainCons(n', s, ct);
  }

  /** The walk behind a block never comes back to it. */
  lemma ChainAvoidsHead(next: map<string, string>, k: string, c: seq<string>)
    requires k in next && !Stops(next, k) && IsChain(next, next[k], c)
    ensures k !in c
  {
    ChainCons(next, k, c);
    ChainDistinct(next, k, [k] + c);
  }

  /** A block that links to itself has no chain: the source's walks from it
      never return. */
  lemma {:induction false} SelfLinkNoChain(next: map<string, string>, k: string, c: seq<string>)
    requires k in next && next[k] == k && k != ""
    ensures !IsChain(next, k, c)
    decreases |c|
  {
    if IsChain(next, k, c) {
      SelfLinkNoChain(next, k, c[1..]);
    }
  }

  /** Deleting a block outside a chain keeps the chain. */
  lemma {:induction false} ChainWithout(next: map<string, string>, id: string, k: string, c: seq<string>)
    requires IsChain(next, k, c) && id !in c
    ensures IsChain(next - {id}, k, c)
    decreases |c|
  {
    if k in next {
      assert c[0] == k;
      if !Stops(next, k) {
        ChainTail(next, k, c);
        ChainWithout(next, id, next[k], c[1..]);
      }
    }
  }
}
