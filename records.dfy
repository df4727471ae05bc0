/** The block record shared by the engine iterations: an id, a kind, a title,
    an output template, contents, a position, the child and parent links, a
    depth and a stacking index. The iterations differ in their kinds, their
    content entries and a few extra fields, so those are type parameters:
    `K` the kind, `C` a content entry and `X` the remaining fields. The child
    link is `children` in one iteration and `childId` in another; both are
    the field `children` here, and an empty string (or an absent property)
    means "no link". */
module Records {

  import opened Text

  datatype Pos = Pos(x: int, y: int)

  datatype Record<K, C, X> = Record(
    id: string,
    kind: K,
    title: string,
    output: string,
    contents: seq<C>,
    position: Pos,
    children: string,
    parentId: string,
    depth: int,
    zIndex: int,
    extra: X)

  /** The child link of every stored block. */
  function Links<K, C, X>(m: map<string, Record<K, C, X>>): map<string, string> {
    map k | k in m :: m[k].children
  }

  /** Every block is stored under its own id. */
  predicate KeysAgree<K, C, X>(m: map<string, Record<K, C, X>>) {
    forall k :: k in m ==> m[k].id == k
  }

  /** `a` and `b` store the same ids with the same child and parent links. */
  predicate SameLinks<K, C, X>(a: map<string, Record<K, C, X>>, b: map<string, Record<K, C, X>>) {
    a.Keys == b.Keys && forall k :: k in a ==> a[k].children == b[k].children && a[k].parentId == b[k].parentId
  }

  lemma SameLinksEqual<K, C, X>(a: map<string, Record<K, C, X>>, b: map<string, Record<K, C, X>>)
    requires SameLinks(a, b)
    ensures Links(a) == Links(b)
  {
  }

  /** Updating a block without touching its `children` keeps every link. */
  lemma LinksSameUpdate<K, C, X>(m: map<string, Record<K, C, X>>, k: string, b: Record<K, C, X>)
    requires k in m && b.children == m[k].children
    ensures Links(m[k := b]) == Links(m)
  {
  }

  /** Storing a record under its own id keeps every block under its id. */
  lemma KeysAgreeUpdate<K, C, X>(m: map<string, Record<K, C, X>>, b: Record<K, C, X>)
    requires KeysAgree(m)
    ensures KeysAgree(m[b.id := b])
  {
  }

  lemma KeysAgreeRemove<K, C, X>(m: map<string, Record<K, C, X>>, s: set<string>)
    requires KeysAgree(m)
    ensures KeysAgree(m - s)
  {
  }

  /** `order` lists every key of `m` exactly once: the order in which the
      source's map iterates, which Dafny's maps do not have. */
  ghost predicate IsOrder<V>(m: map<string, V>, order: seq<string>)
  {
    |order| == |m| && Distinct(order) && forall k :: k in order <==> k in m
  }

  /** The values of a map, one per key, in the map's iteration `order`. */
  method Values<V>(m: map<string, V>, order: seq<string>) returns (vs: seq<V>)
    requires IsOrder(m, order)
    ensures |vs| == |order|
    ensures forall i :: 0 <= i < |order| ==> vs[i] == m[order[i]]
  {
    vs := [];
    var i := 0;
    while i < |order|
      invariant 0 <= i <= |order|
      invariant |vs| == i
      invariant forall j :: 0 <= j < i ==> vs[j] == m[order[j]]
    {
      vs := vs + [m[order[i]]];
      i := i + 1;
    }
  }
}
