/** `Partial<BlockType>` and the shallow merge `{ ...block, ...partial }` of
    the block records of src/renderer/lib/block/type.ts, as the list store
    and the block-content store apply them. */
module BlockPatch {
  import opened Records
  import opened Text
  import opened BlockTypes

  /** The fields a partial block names. */
  datatype Patch = Patch(
    id: Option<string>,
    kind: Option<Kind>,
    title: Option<string>,
    output: Option<string>,
    connections: Option<Connections>,
    contents: Option<seq<BlockContent>>,
    position: Option<Pos>,
    size: Option<Size>,
    childId: Option<string>,
    parentId: Option<string>,
    depth: Option<int>,
    zIndex: Option<int>,
    enclose: Option<Enclose>)

  /** The partial block that names no field. */
  const NoChange := Patch(None, None, None, None, None, None, None, None, None, None, None, None, None)

  function Pick<T>(o: Option<T>, v: T): T {
    if o.Some? then o.value else v
  }

  /** `{ ...b, ...u }`. */
  function Merge(b: BlockType, u: Patch): BlockType {
    Record(
      Pick(u.id, b.id), Pick(u.kind, b.kind), Pick(u.title, b.title), Pick(u.output, b.output),
      Pick(u.contents, b.contents), Pick(u.position, b.position), Pick(u.childId, b.children),
      Pick(u.parentId, b.parentId), Pick(u.depth, b.depth), Pick(u.zIndex, b.zIndex),
      Extra(Pick(u.connections, b.extra.connections), Pick(u.size, b.extra.size),
            if u.enclose.Some? then u.enclose else b.extra.enclose))
  }

  /** Every field a partial block names is replaced, every other one kept. */
  lemma MergeFields(b: BlockType, u: Patch)
    ensures var r := Merge(b, u);
      && (u.id.Some? ==> r.id == u.id.value) && (u.id.None? ==> r.id == b.id)
      && (u.kind.Some? ==> r.kind == u.kind.value) && (u.kind.None? ==> r.kind == b.kind)
      && (u.title.Some? ==> r.title == u.title.value) && (u.title.None? ==> r.title == b.title)
      && (u.output.Some? ==> r.output == u.output.value) && (u.output.None? ==> r.output == b.output)
      && (u.contents.Some? ==> r.contents == u.contents.value) && (u.contents.None? ==> r.contents == b.contents)
      && (u.position.Some? ==> r.position == u.position.value) && (u.position.None? ==> r.position == b.position)
      && (u.childId.Some? ==> r.children == u.childId.value) && (u.childId.None? ==> r.children == b.children)
      && (u.parentId.Some? ==> r.parentId == u.parentId.value) && (u.parentId.None? ==> r.parentId == b.parentId)
      && (u.depth.Some? ==> r.depth == u.depth.value) && (u.depth.None? ==> r.depth == b.depth)
      && (u.zIndex.Some? ==> r.zIndex == u.zIndex.value) && (u.zIndex.None? ==> r.zIndex == b.zIndex)
      && (u.connections.Some? ==> r.extra.connections == u.connections.value)
      && (u.connections.None? ==> r.extra.connections == b.extra.connections)
      && (u.size.Some? ==> r.extra.size == u.size.value) && (u.size.None? ==> r.extra.size == b.extra.size)
      && (u.enclose.Some? ==> r.extra.enclose == u.enclose) && (u.enclose.None? ==> r.extra.enclose == b.extra.enclose)
  {
  }

  /** Merging nothing keeps the block; merging twice is merging once. */
  lemma MergeNoChange(b: BlockType, u: Patch)
    ensures Merge(b, NoChange) == b
    ensures Merge(Merge(b, u), u) == Merge(b, u)
  {
  }
}
