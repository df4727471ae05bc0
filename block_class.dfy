/** The Block class of src/renderer/lib/block/class.ts: a fresh block built
    from a template. The template's own type is not declared in the block
    type file; it is taken to be a block record, of which the constructor
    keeps the kind, title, output, contents and connection points and resets
    the rest. The generated id is a parameter. */
module BlockClass {
  import opened Records
  import opened Text
  import opened BlockTypes

  /** The inner area a new block gets: offset (8,0), output point (0,0), no
      blocks inside. */
  const NewEnclose := Enclose(Pos(8, 0), Pos(0, 0), [])

  /** The constructor's block. */
  function NewBlock(template: BlockType, id: string): (b: BlockType)
    ensures b.id == id
    ensures b.position == Pos(0, 0) && b.extra.size == Size(0, 0)
    ensures b.children == "" && b.parentId == "" && b.depth == 0 && b.zIndex == 0
    ensures b.extra.enclose == Some(NewEnclose)
    ensures b.kind == template.kind && b.title == template.title && b.output == template.output
    ensures b.contents == template.contents && b.extra.connections == template.extra.connections
  {
    template.(id := id, position := Pos(0, 0), children := "", parentId := "", depth := 0, zIndex := 0,
              extra := Extra(template.extra.connections, Size(0, 0), Some(NewEnclose)))
  }

  /** Templates that share their kept fields give the same new block: the
      template's position, links, size and enclosure never show through. */
  lemma NewBlockForgets(t1: BlockType, t2: BlockType, id: string)
    requires t1.kind == t2.kind && t1.title == t2.title && t1.output == t2.output
    requires t1.contents == t2.contents && t1.extra.connections == t2.extra.connections
    ensures NewBlock(t1, id) == NewBlock(t2, id)
  {
  }

  /** A new block's fields are already reset, so building again from it
      with the same id gives it back. */
  lemma NewBlockStable(template: BlockType, id: string)
    ensures NewBlock(NewBlock(template, id), id) == NewBlock(template, id)
  {
  }
}
