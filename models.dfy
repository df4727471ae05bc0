/** The block records of the Rust front end (src/models/block.rs).
    Coordinates and sizes are `f64` there; they are only stored and
    assigned, so they are integers here. */
module Models {
  import opened Text

  datatype Position = Position(x: int, y: int)

  datatype Size = Size(width: int, height: int)

  datatype Connection = Input | Output | Both | NoConnection

  datatype BlockType = Flag | Works | Move | Composition

  datatype ContentValue = ContentValue(title: string, value: string, placeholder: Option<string>)

  datatype Separator = NoSeparator | Space | Newline

  datatype Options = Options(id: string, title: string, value: string)

  datatype ContentSelector = ContentSelector(title: string, value: string, options: seq<Options>, placeholder: Option<string>)

  datatype EnumBlockContent =
    | Value(value: ContentValue)
    | Selector(selector: ContentSelector)
    | Separated(separator: Separator)

  datatype BlockContent = BlockContent(id: string, content: EnumBlockContent)

  datatype Block = Block(
    id: string,
    blockType: BlockType,
    title: string,
    output: string,
    content: seq<BlockContent>,
    connection: Connection,
    childId: Option<string>,
    parentId: Option<string>,
    position: Position,
    size: Size,
    zIndex: int)

  /** The size every new block gets. */
  const DefaultSize := Size(150, 60)

  /** Block::new: the given id, type, title and position; empty output and
      content, no connection and no links, the default size, z-index 0. */
  function NewBlock(id: string, blockType: BlockType, title: string, position: Position): (b: Block)
    ensures b.id == id && b.blockType == blockType && b.title == title && b.position == position
    ensures b.output == "" && b.content == []
    ensures b.connection == NoConnection && b.childId == None && b.parentId == None
    ensures b.size == Size(150, 60) && b.zIndex == 0
  {
    Block(id, blockType, title, "", [], NoConnection, None, None, position, DefaultSize, 0)
  }
}
