/** The block records of src/renderer/lib/block/type.ts, used by the
    rendererr engine, BaseBlock, blockUtils, the list store, the Svelte block
    store and the Block class. The optional `childId` and `parentId` are the
    record's `children` and `parentId` fields, with "" for an absent or empty
    link. */
module BlockTypes {
  import opened Records
  import opened Text

  datatype Size = Size(width: int, height: int)

  datatype Connections = Connections(input: Option<Pos>, output: Option<Pos>)

  datatype Kind = Flag | Move | Composition | Works | Loop | ValueKind

  datatype SeparatorKind = Line | Space

  datatype SelectOption = SelectOption(id: string, title: string)

  /** The `content` of a content entry, by its `type`. */
  datatype ContentBody =
    | ValueContent(title: string, value: string, placeholder: string)
    | SeparatorContent(kind: SeparatorKind)
    | SelectContent(title: string, value: string, placeholder: string, options: seq<SelectOption>)

  datatype BlockContent = BlockContent(id: string, content: ContentBody)

  /** The fields of a block that only some operations read: its connection
      points, its size and the enclosure of a loop block. */
  datatype Extra = Extra(connections: Connections, size: Size, enclose: Option<Enclose>)

  /** A loop block's enclosure: where its inner area starts, its output
      connection point and the blocks placed inside it. */
  datatype Enclose = Enclose(offset: Pos, output: Pos, contents: seq<Record<Kind, BlockContent, Extra>>)

  type BlockType = Record<Kind, BlockContent, Extra>

  datatype EventKind = Add | Remove | Update | Clear | Output | Load

  /** A block store's notification. */
  datatype BlockStoreEvent = BlockStoreEvent(kind: EventKind, id: string, block: Option<BlockType>, output: Option<string>)

  datatype BlockStoreState = BlockStoreState(blocks: map<string, BlockType>, idList: seq<string>, output: string)
}
