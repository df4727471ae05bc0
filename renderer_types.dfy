/** The workspace records of the renderer iteration
    (src/renderer/lib/types/index.ts): blocks linked by `children` and
    `parentId`, the history snapshots and the workspace state. */
module RendererTypes {
  import opened Records

  datatype BlockKind = Normal | Container | ValueBlock | Flag

  datatype ContentKind = NormalContent | ContainerContent | ValueContent

  datatype Content = Content(id: string, kind: ContentKind, text: string, inputType: string, value: string)

  /** An entry of `contents`: the separator string 'space' or a content record. */
  datatype Item = Space | Field(content: Content)

  datatype Color = Blue | Red | Green | Yellow | Orange | Cyan

  datatype ConnectionPoint = ConnectionPoint(input: bool, output: bool)

  /** The fields of a renderer block that the engine never reads. */
  datatype Extra = Extra(color: Color, connections: ConnectionPoint)

  /** A block. An empty `children` or `parentId` means "no link". */
  type Block = Record<BlockKind, Item, Extra>

  datatype HistoryState = HistoryState(blocks: map<string, Block>, positions: map<string, Pos>)

  datatype WorkspaceState = WorkspaceState(
    positions: map<string, Pos>,
    title: string,
    blocks: map<string, Block>,
    history: seq<HistoryState>,
    currentIndex: int)
}
