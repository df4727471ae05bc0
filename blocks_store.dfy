/** useBlocksStore (src/renderer/lib/store/index.ts): a zustand store whose
    `contents` map each action replaces with a changed copy. */
module BlocksStores {
  import opened Records
  import opened Text
  import opened BlockTypes
  import opened BlockPatch

  class BlocksStore {
    var contents: map<string, BlockType>

    constructor()
      ensures contents == map[]
    {
      contents := map[];
    }

    /** addContent: stores the block under its id, replacing any entry. */
    method AddContent(content: BlockType)
      modifies this
      ensures contents == old(contents)[content.id := content]
    {
      contents := contents[content.id := content];
    }

    /** removeContent: deletes only that key. */
    method RemoveContent(id: string)
      modifies this
      ensures contents == old(contents) - {id}
    {
      contents := contents - {id};
    }

    /** updateContent: an absent id keeps the map; a present one gets the
        merged entry. */
    method UpdateContent(id: string, partialContent: Patch)
      modifies this
      ensures id !in old(contents) ==> contents == old(contents)
      ensures id in old(contents) ==> contents == old(contents)[id := Merge(old(contents)[id], partialContent)]
    {
      var newContents := contents;
      if id in newContents {
        newContents := newContents[id := Merge(newContents[id], partialContent)];
      }
      contents := newContents;
    }

    /** clearContents. */
    method ClearContents()
      modifies this
      ensures contents == map[]
    {
      contents := map[];
    }

    method GetBlock(id: string) returns (b: Option<BlockType>)
      ensures id in contents ==> b == Some(contents[id])
      ensures id !in contents ==> b == None
    {
      b := if id in contents then Some(contents[id]) else None;
    }

    /** getBlocks: the block under each key, once, in the map's iteration
        `order`. */
    method GetBlocks(order: seq<string>) returns (bs: seq<BlockType>)
      requires IsOrder(contents, order)
      ensures |bs| == |contents|
      ensures forall i :: 0 <= i < |order| ==> bs[i] == contents[order[i]]
    {
      bs := Values(contents, order);
    }
  }
}
