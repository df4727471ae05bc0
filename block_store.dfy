/** The Svelte BlockStore (src/renderer/lib/block/store.ts): one map of
    blocks, changed in place inside the writable's `update`. */
module BlockStores {
  import opened Text
  import opened BlockTypes

  class BlockStore {
    var blocks: map<string, BlockType>

    constructor()
      ensures blocks == map[]
    {
      blocks := map[];
    }

    /** addBlock: stores the block under its own id. */
    method AddBlock(block: BlockType)
      modifies this
      ensures blocks == old(blocks)[block.id := block]
    {
      blocks := blocks[block.id := block];
    }

    /** removeBlock: deletes only that key. */
    method RemoveBlock(id: string)
      modifies this
      ensures blocks == old(blocks) - {id}
    {
      blocks := blocks - {id};
    }

    /** getBlock: the block stored under the id, if any. */
    method GetBlock(id: string) returns (b: Option<BlockType>)
      ensures id in blocks ==> b == Some(blocks[id])
      ensures id !in blocks ==> b == None
    {
      b := if id in blocks then Some(blocks[id]) else None;
    }

    /** getBlocks: a copy of the map; a map value is never changed by later
        updates of the store. */
    method GetBlocks() returns (copy: map<string, BlockType>)
      ensures copy.Keys == blocks.Keys && forall id :: id in copy ==> copy[id] == blocks[id]
    {
      copy := blocks;
    }

    /** clearBlocks. */
    method ClearBlocks()
      modifies this
      ensures blocks == map[]
    {
      blocks := map[];
    }

    /** updateBlock: inserts or replaces under the given id, which need not be
        the block's own. */
    method UpdateBlock(id: string, block: BlockType)
      modifies this
      ensures blocks == old(blocks)[id := block]
    {
      blocks := blocks[id := block];
    }
  }
}
