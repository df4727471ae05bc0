/** AppState of the Rust front end (src/state/app_state.rs): the block
    templates by name, the placed blocks by id and the block being dragged.
    The generated id of `add_block` is a parameter. */
module AppStates {
  import opened Records
  import opened Text
  import opened Models

  datatype BlockList = BlockList(name: string, block: Block)

  datatype Dragging = Dragging(id: string, x: int, y: int)

  /** The contents after update_block_content: the first entry with the id
      gets the value when it holds a value; a selector, a separator or no
      such entry leaves the contents as they are. */
  function WithValue(cs: seq<BlockContent>, contentId: string, value: string): (r: seq<BlockContent>)
    ensures |r| == |cs|
    ensures forall j :: 0 <= j < |cs| ==> r[j].id == cs[j].id
    ensures forall j :: 0 <= j < |cs| && cs[j].id != contentId ==> r[j] == cs[j]
    decreases |cs|
  {
    if cs == [] then []
    else if cs[0].id == contentId then
      match cs[0].content
      case Value(cv) => [cs[0].(content := Value(cv.(value := value)))] + cs[1..]
      case _ => cs
    else [cs[0]] + WithValue(cs[1..], contentId, value)
  }

  /** `WithValue` in terms of the first entry with the id: it changes that
      entry's value only, and only when the entry holds a value. */
  lemma {:induction false} WithValueFirst(cs: seq<BlockContent>, contentId: string, value: string, i: nat)
    requires i <= |cs| && forall j :: 0 <= j < i ==> cs[j].id != contentId
    ensures i == |cs| ==> WithValue(cs, contentId, value) == cs
    ensures i < |cs| && cs[i].id == contentId && !cs[i].content.Value? ==> WithValue(cs, contentId, value) == cs
    ensures i < |cs| && cs[i].id == contentId && cs[i].content.Value? ==>
      WithValue(cs, contentId, value) == cs[i := cs[i].(content := Value(cs[i].content.value.(value := value)))]
    decreases i
  {
    if i > 0 {
      WithValueFirst(cs[1..], contentId, value, i - 1);
      var rest := WithValue(cs[1..], contentId, value);
      assert WithValue(cs, contentId, value) == [cs[0]] + rest;
      if i == |cs| {
        assert cs == [cs[0]] + cs[1..];
      } else if cs[i].id == contentId && cs[i].content.Value? {
        assert cs[1..][i - 1] == cs[i];
        assert [cs[0]] + cs[1..][i - 1 := cs[i].(content := Value(cs[i].content.value.(value := value)))]
          == cs[i := cs[i].(content := Value(cs[i].content.value.(value := value)))];
      } else if cs[i].id == contentId {
        assert cs[1..][i - 1] == cs[i];
        assert cs == [cs[0]] + cs[1..];
      }
    }
  }

  /** A block placed from a template keeps everything of the template but
      its id and position. */
  function Placed(template: Block, id: string, x: int, y: int): Block {
    template.(id := id, position := Position(x, y))
  }

  /** A block placed from a template made by Block::new carries that
      constructor's defaults. */
  lemma PlacedDefaults(name: string, t: Models.BlockType, title: string, p: Position, id: string, x: int, y: int)
    ensures var b := Placed(NewBlock(name, t, title, p), id, x, y);
      && b.id == id && b.position == Position(x, y)
      && b.childId == None && b.parentId == None && b.size == DefaultSize && b.zIndex == 0
  {
  }

  class AppState {
    var blockList: map<string, BlockList>
    var blocks: map<string, Block>
    var dragging: Option<Dragging>

    /** `AppState::default()`. */
    constructor()
      ensures blockList == map[] && blocks == map[] && dragging == None
    {
      blockList := map[];
      blocks := map[];
      dragging := None;
    }

    /** add_block_list: stores the template under its name, replacing any
        template of that name. */
    method AddBlockList(block: BlockList)
      modifies this
      ensures blockList == old(blockList)[block.name := block]
      ensures blocks == old(blocks) && dragging == old(dragging)
    {
      blockList := blockList[block.name := block];
    }

    method RemoveBlockList(name: string)
      modifies this
      ensures blockList == old(blockList) - {name}
      ensures blocks == old(blocks) && dragging == old(dragging)
    {
      blockList := blockList - {name};
    }

    method ClearBlockList()
      modifies this
      ensures blockList == map[]
      ensures blocks == old(blocks) && dragging == old(dragging)
    {
      blockList := map[];
    }

    method GetBlockList(name: string) returns (r: Option<BlockList>)
      ensures name in blockList ==> r == Some(blockList[name])
      ensures name !in blockList ==> r == None
    {
      r := if name in blockList then Some(blockList[name]) else None;
    }

    /** get_all_block_lists: the template under each name, once, in the
        map's iteration `order`. */
    method GetAllBlockLists(order: seq<string>) returns (r: seq<BlockList>)
      requires IsOrder(blockList, order)
      ensures |r| == |blockList|
      ensures forall i :: 0 <= i < |order| ==> r[i] == blockList[order[i]]
    {
      r := Values(blockList, order);
    }

    /** add_block: an unknown template name changes nothing and gives None;
        otherwise a clone of the template with the new id and the position
        goes under that id, which is returned. */
    method AddBlock(name: string, x: int, y: int, newId: string) returns (r: Option<string>)
      modifies this
      ensures blockList == old(blockList) && dragging == old(dragging)
      ensures name !in blockList ==> r == None && blocks == old(blocks)
      ensures name in blockList ==>
        r == Some(newId) && blocks == old(blocks)[newId := Placed(blockList[name].block, newId, x, y)]
    {
      if name in blockList {
        var template := blockList[name];
        var newBlock := template.block;
        newBlock := newBlock.(id := newId);
        newBlock := newBlock.(position := newBlock.position.(x := x));
        newBlock := newBlock.(position := newBlock.position.(y := y));
        blocks := blocks[newId := newBlock];
        r := Some(newId);
      } else {
        r := None;
      }
    }

    /** update_block_position: moves only that block; a missing id is a
        no-op. */
    method UpdateBlockPosition(id: string, x: int, y: int)
      modifies this
      ensures blockList == old(blockList) && dragging == old(dragging)
      ensures id !in old(blocks) ==> blocks == old(blocks)
      ensures id in old(blocks) ==> blocks == old(blocks)[id := old(blocks)[id].(position := Position(x, y))]
    {
      if id in blocks {
        blocks := blocks[id := blocks[id].(position := Position(x, y))];
      }
    }

    /** update_block_content: finds the first content entry with the id and
        sets its value when it holds one. */
    method UpdateBlockContent(id: string, contentId: string, contentValue: string)
      modifies this
      ensures blockList == old(blockList) && dragging == old(dragging)
      ensures id !in old(blocks) ==> blocks == old(blocks)
      ensures id in old(blocks) ==>
        blocks == old(blocks)[id := old(blocks)[id].(content := WithValue(old(blocks)[id].content, contentId, contentValue))]
    {
      if id in blocks {
        var block := blocks[id];
        var cs := block.content;
        var i := 0;
        while i < |cs| && cs[i].id != contentId
          invariant 0 <= i <= |cs|
          invariant forall j :: 0 <= j < i ==> cs[j].id != contentId
        {
          i := i + 1;
        }
        WithValueFirst(cs, contentId, contentValue, i);
        if i < |cs| {
          match cs[i].content {
            case Value(cv) =>
              cs := cs[i := cs[i].(content := Value(cv.(value := contentValue)))];
            case _ =>
          }
        }
        blocks := blocks[id := block.(content := cs)];
      }
    }

    /** remove_block: removes exactly that block, with no cascade and no link
        clearing. */
    method RemoveBlock(id: string)
      modifies this
      ensures blocks == old(blocks) - {id}
      ensures blockList == old(blockList) && dragging == old(dragging)
    {
      blocks := blocks - {id};
    }

    method ClearBlocks()
      modifies this
      ensures blocks == map[]
      ensures blockList == old(blockList) && dragging == old(dragging)
    {
      blocks := map[];
    }

    method GetBlock(id: string) returns (r: Option<Block>)
      ensures id in blocks ==> r == Some(blocks[id])
      ensures id !in blocks ==> r == None
    {
      r := if id in blocks then Some(blocks[id]) else None;
    }

    /** get_all_blocks: the block under each id, once, in the map's
        iteration `order`. */
    method GetAllBlocks(order: seq<string>) returns (r: seq<Block>)
      requires IsOrder(blocks, order)
      ensures |r| == |blocks|
      ensures forall i :: 0 <= i < |order| ==> r[i] == blocks[order[i]]
    {
      r := Values(blocks, order);
    }
  }
}
