# ScrPression block workspace engine, modelled in Dafny

ScrPression is a visual block editor. The user drags blocks onto a canvas and
snaps them under one another; the chain of blocks compiles into program text.
This project models the engine behind that editor, across its iterations, and
proves properties of the model:

- **The engines** over a map of block records linked by a one-way child link
  (`children` or `childId`) and a `parentId`:
  - the renderer iteration (`RendererBlock`, src/renderer/lib/utils/block.ts);
  - the lib iteration (`LibBlock`, src/lib/utils/block.ts);
  - the rendererr iteration (`RendererrBlock`, src/rendererr/lib/utils/block.ts).

  Each engine removes blocks, detaches a block when its drag starts, stacks a
  chain under a block, numbers a chain's z-indices and links two blocks. Each
  also finds a root along `parentId` and compiles a block list into text.
- **The walks these engines share** (`Chain`, `Layout`): following the child link;
  placing a chain under its head with the renderer's spacing (40·(d+1) at
  depth d) or the lib's spacing (40 + 2·d); stacking a chain 40 apart;
  numbering z-indices; finding the root.
- **The BaseBlock component's store edits** (`BaseBlock`): handleConnect,
  updateConnectedPosition, and the flag block's program text with loop
  enclosures.
- **blockUtils** (`BlockUtils`): findAllChildren and formatBlockOutput.
- **BlockManager** (`BlockManager`): createBlock, getNextZIndex,
  wouldCreateCycle, connectBlocks, updateBlock and updateBlockZIndex.
- **The two histories:**
  - the undo/redo stacks of src/renderer/lib/stores/index.ts (`History`);
  - the cursor history of HistoryManager (`CursorHistory`).
- **The stores:**
  - `Store<T>` (`Stores`); WorkspaceStore (`WorkspaceStores`);
  - ListStore (`ListStores`); CanvasStore (`CanvasStores`);
  - the Svelte BlockStore (`BlockStores`); the zustand blocks store (`BlocksStores`);
  - ListenerManager (`ListenerManagers`); EventManager (`EventManagers`);
  - BlockEventEmitter (`BlockEvents`).

  Their shared listener lists are in `Observers`.
- **The block class** (`BlockClass`).
- **The Rust front end's state and records** (`AppStates`, `Models`).

Strings are `seq<char>` and the JavaScript string operations (`indexOf`,
`replace`, global `replace`, `join`, `trim`) are in `Text`. The block records
of the TypeScript iterations share the generic `Records.Record`. An empty
string stands for an absent link, as the source's falsy tests read it.

How the model is built:

- **Shared state becomes a class.** A component whose fields change in place
  is a `class` whose methods state the new state as a function of the old.
  Loops are `while` loops with invariants, proved against ghost
  specification functions (`Layout.PlaceBelow`, `Layout.Stacked`,
  `Layout.Numbered`, `Layout.Removed`, …). The properties of those functions
  are separate lemmas.
- **Listeners have identities.** A listener is an identity of a type `L`. A
  notification is returned as the sequence of calls it makes
  (`Observers.Call`).
- **Singletons are slots.** A `getInstance` singleton is a slot class holding
  the instance.
- **The page is an oracle.** Whatever the page decides becomes a parameter:
  - which output points overlap which inputs;
  - how many drop-zone elements lie under the mouse: trash or block-list elements in the renderer and rendererr iterations, trash elements alone in the lib one;
  - whether the block space exists;
  - the order of a map's `forEach`.
- **Generated ids are parameters.**

## Model

| member | source | states |
|---|---|---|
| Text.FindFirst | src/renderer/lib/components/BaseBlock.tsx:196 | a found index leaves room for the pattern |
| Text.FindFirstSpec | src/renderer/lib/components/BaseBlock.tsx:196 | `indexOf` finds nothing exactly when the pattern does not occur, and otherwise finds its first occurrence |
| Text.ReplaceFirst | src/renderer/lib/components/BaseBlock.tsx:196 | a string-pattern `replace` changes nothing when the pattern does not occur |
| Text.ReplaceFirstAt | src/renderer/lib/components/BaseBlock.tsx:196 | a string-pattern `replace` replaces the first occurrence and no other |
| Text.Token | src/renderer/lib/utils/blockUtils.ts:21 | the placeholder `${id}` is the id plus three characters |
| Text.ReplaceAllAbsent | src/renderer/lib/utils/blockUtils.ts:21 | a global replace of an absent placeholder changes nothing |
| Text.ReplaceAllSelf | src/renderer/lib/utils/blockUtils.ts:21 | replacing a placeholder by itself changes nothing |
| Text.ReplaceAllLength | src/renderer/lib/utils/blockUtils.ts:21 | each replaced match changes the length by the difference of the two lengths |
| Text.ReplaceAllUnfold | src/renderer/lib/utils/blockUtils.ts:21 | the global replace replaces the first match, then continues after it |
| Text.ReplaceAll | src/renderer/lib/utils/blockUtils.ts:21 | the global replace of a placeholder by a text no shorter never shortens the template, and by a text no longer never lengthens it |
| Text.Join | src/renderer/lib/utils/blockUtils.ts:26 | joining nothing gives "", and joining one part gives that part |
| Text.JoinSnoc | src/renderer/lib/utils/blockUtils.ts:26 | one more part adds one separator and the part |
| Text.TrimStart | src/renderer/lib/utils/blockUtils.ts:27 | the result is a suffix, only white space is dropped, and the result starts with no white space |
| Text.TrimEnd | src/renderer/lib/utils/blockUtils.ts:27 | the result is a prefix, only white space is dropped, and the result ends with no white space |
| Text.Trim | src/renderer/lib/utils/blockUtils.ts:27 | the result is no longer than the input and has no white space at either end |
| Text.TrimFrame | src/renderer/lib/utils/blockUtils.ts:27 | the input is the result framed by white space on both sides |
| Text.TrimIdempotent | src/renderer/lib/utils/blockUtils.ts:27 | trimming twice is trimming once |
| Text.TrimDropsTrailing | src/renderer/lib/utils/blockUtils.ts:27 | trailing white space does not survive a trim |
| Text.TrimEndAppend | src/renderer/lib/utils/blockUtils.ts:27 | one trailing white-space character does not survive a trim |
| Text.TrimStartSnoc | src/renderer/lib/utils/blockUtils.ts:27 | trimming the start of a string with one more white-space character at the end keeps that character, unless everything was white space |
| Text.TrimEndSnoc | src/renderer/lib/utils/blockUtils.ts:27 | a trailing white-space character does not survive trimming the end |
| Records.Values | src/renderer/lib/store/index.ts:40-42 | the values of a map, the i-th being the value under the i-th key of the iteration order, so each key contributes its value exactly once |
| Chain.ChainOf | src/renderer/lib/utils/block.ts:108-120 | a walk that ends has its chain |
| Chain.ChainFacts | src/renderer/lib/utils/block.ts:108-120 | every block of a chain is stored, each block follows its predecessor's link, and the walk stops at the last block |
| Chain.ChainUnique | src/renderer/lib/utils/block.ts:108-120 | the links determine the walk |
| Chain.ChainDistinct | src/renderer/lib/utils/block.ts:108-120 | a walk that ends never visits a block twice |
| Chain.ChainPruned | src/renderer/lib/utils/block.ts:31-37 | deleting blocks and emptying links only shortens walks |
| Chain.AllChainsEndPruned | src/renderer/lib/utils/block.ts:31-37 | deleting blocks and emptying links keeps every walk finite |
| Chain.ChainLink | src/lib/utils/block.ts:218-242 | linking a source to a target whose walk avoids the source gives the source the walk source, then the target's walk |
| Chain.SelfLinkNoChain | src/lib/utils/block.ts:228-242 | a block linked to itself has no walk that ends |
| Layout.Detached | src/renderer/lib/utils/block.ts:24-29 | the parent of the block loses its `children`; every other block, and every key, stays |
| Layout.DragDetached | src/renderer/lib/utils/block.ts:75-84 | the block gets no parent; its former parent (another stored block) loses its `children`; everything else stays |
| Layout.DetachedPruned | src/renderer/lib/utils/block.ts:24-29 | detaching only empties a link |
| Layout.DragDetachedPruned | src/renderer/lib/utils/block.ts:75-84 | a drag start only empties a link |
| Layout.StrideScaledFromRoot | src/renderer/lib/utils/block.ts:172-176 | with the renderer's spacing the k-th block sits 20·k·(k+1) below the root, that is 40·(1+…+k) |
| Layout.StrideStaggeredFromRoot | src/lib/utils/block.ts:176-186 | with the lib's spacing the k-th block sits 40·k + k·(k−1) below the root |
| Layout.PlaceBelow | src/renderer/lib/utils/block.ts:165-180 | updateBlockPositions' recursion keeps every key |
| Layout.PlaceBelowSameLinks | src/renderer/lib/utils/block.ts:165-180 | placing moves blocks and sets depths, never a link |
| Layout.PlaceBelowOff | src/renderer/lib/utils/block.ts:165-180 | the head and every block off the walk keep their records |
| Layout.PlaceBelowOn | src/renderer/lib/utils/block.ts:172-176 | the i-th block below the head keeps the head's x, sits the accumulated spacing below it, at depth d+i |
| Layout.PlaceBelowLayout | src/renderer/lib/utils/block.ts:161-184 | along the walk every block is placed under the head; every block off it is unchanged |
| Layout.PlaceBelowIdempotent | src/renderer/lib/utils/block.ts:161-184 | the head never moves, so placing twice is placing once |
| Layout.Stacked | src/renderer/lib/utils/block.ts:104-121 | stacking keeps every key |
| Layout.StackedLinks | src/renderer/lib/utils/block.ts:104-121 | stacking moves blocks, never a link |
| Layout.StackedOff | src/renderer/lib/utils/block.ts:104-121 | a block off the walk keeps its record |
| Layout.StackedOn | src/renderer/lib/utils/block.ts:112-115 | the i-th block of the walk goes to (x, y + 40·(i+1)) and keeps everything else |
| Layout.StackedLayout | src/renderer/lib/utils/block.ts:104-121 | every block of the walk is stacked 40 apart below (x, y); every other block is unchanged |
| Layout.StackedKeysAgree | src/renderer/lib/utils/block.ts:104-121 | stacking keeps every block under its own id |
| Layout.Numbered | src/renderer/lib/utils/block.ts:127-138 | numbering keeps every key |
| Layout.NumberedSameLinks | src/renderer/lib/utils/block.ts:127-138 | numbering changes z-indices only, never a link |
| Layout.NumberedOff | src/renderer/lib/utils/block.ts:127-138 | a block off the walk keeps its record |
| Layout.NumberedOn | src/renderer/lib/utils/block.ts:132 | the i-th block of the walk gets z-index from+i and keeps everything else |
| Layout.NumberedLayout | src/renderer/lib/utils/block.ts:123-142 | the walk is numbered from, from+1, … in walk order; nothing else changes |
| Layout.NumberedKeysAgree | src/renderer/lib/utils/block.ts:127-138 | numbering keeps every block under its own id |
| Layout.Relaid | src/renderer/lib/utils/block.ts:42 | re-laying out one block keeps every link |
| Layout.RelayAll | src/renderer/lib/utils/block.ts:41-43 | the re-layout loop keeps every link |
| Layout.RemovedWalk | src/renderer/lib/utils/block.ts:31-39 | the deleted walk is the chain from the block once its parent has been detached |
| Layout.RemovedShape | src/renderer/lib/utils/block.ts:20-48 | removeBlock on an unknown id changes nothing; otherwise it deletes exactly the block and its `children` walk, the former parent loses its `children`, and every other block keeps its link |
| Layout.RemovedChainsEnd | src/renderer/lib/utils/block.ts:20-48 | after a removal every walk still ends, so removals compose |
| Layout.FindRootBlock | src/renderer/lib/utils/block.ts:144-159 | a found root is a stored block with no parent; a visited or unknown id gives null |
| Layout.FindRootSound | src/lib/utils/block.ts:144-163 | a found root ends a parent walk from the id that avoids the visited set |
| Layout.FindRootComplete | src/rendererr/lib/utils/block.ts:124-135 | every repetition-free parent walk that avoids the visited set is followed to its root |
| RendererBlock.Linked | src/renderer/lib/utils/block.ts:193-210 | the link writes: the source names the target, the target names the source and sits 40 below it, the former parent loses its `children`, and nothing else changes |
| RendererBlock.ConnectedLinks | src/renderer/lib/utils/block.ts:186-216 | after a connection: source.children = target, target.parentId = source, the former parent has no `children`, and no block is added or lost |
| RendererBlock.ConnectedLayout | src/renderer/lib/utils/block.ts:186-216 | after a connection the source stays put, the target is 40 below it, and source and target are numbered 1 and 2 with the target at depth 1 |
| RendererBlock.LinkedKeysAgree | src/renderer/lib/utils/block.ts:193-210 | the link writes keep every block under its own id |
| RendererBlock.Substitute | src/renderer/lib/utils/block.ts:246-251 | with only `'space'` entries the template is unchanged |
| RendererBlock.Visible | src/renderer/lib/utils/block.ts:244 | the filter keeps no flag block, and keeps a list without flags whole |
| RendererBlock.VisibleAppend | src/renderer/lib/utils/block.ts:244 | the filter distributes over concatenation |
| RendererBlock.VisibleSkipsFlag | src/renderer/lib/utils/block.ts:244 | a flag block is filtered out wherever it stands |
| RendererBlock.RenderAll | src/renderer/lib/utils/block.ts:245-253 | the map renders each block in order |
| RendererBlock.FormatOutput | src/renderer/lib/utils/block.ts:242-257 | the output has no white space at either end, and is "" when only flag blocks are given |
| RendererBlock.FormatOutputSkipsFlag | src/renderer/lib/utils/block.ts:244 | flag blocks contribute nothing, wherever they stand |
| RendererBlock.FormatOutputSingle | src/renderer/lib/utils/block.ts:242-257 | one block's output is its substituted template trimmed, and its template trimmed when it has only `'space'` entries |
| RendererBlock.FormatOutputSnoc | src/renderer/lib/utils/block.ts:254 | one more block adds a newline and its text before the trim |
| RendererBlock.Engine.UpdateChildrenPositions | src/renderer/lib/utils/block.ts:104-121 | the walk below the block is stacked 40 apart below it; nothing else changes |
| RendererBlock.Engine.StackChildren | src/renderer/lib/utils/block.ts:108-120 | the loop computes the stacking of the walk |
| RendererBlock.Engine.UpdateZIndex | src/renderer/lib/utils/block.ts:123-142 | the walk from the id is numbered 1, 2, 3, … |
| RendererBlock.Engine.NumberChain | src/renderer/lib/utils/block.ts:128-138 | the recursion numbers the walk from the counter, and the counter ends |walk| higher |
| RendererBlock.Engine.UpdateBlockPositions | src/renderer/lib/utils/block.ts:161-184 | every block of the walk is placed under the head with the renderer's spacing |
| RendererBlock.Engine.PlaceChildren | src/renderer/lib/utils/block.ts:165-180 | the recursion from depth d computes the placement |
| RendererBlock.Engine.RemoveChildren | src/renderer/lib/utils/block.ts:31-37 | the recursion deletes exactly the blocks of the walk |
| RendererBlock.Engine.RemoveBlock | src/renderer/lib/utils/block.ts:20-48 | the store ends as `Layout.Removed`: the block's parent detached, its walk deleted, every remaining block re-laid out in the loop's order |
| RendererBlock.Engine.OnDragStart | src/renderer/lib/utils/block.ts:71-85 | an unknown id changes nothing; a block with a parent leaves it and raises the grace flag; a block without one is stored back unchanged |
| RendererBlock.Engine.OnDragEnd | src/renderer/lib/utils/block.ts:87-102 | the grace flag always goes down; with `strict` and a trash or block-list hit the block is removed, otherwise nothing changes |
| RendererBlock.Engine.Link | src/renderer/lib/utils/block.ts:193-210 | the writes compute `Linked` and keep every block under its id |
| RendererBlock.Engine.HandleBlockConnection | src/renderer/lib/utils/block.ts:186-216 | true exactly when both blocks exist, the source has no `children` and they differ; false leaves the map unchanged; true leaves the connected map |
| LibBlock.Added | src/lib/utils/block.ts:8-16 | addBlock stores a copy of the template under the fresh key, with that key as its id; every other block is untouched |
| LibBlock.Dropped | src/lib/utils/block.ts:33-47 | onDrag's first writes keep every key |
| LibBlock.DroppedChainsEnd | src/lib/utils/block.ts:33-47 | onDrag's first writes keep every walk finite |
| LibBlock.DragWalk | src/lib/utils/block.ts:50-61 | the walk below the dropped block exists and is stored |
| LibBlock.FollowedShape | src/lib/utils/block.ts:32-64 | onDrag's store update: the block is at (x, y) with no parent, its former parent has no `children`, each block of its walk is 40 below the one before, and every other block is unchanged |
| LibBlock.FollowedChain | src/lib/utils/block.ts:66-68 | the z-order pass that onDrag's subscription starts walks the block, then the walk below it |
| LibBlock.DraggedShape | src/lib/utils/block.ts:31-68 | onDrag, including the z-order pass its `subscribe` runs at once: the block is at (x, y) with no parent and z-index 1; its former parent has no `children`; the k-th block of its walk is 40·k below it with z-index k+1; every other block is unchanged except for z-index 0 |
| LibBlock.ZIndexedPrefix | src/lib/utils/block.ts:119-142 | numbering a chain that starts with the block gives it 1, the k-th block after it k+1, and every other block 0, changing nothing else |
| LibBlock.StackedBelow | src/lib/utils/block.ts:50-61 | stacking the walk below a block leaves that block and every block off the walk as they were |
| LibBlock.CascadeSub | src/lib/utils/block.ts:104-117 | removeBlock deletes the block and changes no remaining record, so a former parent keeps its stale `children` |
| LibBlock.CascadeChain | src/lib/utils/block.ts:104-117 | on a walk that ends, removeBlock deletes exactly the blocks of the walk |
| LibBlock.Zeroed | src/lib/utils/block.ts:123-126 | the first pass keeps every key |
| LibBlock.ZIndexedShape | src/lib/utils/block.ts:119-142 | a missing id changes nothing; otherwise the walk gets 1..k in order and every other block 0 |
| LibBlock.Linked | src/lib/utils/block.ts:208-225 | handleBlockConnection's writes keep every key |
| LibBlock.SelfConnectionLoops | src/lib/utils/block.ts:228-242 | connecting a block to itself links it to itself, so the source's loop never ends |
| LibBlock.TargetWalk | src/lib/utils/block.ts:228-242 | the walk below the linked target exists and is stored |
| LibBlock.Restacked | src/lib/utils/block.ts:228-242 | the stacking loop keeps every link of the writes |
| LibBlock.ConnectedSameLinks | src/lib/utils/block.ts:244-247 | the z-order pass changes no link |
| LibBlock.ConnectedLinks | src/lib/utils/block.ts:194-250 | on success source.children = target, target.parentId = source, and the former parent loses its `children` |
| LibBlock.LinkedLinks | src/lib/utils/block.ts:208-219 | the links the writes leave, for the source, the target, the former parent and every other block |
| LibBlock.LinkedShape | src/lib/utils/block.ts:208-225 | the records the writes leave: the target 40 below the source, the former parent without `children`, every other record unchanged |
| LibBlock.TargetWalkAvoids | src/lib/utils/block.ts:228-242 | neither the source nor the target is on the walk below the linked target |
| LibBlock.RestackedLayout | src/lib/utils/block.ts:221-242 | on success the target sits at source + (0, 40) and the k-th block after it at source.y + 40·(k+1), with the source's x |
| LibBlock.ConnectedChain | src/lib/utils/block.ts:247 | the z-order pass walks the source, the target and the walk below it |
| LibBlock.ConnectedZOrder | src/lib/utils/block.ts:194-250 | on success the source gets z-index 1, the target 2, the k-th block after the target k+2, and every other block 0 |
| LibBlock.ZIndexedPair | src/lib/utils/block.ts:119-142 | numbering a chain that starts source, target gives 1, 2, then k+2 |
| LibBlock.Engine.AddBlock | src/lib/utils/block.ts:8-16 | the store ends as `Added` |
| LibBlock.Engine.OnDrag | src/lib/utils/block.ts:31-68 | the store ends as `Dragged`: the store update, then the first run of the subscribed updateZIndex |
| LibBlock.Engine.DragUpdate | src/lib/utils/block.ts:32-64 | onDrag's `workspace.update` computes the store update `Followed` and keeps every block under its id |
| LibBlock.Engine.FollowDown | src/lib/utils/block.ts:50-61 | the loop stacks the walk below the block |
| LibBlock.Engine.OnDragStart | src/lib/utils/block.ts:72-90 | `strict` changes nothing; otherwise a block with a parent leaves it, its parent loses its `children`, and the grace flag rises |
| LibBlock.Engine.DetachFromParent | src/lib/utils/block.ts:35-43 | the shared parent removal computes `DragDetached` |
| LibBlock.Engine.OnDragEnd | src/lib/utils/block.ts:92-102 | the grace flag goes down; with a trash hit the block and its walk are deleted |
| LibBlock.Engine.RemoveBlock | src/lib/utils/block.ts:104-117 | the store ends as `Cascade`: the block and its walk go and nothing else changes |
| LibBlock.Engine.UpdateZIndex | src/lib/utils/block.ts:119-142 | the store ends as `ZIndexed` |
| LibBlock.Engine.ZeroAll | src/lib/utils/block.ts:123-126 | the loop sets every block to z-index 0 |
| LibBlock.Engine.SetZIndex | src/lib/utils/block.ts:129-139 | the recursion numbers the walk from the counter |
| LibBlock.Engine.UpdateBlockPositions | src/lib/utils/block.ts:165-192 | `strict` changes nothing; otherwise the walk is placed with the lib's spacing, 40 + 2·d below a parent at depth d |
| LibBlock.Engine.PlaceFrom | src/lib/utils/block.ts:172-191 | the recursion computes the placement |
| LibBlock.Engine.Link | src/lib/utils/block.ts:208-225 | the writes compute `Linked` |
| LibBlock.Engine.FollowSource | src/lib/utils/block.ts:228-242 | the loop stacks the target's walk below the source |
| LibBlock.Engine.Restack | src/lib/utils/block.ts:208-242 | the writes and the loop compute `Restacked` |
| LibBlock.Engine.HandleBlockConnection | src/lib/utils/block.ts:194-250 | false with no change while the grace flag is up, when either block is missing, or when the source has `children`; otherwise true, leaving the connected map |
| RendererrBlock.Linked | src/rendererr/lib/utils/block.ts:169-181 | the writes keep every key |
| RendererrBlock.LinkedShape | src/rendererr/lib/utils/block.ts:169-181 | the source names the target, the target names the source, the former parent loses its `childId`, and every other block is unchanged |
| RendererrBlock.ConnectedSameLinks | src/rendererr/lib/utils/block.ts:184-185 | the re-layout and the renumbering keep every link of the writes |
| RendererrBlock.ConnectedLinks | src/rendererr/lib/utils/block.ts:162-188 | on success the link is symmetric, the former parent loses its `childId`, and every other block keeps its links |
| RendererrBlock.ConnectedLayout | src/rendererr/lib/utils/block.ts:162-188 | on success the walk starts source, target; the k-th block after the source is at depth k, 20·k·(k+1) below it, with z-index k+1; the source gets z-index 1 |
| RendererrBlock.ConnectedLayoutOf | src/rendererr/lib/utils/block.ts:137-160 | placing and numbering a walk from its head at (x, y) |
| RendererrBlock.LinkedKeysAgree | src/rendererr/lib/utils/block.ts:169-181 | the writes keep every block under its own id |
| RendererrBlock.Attempts | src/rendererr/lib/utils/block.ts:206-213 | no attempt has an empty id or the dragged block's id, and there are no more attempts than hits |
| RendererrBlock.AttemptsMembers | src/rendererr/lib/utils/block.ts:206-213 | an id is attempted exactly when it is a hit other than "" and the dragged block |
| RendererrBlock.FillSubstitutes | src/rendererr/lib/utils/block.ts:223-230 | the rendererr fold over contents is blockUtils' substitution |
| RendererrBlock.FillAll | src/rendererr/lib/utils/block.ts:221-232 | the map fills each block in order |
| RendererrBlock.Fill | src/rendererr/lib/utils/block.ts:223-230 | the fold over a block's contents gives the template back unchanged when no entry is a `'value'` entry |
| RendererrBlock.FormatOutput | src/rendererr/lib/utils/block.ts:218-235 | the text `output.set` receives has no white space at either end, and is empty when every block is a flag block |
| RendererrBlock.FormatOutputAgrees | src/rendererr/lib/utils/block.ts:218-235 | formatOutput's text is formatBlockOutput's, so it drops flag blocks, substitutes only `'value'` entries and is trimmed |
| RendererrBlock.Engine.RemoveBlock | src/rendererr/lib/utils/block.ts:11-38 | the store ends as `Layout.Removed` |
| RendererrBlock.Engine.RemoveChildren | src/rendererr/lib/utils/block.ts:23-29 | the recursion deletes exactly the blocks of the walk |
| RendererrBlock.Engine.OnDragStart | src/rendererr/lib/utils/block.ts:61-72 | an unknown id, or a block without a parent, changes nothing; otherwise the block leaves its parent and the grace flag rises |
| RendererrBlock.Engine.OnDragEnd | src/rendererr/lib/utils/block.ts:74-88 | the grace flag goes down; with `strict` and a trash or block-list hit the block is removed |
| RendererrBlock.Engine.UpdateChildrenPositions | src/rendererr/lib/utils/block.ts:90-102 | the walk below the block is stacked 40 apart |
| RendererrBlock.Engine.FollowChildren | src/rendererr/lib/utils/block.ts:93-101 | the loop computes the stacking |
| RendererrBlock.Engine.UpdateZIndex | src/rendererr/lib/utils/block.ts:104-122 | the walk from the id is numbered 1, 2, 3, …; only blocks on it change |
| RendererrBlock.Engine.NumberFrom | src/rendererr/lib/utils/block.ts:109-119 | the recursion numbers the walk from the counter, and the counter ends |walk| higher |
| RendererrBlock.Engine.UpdateBlockPositions | src/rendererr/lib/utils/block.ts:137-160 | the walk is placed with the renderer's spacing, at depth k the k-th block |
| RendererrBlock.Engine.PlaceUnder | src/rendererr/lib/utils/block.ts:141-156 | the recursion computes the placement |
| RendererrBlock.Engine.Link | src/rendererr/lib/utils/block.ts:169-181 | the writes compute `Linked` |
| RendererrBlock.Engine.HandleBlockConnection | src/rendererr/lib/utils/block.ts:162-188 | true exactly when both blocks exist, the source has no `childId` and they differ; the store ends as that attempt's map |
| RendererrBlock.Engine.HandleConnections | src/rendererr/lib/utils/block.ts:190-216 | nothing is attempted while the grace flag is up or without a block space; otherwise each hit other than "" and the block itself is attempted in order |
| BlockUtils.DescendsRank | src/renderer/lib/utils/blockUtils.ts:4-12 | a descendant ranks below its ancestor, which is why the recursion ends |
| BlockUtils.FindAllChildren | src/renderer/lib/utils/blockUtils.ts:4-12 | every listed block is the stored block under its own id and ranks below the root, so the root is never listed |
| BlockUtils.FindAllChildrenSound | src/renderer/lib/utils/blockUtils.ts:4-12 | every listed block is a stored block named in idList that descends from the root, and is not the root |
| BlockUtils.FindAllChildrenComplete | src/renderer/lib/utils/blockUtils.ts:4-12 | every stored descendant is listed, when idList names every block |
| BlockUtils.SubtreeIn | src/renderer/lib/utils/blockUtils.ts:8 | what is listed below a descendant is listed below the root |
| BlockUtils.FindAllChildrenLeaf | src/renderer/lib/utils/blockUtils.ts:4-12 | a block that nothing names as parent has no descendants |
| BlockUtils.Substitute | src/renderer/lib/utils/blockUtils.ts:19-23 | a template without `'value'` entries is unchanged |
| BlockUtils.SubstituteAppend | src/renderer/lib/utils/blockUtils.ts:19-23 | the fold over a + b is the fold over b after the fold over a |
| BlockUtils.SubstituteSkips | src/renderer/lib/utils/blockUtils.ts:20 | a separator or select entry is as if absent |
| BlockUtils.SubstituteValue | src/renderer/lib/utils/blockUtils.ts:21 | a `'value'` entry replaces every occurrence of its placeholder |
| BlockUtils.Visible | src/renderer/lib/utils/blockUtils.ts:16 | no flag block survives the filter, and a list without flags is kept whole |
| BlockUtils.VisibleAppend | src/renderer/lib/utils/blockUtils.ts:16 | the filter distributes over concatenation |
| BlockUtils.RenderAll | src/renderer/lib/utils/blockUtils.ts:17-25 | the map renders each block in order |
| BlockUtils.FormatBlockOutput | src/renderer/lib/utils/blockUtils.ts:14-28 | the output has no white space at either end, and is "" for an empty (or all-flag) list |
| BlockUtils.FormatBlockOutputSkipsFlag | src/renderer/lib/utils/blockUtils.ts:16 | flag blocks contribute nothing, wherever they stand |
| BlockUtils.FormatBlockOutputSingle | src/renderer/lib/utils/blockUtils.ts:17-27 | one block's output is its substituted template trimmed, and its template trimmed when it has no `'value'` entries |
| BlockUtils.FormatBlockOutputSnoc | src/renderer/lib/utils/blockUtils.ts:26-27 | blocks are joined with '\n' in input order |
| BaseBlock.Expand | src/renderer/lib/components/BaseBlock.tsx:179-206 | a template without `${&&}` is only substituted |
| BaseBlock.ExpandSplice | src/renderer/lib/components/BaseBlock.tsx:182-196 | for a loop block with an enclosure the first `${&&}`, and no other, becomes '\n\t' + the enclosed texts + '\n' |
| BaseBlock.ExpandOthers | src/renderer/lib/components/BaseBlock.tsx:182 | any other block's text is its substituted template |
| BaseBlock.EncloseTextOneLevel | src/renderer/lib/components/BaseBlock.tsx:183-193 | enclosed blocks are expanded one level only: only their templates and contents count |
| BaseBlock.ExpandAll | src/renderer/lib/components/BaseBlock.tsx:179-207 | the map expands each block in order |
| BaseBlock.FormatTextLone | src/renderer/lib/components/BaseBlock.tsx:177-208 | a block without children gives exactly its own text, untrimmed, even a flag block |
| BaseBlock.FormatTextCons | src/renderer/lib/components/BaseBlock.tsx:177-208 | with children, the root's text comes first, then a newline and the rest |
| BaseBlock.FormatTextTrimmed | src/renderer/lib/components/BaseBlock.tsx:164-214 | with no flag or loop blocks the text, trimmed, is blockUtils' output for the same list |
| BaseBlock.FormatText | src/renderer/lib/components/BaseBlock.tsx:164-208 | formatOutput's text starts with the flag block's own expanded text |
| BaseBlock.FormatTextBesideCycle | src/renderer/lib/components/BaseBlock.tsx:75-76 | two blocks that are each other's parent, which the connection guard lets through, do not stop formatOutput for a flag block outside their cycle: its text is its own |
| BaseBlock.SetParent | src/renderer/lib/components/BaseBlock.tsx:113 | `updateBlock(k, {parentId})` keeps every key |
| BaseBlock.SetChild | src/renderer/lib/components/BaseBlock.tsx:114 | `updateBlock(k, {childId})` keeps every key |
| BaseBlock.Enclosed | src/renderer/lib/components/BaseBlock.tsx:93-111 | a loop target's enclosure gains the dragged block at its end, or is created for it |
| BaseBlock.Positioned | src/renderer/lib/components/BaseBlock.tsx:127-149 | the dragged block goes 42 below the parent, at the parent's x plus the enclosure offset for a loop with an enclosure; a missing parent changes nothing |
| BaseBlock.ConnectOnce | src/renderer/lib/components/BaseBlock.tsx:90-118 | one overlapping input keeps every key |
| BaseBlock.Repeat | src/renderer/lib/components/BaseBlock.tsx:78-120 | the inner loop keeps every key |
| BaseBlock.OutputStep | src/renderer/lib/components/BaseBlock.tsx:73-120 | one output keeps every key |
| BaseBlock.ConnectAll | src/renderer/lib/components/BaseBlock.tsx:73-121 | the outer loop keeps every key |
| BaseBlock.ConnectAllQuiet | src/renderer/lib/components/BaseBlock.tsx:68-124 | a handleConnect that reports no connection changed no block |
| BaseBlock.ConnectOnceLinks | src/renderer/lib/components/BaseBlock.tsx:112-117 | a plain target is linked both ways to the dragged block, which goes 42 below it |
| BaseBlock.ConnectOnceEncloses | src/renderer/lib/components/BaseBlock.tsx:93-111 | a loop target takes the dragged record at the end of its enclosure, and no link is set |
| BaseBlock.ConnectAllKeysAgree | src/renderer/lib/components/BaseBlock.tsx:73-121 | connecting keeps every record under its own id |
| BaseBlock.ConnectAllDangles | src/renderer/lib/components/BaseBlock.tsx:75 | as written, an output naming no stored block leaves the dragged block with a `parentId` that names nothing |
| BaseBlock.ConnectAllIntended | src/renderer/lib/components/BaseBlock.tsx:73-121 | the outer loop with the corrected test keeps every key |
| BaseBlock.ConnectAllIntendedParents | src/renderer/lib/components/BaseBlock.tsx:73-121 | with the corrected test no `parentId` ever names a missing block |
| BaseBlock.Store.UpdateConnectedPosition | src/renderer/lib/components/BaseBlock.tsx:127-149 | the store ends as `Positioned` |
| BaseBlock.Store.ConnectTo | src/renderer/lib/components/BaseBlock.tsx:90-118 | the store ends as `ConnectOnce` |
| BaseBlock.Store.ConnectOutput | src/renderer/lib/components/BaseBlock.tsx:74-120 | the store ends as `OutputStep`; it reports a hit exactly when the output passed the test and overlapped an input |
| BaseBlock.Store.HandleConnect | src/renderer/lib/components/BaseBlock.tsx:68-124 | the store ends as `ConnectAll`; the result is whether any output connected |
| BaseBlock.Store.FormatOutput | src/renderer/lib/components/BaseBlock.tsx:164-214 | the text is published and returned; the blocks do not change |
| BlockManager.Merge | src/renderer/lib/managers/BlockManager.ts:38 | an empty update keeps the block; `children` comes from the update when it names one |
| BlockManager.Manager.GetNextZIndex | src/renderer/lib/managers/BlockManager.ts:50-53 | at least 1, above every stored z-index, and one more than the largest when there is one |
| BlockManager.Manager.CreateBlock | src/renderer/lib/managers/BlockManager.ts:12-22 | the template with the fresh id, no links, depth 0, and exactly the z-index `getNextZIndex` gives: 1 when no stored z-index is positive, else one more than the largest |
| BlockManager.Manager.WouldCreateCycle | src/renderer/lib/managers/BlockManager.ts:55-70 | as written: no for a missing target, yes for every target stored under its own id |
| BlockManager.Manager.ConnectBlocks | src/renderer/lib/managers/BlockManager.ts:24-31 | false when either block is missing, and, as written, false for every pair |
| BlockManager.Manager.WouldCreateCycleIntended | src/renderer/lib/managers/BlockManager.ts:55-70 | the corrected search says yes exactly when the source is on the target's walk |
| BlockManager.Manager.ConnectBlocksIntended | src/renderer/lib/managers/BlockManager.ts:24-31 | with the corrected search two stored blocks connect exactly when the source is not on the target's walk |
| BlockManager.Manager.UpdateBlock | src/renderer/lib/managers/BlockManager.ts:33-48 | a missing id changes nothing; otherwise the merged record is stored and a named child renumbers its chain |
| BlockManager.Manager.UpdateBlockZIndex | src/renderer/lib/managers/BlockManager.ts:72-91 | the chain from the child is numbered from 0, and the map keeps its keys |
| BlockPatch.MergeFields | src/renderer/lib/list/store.ts:52 | every field a partial block names is replaced and every other one kept |
| BlockPatch.MergeNoChange | src/renderer/lib/store/index.ts:31 | merging nothing keeps the block, and merging twice is merging once |
| History.RestoreSnapshot | src/renderer/lib/stores/index.ts:32-60 | restoring the snapshot of a workspace gives that workspace back |
| History.RestoredShape | src/renderer/lib/stores/index.ts:47-60 | restoring keeps the title and every key, and moves exactly the blocks with a recorded position |
| History.CreateHistoryState | src/renderer/lib/stores/index.ts:32-45 | the positions map has exactly the block keys, with copied positions |
| History.RestoreState | src/renderer/lib/stores/index.ts:47-60 | the loop computes the restored workspace |
| History.IdenticalIffEqual | src/renderer/lib/stores/index.ts:62-85 | the comparison holds exactly between equal snapshots, so it is reflexive |
| History.AreStatesIdentical | src/renderer/lib/stores/index.ts:62-85 | the loop with early returns answers the comparison |
| History.PushShape | src/renderer/lib/stores/index.ts:98-103 | an adding push ends the stack with the new snapshot, keeps the older entries, and drops the oldest beyond 30 |
| History.PushBounds | src/renderer/lib/stores/index.ts:87-109 | an adding push empties redo and leaves at most 30 entries; a skipped push changes nothing |
| History.PushTwice | src/renderer/lib/stores/index.ts:93-96 | pushing twice without a change adds at most once |
| History.MovesPreserveTotal | src/renderer/lib/stores/index.ts:111-139 | undo and redo move one entry between the stacks and keep the title |
| History.UndoThenRedo | src/renderer/lib/stores/index.ts:111-139 | undo then redo gives back the workspace and the redo stack |
| History.RedoThenUndo | src/renderer/lib/stores/index.ts:111-139 | redo then undo gives back the workspace and the undo stack |
| History.History.constructor | src/renderer/lib/stores/index.ts:6-30 | both stacks empty and the workspace empty and "Untitled" |
| History.History.PushUndo | src/renderer/lib/stores/index.ts:87-109 | pushUndo's effect on both stacks |
| History.History.Undo | src/renderer/lib/stores/index.ts:111-124 | undo's effect, a no-op on an empty undo stack |
| History.History.Redo | src/renderer/lib/stores/index.ts:126-139 | redo's effect, a no-op on an empty redo stack |
| CursorHistory.PushAppends | src/renderer/lib/managers/HistoryManager.ts:10-19 | push appends exactly the current blocks and positions, removes nothing, and leaves `currentIndex` unchanged |
| CursorHistory.UndoShape | src/renderer/lib/managers/HistoryManager.ts:21-31 | undo at index 0 is a no-op; otherwise it installs the entry before the cursor and moves the cursor back, and it throws exactly when that entry is missing |
| CursorHistory.RedoShape | src/renderer/lib/managers/HistoryManager.ts:33-43 | redo at the last entry is a no-op; otherwise it installs the entry after the cursor and moves the cursor on, and it throws exactly when that entry is missing |
| CursorHistory.UndoThenRedo | src/renderer/lib/managers/HistoryManager.ts:21-43 | undo then redo from inside the history restores the index |
| CursorHistory.RedoThenUndo | src/renderer/lib/managers/HistoryManager.ts:21-43 | redo then undo from before the last entry restores the index |
| CursorHistory.HistoryManager.constructor | src/renderer/lib/managers/HistoryManager.ts:6-8 | the manager wraps the given workspace state, and no `currentIdx` has been written yet |
| CursorHistory.HistoryManager.Push | src/renderer/lib/managers/HistoryManager.ts:10-19 | the store ends as `Pushed` |
| CursorHistory.HistoryManager.Undo | src/renderer/lib/managers/HistoryManager.ts:21-31 | the store ends as `UndoStep`; a thrown error leaves it unchanged |
| CursorHistory.HistoryManager.Redo | src/renderer/lib/managers/HistoryManager.ts:33-43 | the store ends as `RedoStep`; a thrown error leaves it unchanged |
| Observers.CallsInOrder | src/renderer/lib/utils/ListenerManager.ts:26-28 | every listener is called once per entry, in list order, with the event |
| Observers.CallsAppend | src/renderer/lib/utils/ListenerManager.ts:26-28 | calls to a concatenation are the calls to each part |
| Observers.WithoutCounts | src/renderer/lib/utils/ListenerManager.ts:17-19 | removal drops every entry of the listener and keeps the count of every other |
| Observers.WithoutAbsent | src/renderer/lib/utils/ListenerManager.ts:17-19 | removing an absent listener changes nothing |
| Observers.WithoutAppend | src/renderer/lib/utils/ListenerManager.ts:17-19 | removal distributes over concatenation |
| Observers.WithoutCutsOut | src/renderer/lib/block/event.ts:20-23 | in a list without repeats, removal cuts the one entry out and keeps the rest in order |
| Observers.AddedShape | src/renderer/lib/block/event.ts:21 | adding keeps the list without repeats and holds exactly the old listeners and the new one; a present listener is not added again |
| Observers.WithoutDistinct | src/renderer/lib/block/event.ts:22 | removal keeps a list without repeats |
| Observers.Deliver | src/renderer/lib/block/event.ts:16-18 | every listener gets the event once, in order |
| ListenerManagers.ListenerManager.Subscribe | src/renderer/lib/utils/ListenerManager.ts:15-16 | the listener goes at the end |
| ListenerManagers.ListenerManager.Unsubscribe | src/renderer/lib/utils/ListenerManager.ts:17-19 | every entry of the listener goes, and the others stay in order |
| ListenerManagers.ListenerManager.NotifyListeners | src/renderer/lib/utils/ListenerManager.ts:26-28 | listeners are called in registration order with the event |
| ListenerManagers.SubscribedTwice | src/renderer/lib/utils/ListenerManager.ts:16 | a listener subscribed twice is called twice per notification |
| EventManagers.EventManager.Emit | src/renderer/lib/managers/EventManager.ts:4-7 | only the handlers of that name are called, in order; an unknown name calls nobody |
| EventManagers.EventManager.On | src/renderer/lib/managers/EventManager.ts:9-14 | an unseen name gets an empty set, then the handler is added |
| EventManagers.EventManager.Off | src/renderer/lib/managers/EventManager.ts:16-18 | the handler leaves that name only; an unknown name is a no-op |
| EventManagers.OnTwice | src/renderer/lib/managers/EventManager.ts:13 | registering the same handler twice stores it once |
| BlockEvents.BlockEventEmitter.Emit | src/renderer/lib/block/event.ts:16-18 | every current listener gets the event once |
| BlockEvents.BlockEventEmitter.Subscribe | src/renderer/lib/block/event.ts:20-21 | the set gains the callback, once |
| BlockEvents.BlockEventEmitter.Unsubscribe | src/renderer/lib/block/event.ts:22 | the returned function removes exactly that callback |
| BlockEvents.EmitterSlot.GetInstance | src/renderer/lib/block/event.ts:9-14 | the first call creates the emitter; every later call returns the same one |
| Stores.Store.constructor | src/renderer/lib/stores/Store.ts:5-7 | the initial value and no subscribers |
| Stores.Store.Get | src/renderer/lib/stores/Store.ts:17-19 | the current value |
| Stores.Store.Set | src/renderer/lib/stores/Store.ts:21-25 | an identical value changes nothing and notifies nobody; a new one becomes current and each subscriber gets it once |
| Stores.Store.Notify | src/renderer/lib/stores/Store.ts:27-29 | every subscriber gets the current value, in order |
| Stores.Store.Update | src/renderer/lib/stores/Store.ts:9 | exactly set(fn(get())) |
| Stores.Store.Subscribe | src/renderer/lib/stores/Store.ts:11-13 | the listener is stored and called at once with the current value |
| Stores.Store.Unsubscribe | src/renderer/lib/stores/Store.ts:14 | the listener gets no further notification |
| Stores.CreateStore | src/renderer/lib/stores/Store.ts:32-40 | a fresh store with the initial value and no subscribers |
| Stores.CallsReach | src/renderer/lib/stores/Store.ts:27-29 | a notification reaches a listener exactly when it is subscribed |
| WorkspaceStores.WorkspaceStore.constructor | src/renderer/lib/stores/workspace.ts:4-13 | a new store holding no blocks, no positions, no history, index −1 and an empty title, with no subscribers |
| WorkspaceStores.WorkspaceStore.BlockUpdate | src/renderer/lib/stores/workspace.ts:15-21 | exactly one key changes; the title and the rest stay |
| WorkspaceStores.WorkspaceStore.Delete | src/renderer/lib/stores/workspace.ts:23-29 | exactly that key goes, harmlessly when absent |
| WorkspaceStores.WorkspaceStore.SetTitle | src/renderer/lib/stores/workspace.ts:31-36 | only the title changes |
| WorkspaceStores.WorkspaceStore.Clear | src/renderer/lib/stores/workspace.ts:38-46 | back to the constructor's state |
| WorkspaceStores.WorkspaceStore.UpdateBlock | src/renderer/lib/stores/workspace.ts:48-57 | an absent id returns the same object, so nobody is notified; a present one replaces only `contents` |
| ListStores.ListStore.constructor | src/renderer/lib/list/store.ts:10-12 | no templates, no ids, no listeners |
| ListStores.ListStore.GetList | src/renderer/lib/list/store.ts:21-23 | the stored template, or nothing |
| ListStores.ListStore.GetLists | src/renderer/lib/list/store.ts:25-27 | the id list |
| ListStores.ListStore.AddList | src/renderer/lib/list/store.ts:29-37 | the fresh id is appended and mapped, and one `add` event carries it |
| ListStores.ListStore.RemoveList | src/renderer/lib/list/store.ts:39-46 | the key goes and the id is filtered out; `remove` is sent even for an absent id |
| ListStores.ListStore.UpdateList | src/renderer/lib/list/store.ts:48-59 | an absent id changes nothing and sends nothing; a present one is merged and one `update` event is sent |
| ListStores.ListStore.ClearList | src/renderer/lib/list/store.ts:61-65 | both the map and the ids are emptied, and `clear` is sent |
| ListStores.ListStore.Subscribe | src/renderer/lib/list/store.ts:67-69 | the listener joins the set |
| ListStores.ListStore.Unsubscribe | src/renderer/lib/list/store.ts:69 | the returned function removes the listener |
| ListStores.ListStore.NotifyListeners | src/renderer/lib/list/store.ts:72-74 | every listener gets the event once, in order |
| ListStores.RemoveKeepsOrder | src/renderer/lib/list/store.ts:39-46 | removing a stored id cuts it out of the id list, keeps the others in order, and keeps the ids equal to the keys |
| ListStores.ListSlot.GetInstance | src/renderer/lib/list/store.ts:14-19 | the first call creates the store; every later call returns the same one |
| CanvasStores.CanvasStore.constructor | src/renderer/lib/canvas/store.ts:6-8 | the position starts at (0,0) and the size at 0×0 |
| CanvasStores.CanvasStore.GetCanvasPos | src/renderer/lib/canvas/store.ts:19-21 | the last position set |
| CanvasStores.CanvasStore.GetCanvasSize | src/renderer/lib/canvas/store.ts:28-30 | the last size set |
| CanvasStores.CanvasStore.SetCanvasPos | src/renderer/lib/canvas/store.ts:23-26 | the size stays; every listener gets one canvas event with id '' |
| CanvasStores.CanvasStore.SetCanvasSize | src/renderer/lib/canvas/store.ts:32-35 | the position stays; every listener gets one canvas event with id '' |
| CanvasStores.CanvasStore.Subscribe | src/renderer/lib/canvas/store.ts:37-39 | the listener goes to the listener manager |
| CanvasStores.CanvasSlot.GetInstance | src/renderer/lib/canvas/store.ts:12-17 | the first call creates the store; every later call returns the same one |
| BlockStores.BlockStore.AddBlock | src/renderer/lib/block/store.ts:10-15 | the block under its own id |
| BlockStores.BlockStore.RemoveBlock | src/renderer/lib/block/store.ts:17-22 | only that key goes |
| BlockStores.BlockStore.GetBlock | src/renderer/lib/block/store.ts:24-31 | the stored block, or nothing |
| BlockStores.BlockStore.GetBlocks | src/renderer/lib/block/store.ts:33-40 | a copy of the map as it is now |
| BlockStores.BlockStore.ClearBlocks | src/renderer/lib/block/store.ts:42-47 | the map is empty |
| BlockStores.BlockStore.UpdateBlock | src/renderer/lib/block/store.ts:49-54 | inserts or replaces under the given id, even an absent one |
| BlocksStores.BlocksStore.AddContent | src/renderer/lib/store/index.ts:17-21 | the block under its id, replacing any entry |
| BlocksStores.BlocksStore.RemoveContent | src/renderer/lib/store/index.ts:22-26 | only that key goes |
| BlocksStores.BlocksStore.UpdateContent | src/renderer/lib/store/index.ts:27-35 | an absent id keeps the map; a present one is merged |
| BlocksStores.BlocksStore.ClearContents | src/renderer/lib/store/index.ts:36 | the map is empty |
| BlocksStores.BlocksStore.GetBlock | src/renderer/lib/store/index.ts:37-39 | the stored block, or nothing |
| BlocksStores.BlocksStore.GetBlocks | src/renderer/lib/store/index.ts:40-42 | the i-th block is the one under the i-th key of the iteration order: each stored block exactly once, nothing else |
| BlockClass.NewBlock | src/renderer/lib/block/class.ts:7-26 | a fresh id; position and size zero; no links; depth and z-index 0; the enclosure at offset (8,0) with output (0,0) and nothing inside; kind, title, output, contents and connections from the template |
| BlockClass.NewBlockForgets | src/renderer/lib/block/class.ts:7-26 | the template's position, links, size and enclosure never show through |
| BlockClass.NewBlockStable | src/renderer/lib/block/class.ts:7-26 | building again from a new block with the same id gives it back |
| Models.NewBlock | src/models/block.rs:87-106 | Block::new takes id, type, title and position from its arguments; output and content empty; no connection and no links; size 150×60; z_index 0 |
| AppStates.WithValueFirst | src/state/app_state.rs:64-75 | only the first content with the id changes, only its value, and only when it holds a value |
| AppStates.WithValue | src/state/app_state.rs:64-75 | update_block_content keeps the number of entries and every entry's id, and leaves the entries with other ids as they are |
| AppStates.PlacedDefaults | src/state/app_state.rs:42-54 | a block placed from a Block::new template keeps that constructor's defaults |
| AppStates.AppState.constructor | src/state/app_state.rs:11-16 | no templates, no blocks, nothing dragged |
| AppStates.AppState.AddBlockList | src/state/app_state.rs:19-24 | the template under its name, replacing any template of that name |
| AppStates.AppState.RemoveBlockList | src/state/app_state.rs:26-28 | that name goes |
| AppStates.AppState.ClearBlockList | src/state/app_state.rs:30-32 | the templates are emptied |
| AppStates.AppState.GetBlockList | src/state/app_state.rs:34-36 | the template, or nothing |
| AppStates.AppState.GetAllBlockLists | src/state/app_state.rs:38-40 | the i-th template is the one under the i-th name of the iteration order: each template exactly once, nothing else |
| AppStates.AppState.AddBlock | src/state/app_state.rs:42-54 | an unknown template gives None and changes nothing; otherwise a clone with the new id and position goes under that id, which is returned |
| AppStates.AppState.UpdateBlockPosition | src/state/app_state.rs:56-61 | only that block's position changes; a missing id is a no-op |
| AppStates.AppState.UpdateBlockContent | src/state/app_state.rs:64-75 | the loop computes `WithValue`; a missing id is a no-op |
| AppStates.AppState.RemoveBlock | src/state/app_state.rs:77-79 | exactly that block goes, with no cascade and no link clearing |
| AppStates.AppState.ClearBlocks | src/state/app_state.rs:81-83 | the blocks are emptied |
| AppStates.AppState.GetBlock | src/state/app_state.rs:85-87 | the block, or nothing |
| AppStates.AppState.GetAllBlocks | src/state/app_state.rs:89-91 | the i-th block is the one under the i-th id of the iteration order: each placed block exactly once, nothing else |

## Left out

- **Page layout and drop zones:** `overlap`, `querySelectorAll`, `getBoundingClientRect` and `elementsFromPoint` read the page. They are parameters:
  - the overlapping output ids, `hits`;
  - the output elements with their overlap counts, `outs`;
  - the number of drop-zone elements under the mouse, `trashHits`: those with the class `trash` or `block-list` in src/renderer/lib/utils/block.ts:96 and src/rendererr/lib/utils/block.ts:83, those with the class `trash` alone in src/lib/utils/block.ts:97;
  - whether the block space exists, `spaceReady`.
- **Walks that may not end:** `removeChildren`, the `while (current.children)` loops, the z-index recursion, `searchAllChildren` and `findAllChildren` have no visited guard. Their methods and functions require that the walk ends:
  - `IsChain`, `HasChain`, `AllChainsEnd` or `WalksEnd`;
  - `AttemptsEnd` for a sequence of connections;
  - `Ranked` for the `parentId` recursion. It ranks only the blocks at or below the root, so a `parentId` cycle elsewhere in the store is allowed (`BaseBlock.FormatTextBesideCycle`); one through the root or below it is not, and there the source recursion does not end.

  On a cycle the two kinds of walk fail differently:
  - The `while` loops run forever: updateChildrenPositions in the renderer and rendererr, onDrag's loop and handleBlockConnection's loop in the lib.
  - The recursions overflow the call stack (a `RangeError`) after some of their writes:
    - `removeChildren`;
    - the z-index recursions of the three engines and of BlockManager.updateBlockZIndex;
    - the updateBlockPositions recursions;
    - `findAllChildren` and `searchAllChildren`.

  The model covers neither failure.
- RendererBlock.Engine.RemoveBlock, RendererBlock.Engine.OnDragEnd, RendererrBlock.Engine.RemoveBlock and RendererrBlock.Engine.OnDragEnd require every walk of the map before the removal to end.
  - This is stronger than the source needs: the source only needs the walks that remain after the parent is detached and the block's walk is deleted to end.
  - A cycle through the removed block is excluded although the source ends on it. Example: `a.children = b`, `b.children = a`, `a.parentId = b`. removeBlock(a) clears `b.children` first, so its walk ends.
- BlockManager.Manager.UpdateBlock and BlockManager.Manager.UpdateBlockZIndex state only the final store value, the one the closing `set` (src/renderer/lib/managers/BlockManager.ts:90) leaves: the walk numbered from 0.
  - The source's `block.zIndex = currentIndex++` (:81) writes into the records of the map it read. Earlier store values, and the subscribers that hold them, share those records. The model does not capture this aliasing.
  - Each step then calls updateBlock (:82), which writes the store and notifies its subscribers. The model does not give those intermediate values or notifications.
  - The block passed to updateBlock has `children`, so :45-46 start a nested updateBlockZIndex on the rest of the walk. A walk of k blocks runs 2^(k-1) passes, each with its own writes and its own `set`, before the outer `set`. The model does not capture those nested passes.
- LibBlock.Engine.OnDrag requires every walk of the map to end. The source only needs the walk below the dropped block to end.
- LibBlock.Engine.HandleBlockConnection: when a block is connected to itself its walk never ends (`LibBlock.SelfConnectionLoops`). The model therefore requires the walks to end and does not model that endless loop.
- **Map order:**
  - Dafny maps have no insertion order. Where a result depends on it, the iteration order is a parameter `order` that names every key once: renderer and rendererr removeBlock's `forEach`, and `Records.Values` for `getBlocks`, `get_all_block_lists` and `get_all_blocks`.
  - The z-index sort in updateZIndex and updateBlockZIndex only reorders a map, so it is not modelled.
- **Listeners never call back mid-notification:**
  - A notification is returned as the list of calls it makes.
  - A listener that subscribes or unsubscribes while being notified is not modelled. Neither is a listener that writes to a store then.
  - Svelte `writable` notifications in BlockStore, the zustand store's subscribers and the history atom's notifications are not modelled.
- History.RestoreState: the restored blocks are a fresh value. The source changes the records of the snapshot's map in place, so a restored snapshot also changes that snapshot; the model does not capture this aliasing.
- **Subscriptions and record writes:**
  - restoreState's `subscribe` without unsubscribe is not modelled.
  - LibBlock.Engine.OnDrag: the listener that onDrag passes to `workspace.subscribe` (src/lib/utils/block.ts:66-68) runs at once, and the model includes that first run of updateZIndex. The subscription is never removed, so one more listener piles up with every drag. Each later workspace update then re-runs updateZIndex for every block dragged before, in subscription order. The model does not capture those later runs, so after any later update the z-indices the model states are not the ones the source leaves.
  - WorkspaceStores.WorkspaceStore.UpdateBlock: the source's write to `block.contents` on the old record is modelled as a new record. Old state objects are left unchanged.
- History.IdenticalIffEqual: `JSON.stringify` equality is modelled as record equality. This ignores property order.
- **Positions and sizes** are `f64` or JavaScript numbers in the source and integers here. They are only stored, copied and increased by constants.
- **Text substitution:**
  - `String.replace`'s replacement patterns (`$&`, `$$`, …) are not interpreted. The replacement is literal.
  - The placeholder regex is read as the literal `${id}`, assuming ids hold no regex metacharacters.
- **HistoryManager:**
  - `updateState` is declared nowhere: not on the `WorkspaceStore` interface (src/renderer/lib/types/index.ts:42-55), not on `Store` (src/renderer/lib/stores/Store.ts:1-30) and not on the workspace store class (src/renderer/lib/stores/workspace.ts). On every store in view, push as written therefore throws a `TypeError` before it writes anything. The model takes `updateState` to be `update` and states the write push evidently means.
  - `HistoryManager.push()` is called on the class from src/renderer/lib/utils/block.ts:17, 47 and 101, but `push` is an instance method, so each call throws a `TypeError`. Each throw comes after all of its caller's store writes. In onDragEnd the throw from the first removal ends the `forEach`, and later drop-zone hits would only have repeated a removal that changes nothing. So the state the model states is the state the source leaves. Neither the throw nor the toast it skips is modelled.
- **Unmodelled operations:**
  - The Block class's `get` (src/renderer/lib/block/class.ts:28-30) returns a shallow copy. With value semantics the copy is the block itself, so there is nothing to model.
  - renderer addBlock and onDrag are not modelled; they call BlockManager.createBlock, updateChildrenPositions and updateZIndex, which are. So are rendererr onDrag and the lib's handleConnections and formatOutput.
- **Missing declarations:**
  - The block type file declares neither `ConstructorBlockType` nor a `CanvasStoreEvent`. The model takes the former to be a block record and the latter to be `{type: 'canvas', id}`.
  - The singleton block store used by BaseBlock.tsx, blockUtils.ts and rendererr block.ts (`getInstance`, `idList`, `updateBlock(id, partial)`, `setOutput`) is not part of this model. Its behaviour is taken from those callers.
  - RendererrBlock.Engine.UpdateChildrenPositions and RendererrBlock.Engine.FollowChildren read that store's `getBlock` as returning the stored record itself, and its `updateBlock(id, fields)` as writing the fields into that record. Under this reading the next loop step reads the child's new position, so each block goes 40 below its predecessor's new position, which is what `Layout.Stacked` states. If `updateBlock` stored a new record instead, as ListStore.updateList does, each block after the first would go 40 below its predecessor's old position. The model does not cover that reading.
- **Random ids** (`Math.random`, `crypto.randomUUID`) and Rust's generated ids are parameters.
- **UI and toasts:** toast messages, console output, the Dioxus and React components, and the gesture hooks are not modelled.

## Findings

| source | as written | input that shows it | evidently intended | confidence | as-written member | corrected member |
|---|---|---|---|---|---|---|
| src/renderer/lib/components/BaseBlock.tsx:75 | `blockStore.getBlock(targetID)?.childId` is undefined for a target the store does not hold, so the guard lets a missing target through; the dragged block then takes that id as its parent and handleConnect reports a connection | store `{a}`, dragged block `a`, one output with `data-id="b"` overlapping one input | a missing target is skipped like one that already has a child, so every `parentId` names a stored block | not executed; medium | BaseBlock.ConnectAllDangles | BaseBlock.ConnectAllIntendedParents |
| src/renderer/lib/managers/BlockManager.ts:64-69 | the search starts at `targetId` and compares each block with `targetId`, so it answers true at once for every stored target, and connectBlocks is false for every pair of stored blocks | any two stored blocks, such as `a` and `b` with no links | walk from the target along `children` looking for the source, so a link is refused only when it would close a cycle | not executed; high | BlockManager.Manager.ConnectBlocks | BlockManager.Manager.ConnectBlocksIntended |
