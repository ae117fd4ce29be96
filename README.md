# OneMap and OneBoard core in Dafny

This project models the behavioural core of a React workspace application
with two parts.

**OneMap, the mind-map editor.** A map is a list of nodes and a list of
edges.
- Each node carries:
  - `isRoot`;
  - an optional `parentId`;
  - an ordered `children` list of node ids;
  - an `isExpanded` flag;
  - a position;
  - style fields.
- The canvas (`OneMapCanvas.tsx`) does the following:
  - It loads a stored map through a defaulting pass.
  - It shows only the nodes reachable from the root through expanded nodes. It shows only the edges between two shown nodes.
  - It adds, deletes (with every descendant), duplicates, updates and collapses nodes.
  - It connects nodes through a click-to-connect state machine.
  - It saves the map back.
- Each rendered node (`MindMapFlowNode.tsx`) runs a small text-edit session. The model covers the component's own logic as written, with its callbacks delivered as props:
  - Enter saves the text, Escape cancels, and Tab saves and then asks for a child.
  - It also toggles the font weight and guards deletion.
  - As the canvas assembles the node, the callbacks never arrive as props (see Findings).

**OneBoard, the board list page.** `OneBoard.tsx` keeps a list of boards
and a grid/canvas view switch. It opens, edits, shares, toggles, deletes,
creates and updates boards, and writes the list to browser storage after
every change.

## Layout

- `wrappers.dfy` (`Wrappers`): the `Option` type used for `null` and `undefined`.
- `mindmap_data.dfy` (`MindMapData`): the node, edge and stored-map records.
  - The load-time defaulting of nodes and edges.
  - The save mapping.
  - Their round trips.
- `visibility.dfy` (`Visibility`): lookups, and reachability through `children` defined by paths.
  - The two traversals as recursive methods that thread a visited set: the visible-id walk and the delete closure.
  - The visible-node and visible-edge filters, each proved equal to a reachability specification.
- `graph_ops.dfy` (`GraphOps`): the node and edge list updates behind each canvas handler, as functions from the old lists to the new ones.
  - Lemmas stating what each update promises.
  - Invariants they preserve: the number of roots, and parent links.
  - The delete recursion as written in the source, which has no visited check (see Findings).
- `canvas.dfy` (`OneMapCanvas`): the canvas as a class `Canvas`.
  - Its fields are the state hooks. Its methods are the handlers, each proved against the `GraphOps` functions.
  - Connect mode is abstracted as `Idle | AwaitingSource | AwaitingTarget(source)`.
- `flow_node.dfy` (`MindMapFlowNode`): one node's local state as a class `NodeEditor`.
  - The callbacks it fires are returned as a list of `NodeCall`s, in firing order.
  - `String.prototype.trim` is modelled over the ECMAScript whitespace set.
- `one_board.dfy` (`OneBoard`): the board page as a class `BoardPage`.
  - `State()` bundles all its fields, so each handler states its whole new state.
  - The list updates are functions with lemmas.
  - `AfterAction` specifies `handleBoardAction`.

Everything the source takes from its environment is a parameter:
- fresh ids (`crypto.randomUUID`);
- the clock (`new Date().toISOString()`);
- the user's answer to `confirm`;
- the colour palette `DEFAULT_NODE_COLORS`, which comes from a config module that is not part of this model;
- what browser storage holds.

JavaScript truthiness is modelled as follows:
- a falsy string is `""`;
- a falsy font size is `0`;
- a missing value is `None`.

Two behaviours of the source that are easy to miss:
- `onConnect` (`OneMapCanvas.tsx:153-183`) adds an edge even when
  `source == target`: it only checks that both endpoints are truthy ids of
  existing nodes. Only the click path avoids self-edges, because a second
  click on the awaited source node does nothing (`OneMapCanvas.tsx:195`).
  `GraphOps.ConnectEdges` accepts `source == target` accordingly, and
  `OneMapCanvas.Canvas.OnNodeClick` states that clicking the awaited source
  again changes nothing.
- The delete traversal of the model carries a visited set, so
  `GraphOps.DeleteSpec` holds for any `children` graph, cyclic ones
  included. The unguarded recursion as written is kept separately under
  Findings.
- The second seed board's description in `OneBoard.tsx:29` holds the
  characters U+221A U+00A9 where "é" was meant (a mis-decoded UTF-8 byte
  pair). `OneBoard.SeedBoards` keeps those characters as written.

## Model

| member | source | states |
|---|---|---|
| MindMapData.NormaliseNode | src/modules/onemap/components/OneMapCanvas.tsx:85-98 | every present truthy field is kept; a falsy text, colour, size or weight becomes its default ("Novo Nó", #3B82F6, #FFFFFF, 14, "normal"); a missing `children` becomes `[]` and a missing position (400,300); an explicit `isExpanded` (false included) is kept and only a missing one becomes true; id, root flag, parent and timestamps are kept |
| MindMapData.NormaliseEdge | src/modules/onemap/components/OneMapCanvas.tsx:101-112 | a loaded edge keeps id, source and target; its type equals the stored type when that is truthy and is "smoothstep" otherwise |
| MindMapData.SaveEdge | src/modules/onemap/components/OneMapCanvas.tsx:477-486 | a saved connection keeps id, source and target, always has a type, and has thickness 1 |
| MindMapData.LoadNodes | src/modules/onemap/components/OneMapCanvas.tsx:42-59 | loading keeps the node count and order, and each loaded node is the stored node at the same index put through the defaulting pass |
| MindMapData.LoadEdges | src/modules/onemap/components/OneMapCanvas.tsx:61-76 | loading keeps the edge count and order, and each loaded edge is the stored connection at the same index put through the edge defaulting |
| MindMapData.SaveMap | src/modules/onemap/components/OneMapCanvas.tsx:474-488 | the saved map keeps the map's id and name, is stamped with the save time, and holds one stored node per node and one connection per edge |
| MindMapData.NormaliseIdempotent | src/modules/onemap/components/OneMapCanvas.tsx:85-98 | defaulting an already defaulted node changes nothing |
| MindMapData.NormalisedNodeIsFixed | src/modules/onemap/components/OneMapCanvas.tsx:474-476 | a node with no falsy field survives save then load unchanged |
| MindMapData.EdgeRoundTrip | src/modules/onemap/components/OneMapCanvas.tsx:477-486 | save then load keeps an edge's id, source, target and (defaulted) type; an edge with a type comes back identical |
| MindMapData.LoadAfterSave | src/modules/onemap/components/OneMapCanvas.tsx:469-496 | loading a saved map gives back exactly the canvas's nodes and edges when no node has a falsy field and every edge has a type |
| MindMapData.SaveLoadIdempotent | src/modules/onemap/components/OneMapCanvas.tsx:82-115 | a second save/load round trip changes neither nodes nor edges |
| Visibility.FindNode | src/modules/onemap/components/OneMapCanvas.tsx:125 | the lookup returns a node of the list with that id, and returns nothing exactly when no node has that id |
| Visibility.FindNodeIsFirst | src/modules/onemap/components/OneMapCanvas.tsx:125 | the node the lookup returns is the first in the list with that id |
| Visibility.FindRoot | src/modules/onemap/components/OneMapCanvas.tsx:139 | the lookup returns a root node of the list, and nothing exactly when no node is a root |
| Visibility.FindRootIsFirst | src/modules/onemap/components/OneMapCanvas.tsx:139 | the root the lookup returns is the first root in the list |
| Visibility.ClosedHoldsReachable | src/modules/onemap/components/OneMapCanvas.tsx:121-137 | a set closed under the walk's successor relation that contains the start holds everything reachable from it |
| Visibility.ReachedIsChild | src/modules/onemap/components/OneMapCanvas.tsx:130-134 | anything reached from a node other than the node itself is listed in some node's `children` |
| Visibility.InReachableSet | src/modules/onemap/components/OneMapCanvas.tsx:121-137 | the reachable set holds exactly the ids reachable by a path |
| Visibility.ExpandedPathCharacterisation | src/modules/onemap/components/OneMapCanvas.tsx:130-134 | a walk the visibility traversal can take is exactly a `children` path whose every node but the last exists and is expanded |
| Visibility.VisibleIdsFrom | src/modules/onemap/components/OneMapCanvas.tsx:121-137 | the walk marks the start; it marks only ids reachable from it through expanded nodes; what it marks is closed under the walk (so it reaches everything reachable); it returns exactly the newly marked ids of existing nodes, without duplicates |
| Visibility.CollectNodesToDelete | src/modules/onemap/components/OneMapCanvas.tsx:379-389 | the guarded delete closure marks the start and only its `children`-descendants, and what it marks is closed under `children` |
| Visibility.CollectDescendants | src/modules/onemap/components/OneMapCanvas.tsx:379-389 | the set to delete is exactly the node and everything reachable from it through `children` |
| Visibility.KeepIds | src/modules/onemap/components/OneMapCanvas.tsx:143 | the filter keeps exactly the nodes whose id is in the set, and never grows the list |
| Visibility.KeepIdsConcat | src/modules/onemap/components/OneMapCanvas.tsx:143 | the filter distributes over concatenation, so it keeps the original order |
| Visibility.KeepIdsUnique | src/modules/onemap/components/OneMapCanvas.tsx:143 | filtering a list with unique ids gives a list with unique ids |
| Visibility.VisibleNodes | src/modules/onemap/components/OneMapCanvas.tsx:118-144 | the rendered nodes are all nodes when there is no root, else the root-reachable-through-expanded nodes filtered in list order |
| Visibility.VisibleMembership | src/modules/onemap/components/OneMapCanvas.tsx:118-144 | a node is visible iff it is in the list and either there is no root or it is reachable from the root through expanded nodes |
| Visibility.RootVisible | src/modules/onemap/components/OneMapCanvas.tsx:139-143 | the root is always visible |
| Visibility.CollapsedHidesDescendants | src/modules/onemap/components/OneMapCanvas.tsx:130-134 | a node every root path to which passes through a collapsed node is hidden, whatever its own flag says |
| Visibility.EdgesWithin | src/modules/onemap/components/OneMapCanvas.tsx:146-151 | the edge filter keeps exactly the edges with both endpoints in the set |
| Visibility.VisibleEdges | src/modules/onemap/components/OneMapCanvas.tsx:146-151 | an edge is visible iff it is an edge and both endpoints are visible node ids |
| GraphOps.UpdateNodesSpec | src/modules/onemap/components/OneMapCanvas.tsx:229-261 | an update keeps the list length and every node with another id; on a matching node each field the update gives (text, colours, size, weight, `isRoot`, `parentId`, children, `isExpanded`, `createdAt`) is taken and each absent one kept, and `updatedAt` is stamped; a missing id changes nothing |
| GraphOps.ToggleExpandedSpec | src/modules/onemap/components/OneMapCanvas.tsx:263-271 | the toggle negates `isExpanded` of the matching nodes only, keeps all else, changes nothing for a missing id, and undoes itself |
| GraphOps.AddNodeSpec | src/modules/onemap/components/OneMapCanvas.tsx:279-361 | with a resolvable anchor: exactly one new non-root, childless, expanded node with the fresh id, the default text, text colour, size and weight, both stamps `now`, the anchor as parent, palette colour `palette[|nodes| % |palette|]`, placed at anchor x+200 and y+80 times the anchor's child count; its id appended to the anchor's `children`; every other node unchanged; exactly one edge anchor to new |
| GraphOps.AddNodeDanglingParent | src/modules/onemap/components/OneMapCanvas.tsx:281-352 | with a `parentId` naming no node: the id is still the new node's parent and the edge source, no `children` list changes, and the position comes from the root (or (400,300)) |
| GraphOps.WithoutIds | src/modules/onemap/components/OneMapCanvas.tsx:396 | stripping keeps exactly the child ids outside the deleted set |
| GraphOps.EdgesAvoiding | src/modules/onemap/components/OneMapCanvas.tsx:401 | exactly the edges with neither endpoint deleted survive |
| GraphOps.DeleteSpec | src/modules/onemap/components/OneMapCanvas.tsx:379-401 | the deleted set is the node and exactly its `children`-descendants; no survivor has a deleted id or lists one as a child; every other node survives with only its child list stripped; exactly the edges avoiding the set survive |
| GraphOps.DuplicateSpec | src/modules/onemap/components/OneMapCanvas.tsx:413-436 | a missing id changes nothing; otherwise one node is appended after the unchanged list: new id, text plus " (Cópia)", position +150/+50, no children, not a root, same parent and style, both timestamps now |
| GraphOps.ConnectSpec | src/modules/onemap/components/OneMapCanvas.tsx:153-175 | `onConnect` appends exactly one typed edge source to target when both are truthy ids of existing nodes, and changes nothing otherwise |
| GraphOps.RootCountKeep | src/modules/onemap/components/OneMapCanvas.tsx:392 | filtering that keeps every root keeps the number of roots |
| GraphOps.AddKeepsRoots | src/modules/onemap/components/OneMapCanvas.tsx:298-336 | adding a node leaves the number of roots unchanged |
| GraphOps.DuplicateKeepsRoots | src/modules/onemap/components/OneMapCanvas.tsx:419-436 | duplicating, even a root, leaves the number of roots unchanged |
| GraphOps.ToggleKeepsRoots | src/modules/onemap/components/OneMapCanvas.tsx:263-271 | toggling expansion leaves the number of roots unchanged |
| GraphOps.UpdateKeepsRoots | src/modules/onemap/components/OneMapCanvas.tsx:229-261 | an update that does not set `isRoot` keeps the number of roots |
| GraphOps.DeleteKeepsRoots | src/modules/onemap/components/OneMapCanvas.tsx:363-399 | deleting a non-root node, when no root is anyone's child, leaves the number of roots unchanged |
| GraphOps.AddKeepsParentConsistent | src/modules/onemap/components/OneMapCanvas.tsx:317-336 | adding under a resolvable anchor keeps every listed child an existing node whose `parentId` is the lister |
| GraphOps.DeleteKeepsParentConsistent | src/modules/onemap/components/OneMapCanvas.tsx:391-399 | deleting (with child lists stripped) keeps that parent-link invariant |
| GraphOps.DuplicateKeepsParentConsistent | src/modules/onemap/components/OneMapCanvas.tsx:419-436 | duplicating keeps that parent-link invariant (the copy is listed nowhere) |
| GraphOps.ToggleKeepsParentConsistent | src/modules/onemap/components/OneMapCanvas.tsx:263-271 | toggling expansion keeps that parent-link invariant |
| GraphOps.UpdateKeepsParentConsistent | src/modules/onemap/components/OneMapCanvas.tsx:229-261 | an update that sets neither `parentId` nor `children` keeps every child's `parentId` pointing back to the node that lists it |
| GraphOps.AsWrittenDivergesOnCycle | src/modules/onemap/components/OneMapCanvas.tsx:381-387 | the delete recursion as written never finishes on two nodes listing each other as children, for any recursion budget |
| GraphOps.GuardedFinishesOnCycle | src/modules/onemap/components/OneMapCanvas.tsx:381-387 | on the same two nodes the guarded closure is both ids |
| GraphOps.AsWrittenAgreesWhenFinished | src/modules/onemap/components/OneMapCanvas.tsx:381-389 | whenever the recursion as written finishes, it collects exactly the guarded closure |
| GraphOps.AsWrittenSound | src/modules/onemap/components/OneMapCanvas.tsx:381-387 | a finished run of the recursion as written holds the start, only descendants, and is closed under `children` |
| OneMapCanvas.ConnectRoundTripModes | src/modules/onemap/components/OneMapCanvas.tsx:185-227 | toggle then a click on a truthy id awaits a target; a click on a different id returns to idle |
| OneMapCanvas.Canvas.constructor | src/modules/onemap/components/OneMapCanvas.tsx:35-79 | mounting loads the map's nodes and edges through the defaulting pass (nothing for no map), idle, nothing selected |
| OneMapCanvas.Canvas.MapChanged | src/modules/onemap/components/OneMapCanvas.tsx:82-115 | a new map reloads nodes and edges; a null map keeps them; connect mode and selection are untouched |
| OneMapCanvas.Canvas.Visible | src/modules/onemap/components/OneMapCanvas.tsx:118-151 | the rendered nodes are the visibility specification of the nodes; the rendered edges are exactly those between rendered nodes |
| OneMapCanvas.Canvas.OnConnect | src/modules/onemap/components/OneMapCanvas.tsx:153-183 | the edges become the `onConnect` result; the edge-type invariant is kept |
| OneMapCanvas.Canvas.OnNodeClick | src/modules/onemap/components/OneMapCanvas.tsx:185-209 | the connect state moves as the click machine says; only a click on a different node while awaiting a target connects; outside connect mode the click toggles the selection, inside it leaves the selection alone |
| OneMapCanvas.Canvas.ToggleConnect | src/modules/onemap/components/OneMapCanvas.tsx:211-227 | connect mode flips and any chosen source is dropped |
| OneMapCanvas.Canvas.ConnectNode | src/modules/onemap/components/OneMapCanvas.tsx:445-453 | connect mode is on with the given node already chosen as source |
| OneMapCanvas.Canvas.NodeUpdate | src/modules/onemap/components/OneMapCanvas.tsx:229-261 | the nodes become the merged-and-stamped list |
| OneMapCanvas.Canvas.ToggleExpanded | src/modules/onemap/components/OneMapCanvas.tsx:263-277 | the nodes become the toggled list |
| OneMapCanvas.Canvas.AddNode | src/modules/onemap/components/OneMapCanvas.tsx:279-361 | nodes and edges become the add results for a new node with the fresh id, and that node is selected |
| OneMapCanvas.Canvas.DeleteNode | src/modules/onemap/components/OneMapCanvas.tsx:363-411 | a missing id or a root changes nothing; otherwise the node's descendants are removed from nodes, edges and child lists, and a selection of that node is cleared |
| OneMapCanvas.Canvas.DuplicateNode | src/modules/onemap/components/OneMapCanvas.tsx:413-443 | nodes become the duplicate result; the copy is selected exactly when the original exists |
| OneMapCanvas.Canvas.Save | src/modules/onemap/components/OneMapCanvas.tsx:469-496 | no map saves nothing; otherwise the saved map carries the live nodes and edges, stamped now |
| OneMapCanvas.ConnectTwoNodes | src/modules/onemap/components/OneMapCanvas.tsx:185-209 | toggle, click a, click a different b: exactly one edge a to b is added, nodes are unchanged, and connect mode is off again |
| OneMapCanvas.SaveThenLoad | src/modules/onemap/components/OneMapCanvas.tsx:469-496 | a canvas mounted on a saved map has the saving canvas's nodes and edges, when no node has a falsy field |
| MindMapFlowNode.TrimStart | src/modules/onemap/components/MindMapFlowNode.tsx:97 | the result is a suffix with no leading whitespace, and only whitespace was removed |
| MindMapFlowNode.TrimEnd | src/modules/onemap/components/MindMapFlowNode.tsx:97 | the result is a prefix with no trailing whitespace, and only whitespace was removed |
| MindMapFlowNode.Trim | src/modules/onemap/components/MindMapFlowNode.tsx:97 | the trimmed text has no whitespace at either end and is empty exactly when the text is all whitespace |
| MindMapFlowNode.TrimCutsEnds | src/modules/onemap/components/MindMapFlowNode.tsx:97 | the trimmed text is a contiguous stretch of the text with only whitespace before it and only whitespace after it |
| MindMapFlowNode.TrimIdempotent | src/modules/onemap/components/MindMapFlowNode.tsx:97 | trimming twice is trimming once |
| MindMapFlowNode.FinishCalls | src/modules/onemap/components/MindMapFlowNode.tsx:92-104 | at most one call; a text update exists iff the trimmed edit text is non-empty and differs from the node's text, and it carries the trimmed text |
| MindMapFlowNode.FinishIgnoresBlank | src/modules/onemap/components/MindMapFlowNode.tsx:97 | an edit text of only whitespace never updates the node |
| MindMapFlowNode.FinishUnchangedIsSilent | src/modules/onemap/components/MindMapFlowNode.tsx:76-104 | starting then finishing without typing fires nothing when the node's text is already trimmed |
| MindMapFlowNode.FinishWritesTrimmed | src/modules/onemap/components/MindMapFlowNode.tsx:97-99 | any text written is non-empty and trimmed, so finishing again on it fires nothing |
| MindMapFlowNode.FinishAsAssembled | src/modules/onemap/components/MindMapFlowNode.tsx:92-104 | as the canvas assembles the node (`onUpdateNode` undefined), finishing reaches the canvas with no call; it throws, and editing stays on, exactly when the trimmed text is non-empty and differs from the node's text |
| MindMapFlowNode.AssembledFinishLosesEdit | src/modules/onemap/components/MindMapFlowNode.tsx:92-104 | the edits the component means to save are exactly the ones lost as assembled: there `FinishCalls` writes the trimmed text while the assembled node writes nothing and keeps editing |
| MindMapFlowNode.ToggledWeight | src/modules/onemap/components/MindMapFlowNode.tsx:167-171 | the new weight is 'bold' or 'normal', and 'normal' exactly when the old one was 'bold' |
| MindMapFlowNode.ToggledWeightTwice | src/modules/onemap/components/MindMapFlowNode.tsx:167-171 | two toggles restore 'bold' and turn anything else into 'normal' |
| MindMapFlowNode.NodeEditor.constructor | src/modules/onemap/components/MindMapFlowNode.tsx:55-58 | a node mounts not editing, with its text as edit text and both popovers closed |
| MindMapFlowNode.NodeEditor.TextChanged | src/modules/onemap/components/MindMapFlowNode.tsx:71-74 | a changed node text resets the edit text |
| MindMapFlowNode.NodeEditor.StartEditing | src/modules/onemap/components/MindMapFlowNode.tsx:76-90 | editing starts with the node's current text |
| MindMapFlowNode.NodeEditor.InputChange | src/modules/onemap/components/MindMapFlowNode.tsx:142-146 | the edit text becomes the typed value |
| MindMapFlowNode.NodeEditor.FinishEditing | src/modules/onemap/components/MindMapFlowNode.tsx:92-104 | editing always ends, the edit text is kept, and the calls are those of `FinishCalls` |
| MindMapFlowNode.NodeEditor.CancelEditing | src/modules/onemap/components/MindMapFlowNode.tsx:106-110 | editing ends and the edit text reverts to the node's text |
| MindMapFlowNode.NodeEditor.InputBlur | src/modules/onemap/components/MindMapFlowNode.tsx:148-153 | leaving the input finishes editing |
| MindMapFlowNode.NodeEditor.KeyDown | src/modules/onemap/components/MindMapFlowNode.tsx:119-140 | Enter is finish; Escape is cancel and fires nothing; Tab is finish followed by an add-child call for this node; any other key changes nothing and fires nothing |
| MindMapFlowNode.NodeEditor.ColorChange | src/modules/onemap/components/MindMapFlowNode.tsx:155-159 | one background update for this node, and the colour popover closes |
| MindMapFlowNode.NodeEditor.FontSizeChange | src/modules/onemap/components/MindMapFlowNode.tsx:161-165 | one font-size update for this node, and the font popover closes |
| MindMapFlowNode.NodeEditor.FontWeightToggle | src/modules/onemap/components/MindMapFlowNode.tsx:167-171 | exactly one update for this node carrying only the toggled weight |
| MindMapFlowNode.NodeEditor.RenameClick | src/modules/onemap/components/MindMapFlowNode.tsx:173-181 | a rename call for this node, then editing starts with the node's text |
| MindMapFlowNode.NodeEditor.DeleteClick | src/modules/onemap/components/MindMapFlowNode.tsx:183-196 | a root never fires a delete; any other node fires one delete of itself exactly when the user confirms |
| MindMapFlowNode.NodeEditor.ExpandControlClick | src/modules/onemap/components/MindMapFlowNode.tsx:212-262 | the expand control reacts iff the node is not being edited and has children, and then toggles this node |
| MindMapFlowNode.NodeEditor.AddChildClick | src/modules/onemap/components/MindMapFlowNode.tsx:286-291 | one add-child call for this node |
| MindMapFlowNode.NodeEditor.DuplicateClick | src/modules/onemap/components/MindMapFlowNode.tsx:198-203 | one duplicate call for this node |
| MindMapFlowNode.NodeEditor.ConnectClick | src/modules/onemap/components/MindMapFlowNode.tsx:205-210 | one connect call for this node |
| MindMapFlowNode.EditThenTab | src/modules/onemap/components/MindMapFlowNode.tsx:119-140 | start, type a new non-blank text, Tab: the trimmed text is written, then a child is requested, and editing has ended |
| OneBoard.FindBoard | src/modules/oneboard/pages/OneBoard.tsx:98 | the lookup returns a board of the list with that id, and nothing exactly when no board has it |
| OneBoard.FindBoardIsFirst | src/modules/oneboard/pages/OneBoard.tsx:98 | the board the lookup returns is the first in the list with that id |
| OneBoard.WithoutBoard | src/modules/oneboard/pages/OneBoard.tsx:129 | exactly the boards with another id remain, none with that id, and an absent id changes nothing |
| OneBoard.ToggleActiveSpec | src/modules/oneboard/pages/OneBoard.tsx:118-120 | toggling keeps length, ids and every other board; a matching board has `isActive` negated, `updatedAt` stamped and all else kept |
| OneBoard.ToggleActiveTwice | src/modules/oneboard/pages/OneBoard.tsx:118-120 | toggling twice restores every flag; only the toggled boards' timestamps changed |
| OneBoard.FindToggled | src/modules/oneboard/pages/OneBoard.tsx:123-125 | the re-read of the active board after a toggle finds the toggled board |
| OneBoard.FindAfterDelete | src/modules/oneboard/pages/OneBoard.tsx:129 | deleting one id leaves the lookup of every other id unchanged |
| OneBoard.ReplaceBoardSpec | src/modules/oneboard/pages/OneBoard.tsx:168-170 | updating keeps length, ids and every other board, and puts the submission stamped now where the id matched |
| OneBoard.FindReplaced | src/modules/oneboard/pages/OneBoard.tsx:168-170 | after an update the lookup finds the stamped submission |
| OneBoard.FindAppended | src/modules/oneboard/pages/OneBoard.tsx:149 | a board appended under a fresh id is found, and no other lookup changes |
| OneBoard.UnknownBoardIgnored | src/modules/oneboard/pages/OneBoard.tsx:98-100 | any action on an unknown id leaves the whole page unchanged |
| OneBoard.ToggleActiveAction | src/modules/oneboard/pages/OneBoard.tsx:117-126 | 'toggle-active' keeps length, ids and view, saves the new list, and an active board with that id becomes its toggled self |
| OneBoard.DeleteAction | src/modules/oneboard/pages/OneBoard.tsx:127-137 | a declined delete changes nothing; a confirmed one removes exactly that id's boards, keeps other lookups, saves, and closes the board to the grid if it was active |
| OneBoard.BoardPage.constructor | src/modules/oneboard/pages/OneBoard.tsx:14-80 | the page starts on the seed boards in the grid with nothing open, and takes the stored list instead exactly when storage holds a usable one |
| OneBoard.BoardPage.SaveToStorage | src/modules/oneboard/pages/OneBoard.tsx:83-94 | storage holds exactly the given list, stamped now |
| OneBoard.BoardPage.BoardAction | src/modules/oneboard/pages/OneBoard.tsx:96-139 | the whole new page is `AfterAction` of the old: unknown id nothing; 'view' opens on the canvas; 'edit'/'share' open their dialog on the board; 'toggle-active' and a confirmed 'delete' as `ToggleActiveAction` and `DeleteAction` state; an unrecognised action nothing |
| OneBoard.BoardPage.OpenBoard | src/modules/oneboard/pages/OneBoard.tsx:103-108 | 'view' sets the active board, clears the columns and shows the canvas, nothing else |
| OneBoard.BoardPage.ToggleBoard | src/modules/oneboard/pages/OneBoard.tsx:117-126 | the list and storage become the toggled list and an active board with that id is re-read from it, nothing else |
| OneBoard.BoardPage.RemoveBoard | src/modules/oneboard/pages/OneBoard.tsx:128-136 | the list and storage become the filtered list, and an active board with that id is closed back to the grid, nothing else |
| OneBoard.BoardPage.CreateBoard | src/modules/oneboard/pages/OneBoard.tsx:141-153 | exactly one board (fresh id, timestamps now, author "current-user") is appended, saved, and the create dialog closes |
| OneBoard.BoardPage.CreateBoardFromTemplate | src/modules/oneboard/pages/OneBoard.tsx:155-164 | the template's board is appended, saved, and opened on the canvas with its columns; the template dialog closes |
| OneBoard.BoardPage.UpdateBoard | src/modules/oneboard/pages/OneBoard.tsx:166-178 | matching boards are replaced by the stamped submission and saved; an active board with that id becomes the submission as given, without the new stamp; the edit dialog closes |
| OneBoard.BoardPage.BackToGrid | src/modules/oneboard/pages/OneBoard.tsx:180-184 | nothing is open, no columns, the grid shows, nothing else changes |
| OneBoard.BoardPage.ShowCreateBoardOptions | src/modules/oneboard/pages/OneBoard.tsx:186-188 | the template dialog opens, nothing else changes |
| OneBoard.BoardPage.ViewModeChange | src/modules/oneboard/pages/OneBoard.tsx:194 | the toolbar sets the view mode, nothing else changes |
| OneBoard.BoardPage.CloseEditModal | src/modules/oneboard/pages/OneBoard.tsx:219-222 | the edit dialog closes and forgets its board |
| OneBoard.BoardPage.CloseCreateModal | src/modules/oneboard/pages/OneBoard.tsx:213 | the create dialog closes |
| OneBoard.BoardPage.CloseTemplateModal | src/modules/oneboard/pages/OneBoard.tsx:238 | the template dialog closes |
| OneBoard.BoardPage.CloseShareModal | src/modules/oneboard/pages/OneBoard.tsx:229-232 | the share dialog closes and forgets its board |
| OneBoard.ViewThenBack | src/modules/oneboard/pages/OneBoard.tsx:103-108 | view then back to grid returns to the grid with nothing open, leaving the list and storage alone |
| OneBoard.ReloadAfterCreate | src/modules/oneboard/pages/OneBoard.tsx:65-80 | a page mounted after a create loads the list with the new board, which its fresh id finds |

## Left out

- Rendering is not modelled: JSX, class names, inline styles, xyflow `Handle`s, popovers, dropdowns, the "no map selected" placeholder, and which buttons show for a selected node.
- The xyflow library is not modelled:
  - node and edge drags through `onNodesChange` and `onEdgesChange`;
  - `addEdge`'s handling of duplicate edges (connecting appends);
  - the constant edge fields `animated`, `style`, `sourceHandle` and `targetHandle`.
- Toasts, `console.log` and `alert` are not modelled. `handleRenameNode` (`OneMapCanvas.tsx:455-467`) only shows a toast, so it has no member. `onMapAction` is never called.
- `setTimeout` is not modelled; the delayed steps run in order:
  - the focus and select after `startEditing`;
  - the 100 ms delay before Tab's add-child call and before blur finishes editing.
  - A second `finishEditing` from a blur after Enter is therefore not modelled.
- `crypto.randomUUID`, `new Date()`, `confirm` and `DEFAULT_NODE_COLORS` are parameters. The palette must be non-empty, as the source's modulo needs. One clock value serves each handler, although `saveToStorage` reads the clock again for `lastUpdated`.
- `onMapUpdate` is not called: `OneMapCanvas.Canvas.Save` returns the map it would pass.
- `localStorage` and `JSON.parse` / `JSON.stringify` are not modelled. What the page reads is a `StorageSlot`: empty, unusable (unparsable, or no `boards` array) or a saved list. A failing `setItem` is not modelled.
- Numbers are integers: positions and font sizes. Floating point and `NaN` are not modelled.
- A partial update that sets a field to an explicit `undefined` is modelled as leaving the field out.
- Fields outside the listed records are not modelled (the node `type`, extra board or map fields). The source's spreads carry them along.
- `BoardColumn` comes from a config module that is not part of this model. Columns are opaque records that the page only passes on.
- MindMapFlowNode.NodeEditor: its handlers (`FinishEditing`, `KeyDown`, `InputBlur`, `RenameClick`, `ColorChange`, `FontSizeChange`, `FontWeightToggle`, `DeleteClick`, `ExpandControlClick`, `AddChildClick`, `DuplicateClick`, `ConnectClick`) assume the seven callbacks arrive as props, as `MindMapFlowNode.tsx:43-54` reads them. The canvas puts them inside `data` instead (`OneMapCanvas.tsx:544-547`). As assembled, every handler that calls one throws before its later effects. Only `finishEditing` is modelled as assembled (`MindMapFlowNode.FinishAsAssembled`, see Findings).
- The modal components, `OneBoardGrid`, `OneBoardCanvas`, the toolbars, `App.tsx`, routing and the layout shell are not part of this model.
- MindMapData.SaveMap: the node and connection counts and the map's own fields are stated in its contract; the contents of the saved lists are stated by `MindMapData.LoadAfterSave` through a load.

## Findings

| source | as written | input that shows it | evidently intended | confidence | as-written member | corrected member |
|---|---|---|---|---|---|---|
| src/modules/onemap/components/OneMapCanvas.tsx:381-387 | `collectNodesToDelete` adds the id to the set and recurses into every child without checking whether the child was already collected | two nodes "a" (root) and "b" whose `children` list each other; deleting "b" recurses b, a, b, a, … without end | stop at ids already collected, yielding the node and all its descendants ({"a","b"} here) | not executed | GraphOps.AsWrittenDivergesOnCycle | Visibility.CollectDescendants |
| src/modules/onemap/components/MindMapFlowNode.tsx:43-54 | the component reads `onUpdateNode`, `onAddChild` and the other callbacks as top-level props, but the canvas registers it directly as a node type (`OneMapCanvas.tsx:29-31`) and passes the callbacks inside `data` (`OneMapCanvas.tsx:544-547`); a custom node receives only `id`, `data`, `selected` and similar props, so every callback is undefined | edit a node's text from "a" to "b" and press Enter: `onUpdateNode(id, {text: "b"})` throws at `MindMapFlowNode.tsx:99`, before `setIsEditing(false)`, so the text is not saved and the input stays open | read the callbacks from `data` (or pass them as props), so the edit is saved and editing ends | medium, not executed; rests on the props React Flow documents for custom nodes | MindMapFlowNode.FinishAsAssembled | MindMapFlowNode.NodeEditor.FinishEditing |
