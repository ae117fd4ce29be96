/**
 * The list transforms behind the canvas handlers of
 * src/modules/onemap/components/OneMapCanvas.tsx (the `setNodes`/`setEdges`
 * callbacks), as functions from the old lists to the new ones, with the
 * properties each handler promises and the structural invariants they keep.
 */
module GraphOps {
  import opened Wrappers
  import opened MindMapData
  import opened Visibility

  /** JavaScript truthiness of an optional id: present and not the empty string. */
  predicate Present(o: Option<Id>) {
    o.Some? && o.value != ""
  }

  // ---------------------------------------------------------------------------
  // Partial update and expansion toggle

  /** `Partial<MindMapNodeData>`: `None` is a field the update does not mention. */
  datatype NodeUpdate = NodeUpdate(
    text: Option<string>,
    backgroundColor: Option<string>,
    color: Option<string>,
    fontSize: Option<int>,
    fontWeight: Option<string>,
    isRoot: Option<bool>,
    parentId: Option<Id>,
    children: Option<seq<Id>>,
    isExpanded: Option<bool>,
    createdAt: Option<string>,
    updatedAt: Option<string>)

  /** `{ ...data, ...updates, updatedAt: now }`. */
  function MergeData(d: NodeData, u: NodeUpdate, now: string): NodeData {
    NodeData(
      u.text.GetOr(d.text),
      u.backgroundColor.GetOr(d.backgroundColor),
      u.color.GetOr(d.color),
      u.fontSize.GetOr(d.fontSize),
      u.fontWeight.GetOr(d.fontWeight),
      u.isRoot.GetOr(d.isRoot),
      if u.parentId.Some? then u.parentId else d.parentId,
      u.children.GetOr(d.children),
      u.isExpanded.GetOr(d.isExpanded),
      u.createdAt.GetOr(d.createdAt),
      now)
  }

  /** The `setNodes` callback of `handleNodeUpdate`. */
  function UpdateNodes(nodes: seq<MapNode>, id: Id, u: NodeUpdate, now: string): seq<MapNode> {
    seq(|nodes|, i requires 0 <= i < |nodes| =>
      if nodes[i].id == id then nodes[i].(data := MergeData(nodes[i].data, u, now)) else nodes[i])
  }

  /** The `setNodes` callback of `handleToggleExpanded`. */
  function ToggleExpandedNodes(nodes: seq<MapNode>, id: Id): seq<MapNode> {
    seq(|nodes|, i requires 0 <= i < |nodes| =>
      if nodes[i].id == id then nodes[i].(data := nodes[i].data.(isExpanded := !nodes[i].data.isExpanded)) else nodes[i])
  }

  /**
   * An update touches only the nodes with the given id: each field the update
   * names is replaced, every other field is kept, `updatedAt` becomes `now`;
   * an id no node has leaves the list as it was.
   */
  lemma UpdateNodesSpec(nodes: seq<MapNode>, id: Id, u: NodeUpdate, now: string)
    ensures var r := UpdateNodes(nodes, id, u, now);
      && |r| == |nodes|
      && (forall i :: 0 <= i < |nodes| && nodes[i].id != id ==> r[i] == nodes[i])
      && (forall i :: 0 <= i < |nodes| && nodes[i].id == id ==>
            && r[i].id == id && r[i].position == nodes[i].position
            && r[i].data.updatedAt == now
            && r[i].data.text == (if u.text.Some? then u.text.value else nodes[i].data.text)
            && r[i].data.backgroundColor == (if u.backgroundColor.Some? then u.backgroundColor.value else nodes[i].data.backgroundColor)
            && r[i].data.color == (if u.color.Some? then u.color.value else nodes[i].data.color)
            && r[i].data.isRoot == (if u.isRoot.Some? then u.isRoot.value else nodes[i].data.isRoot)
            && r[i].data.parentId == (if u.parentId.Some? then u.parentId else nodes[i].data.parentId)
            && r[i].data.createdAt == (if u.createdAt.Some? then u.createdAt.value else nodes[i].data.createdAt)
            && r[i].data.fontSize == (if u.fontSize.Some? then u.fontSize.value else nodes[i].data.fontSize)
            && r[i].data.fontWeight == (if u.fontWeight.Some? then u.fontWeight.value else nodes[i].data.fontWeight)
            && r[i].data.children == (if u.children.Some? then u.children.value else nodes[i].data.children)
            && r[i].data.isExpanded == (if u.isExpanded.Some? then u.isExpanded.value else nodes[i].data.isExpanded))
      && (id !in NodeIds(nodes) ==> r == nodes)
  {
    var r := UpdateNodes(nodes, id, u, now);
    if id !in NodeIds(nodes) {
      forall i | 0 <= i < |nodes| ensures r[i] == nodes[i] {
        assert nodes[i] in nodes;
      }
    }
  }

  /** The toggle negates `isExpanded` of the nodes with that id and changes nothing else. */
  lemma ToggleExpandedSpec(nodes: seq<MapNode>, id: Id)
    ensures var r := ToggleExpandedNodes(nodes, id);
      && |r| == |nodes|
      && (forall i :: 0 <= i < |nodes| && nodes[i].id != id ==> r[i] == nodes[i])
      && (forall i :: 0 <= i < |nodes| && nodes[i].id == id ==>
            r[i].data.isExpanded == !nodes[i].data.isExpanded &&
            r[i].data.(isExpanded := true) == nodes[i].data.(isExpanded := true) &&
            r[i].id == id && r[i].position == nodes[i].position)
      && (id !in NodeIds(nodes) ==> r == nodes)
      && ToggleExpandedNodes(r, id) == nodes
  {
    var r := ToggleExpandedNodes(nodes, id);
    if id !in NodeIds(nodes) {
      forall i | 0 <= i < |nodes| ensures r[i] == nodes[i] {
        assert nodes[i] in nodes;
      }
    }
  }

  // ---------------------------------------------------------------------------
  // Adding a child

  /**
   * The node whose position the new node is placed against: the given parent
   * when `parentId` is truthy, else the first root; a truthy `parentId` no node
   * carries falls back to the root.
   */
  function PositionAnchor(nodes: seq<MapNode>, parentId: Option<Id>): Option<MapNode> {
    var parent := if Present(parentId) then FindNode(nodes, parentId.value) else None;
    if parent.Some? then parent else FindRoot(nodes)
  }

  /**
   * The anchor `handleAddNode` is meant to hang the new node under: the given
   * parent when `parentId` is truthy, else the first root.
   */
  function ResolvedAnchor(nodes: seq<MapNode>, parentId: Option<Id>): Option<MapNode> {
    if Present(parentId) then FindNode(nodes, parentId.value) else FindRoot(nodes)
  }

  /** `parentId || rootNode?.id`: the id recorded as parent, edge source and owner of the new child id. */
  function AnchorId(nodes: seq<MapNode>, parentId: Option<Id>): Option<Id> {
    if Present(parentId) then parentId
    else match FindRoot(nodes)
      case None => None
      case Some(root) => Some(root.id)
  }

  /** `(x, y)` of `handleAddNode`: 200 to the right of the anchor, 80 lower per existing child. */
  function NewNodePosition(nodes: seq<MapNode>, parentId: Option<Id>): Position {
    match PositionAnchor(nodes, parentId)
    case None => DefaultPosition
    case Some(a) => Position(a.position.x + 200, a.position.y + |a.data.children| * 80)
  }

  /** `newNode` of `handleAddNode`; the background colour is picked round-robin by node count. */
  function NewChildNode(nodes: seq<MapNode>, parentId: Option<Id>, newId: Id, now: string, palette: seq<string>): MapNode
    requires |palette| > 0
  {
    MapNode(newId, NewNodePosition(nodes, parentId),
      NodeData(DefaultText, palette[|nodes| % |palette|], DefaultColor, DefaultFontSize, DefaultFontWeight,
               false, AnchorId(nodes, parentId), [], true, now, now))
  }

  /** Appends `childId` to the `children` of every node with id `anchor`. */
  function AppendChild(nodes: seq<MapNode>, anchor: Id, childId: Id): seq<MapNode> {
    seq(|nodes|, i requires 0 <= i < |nodes| =>
      if nodes[i].id == anchor then nodes[i].(data := nodes[i].data.(children := nodes[i].data.children + [childId]))
      else nodes[i])
  }

  /** The `setNodes` callback of `handleAddNode`. */
  function AddNodeNodes(nodes: seq<MapNode>, parentId: Option<Id>, newNode: MapNode): seq<MapNode> {
    match AnchorId(nodes, parentId)
    case None => nodes + [newNode]
    case Some(a) => AppendChild(nodes + [newNode], a, newNode.id)
  }

  /** The `setEdges` callback of `handleAddNode`: one tree edge anchor to new node. */
  function AddNodeEdges(nodes: seq<MapNode>, edges: seq<Edge>, parentId: Option<Id>, newId: Id, edgeId: Id): seq<Edge> {
    match AnchorId(nodes, parentId)
    case None => edges
    case Some(a) => edges + [Edge(edgeId, a, newId, DefaultEdgeType)]
  }

  /** What an id generator guarantees for the new node's id. */
  predicate FreshNodeId(nodes: seq<MapNode>, parentId: Option<Id>, newId: Id) {
    newId !in NodeIds(nodes) && (parentId.Some? ==> newId != parentId.value)
  }

  /**
   * Adding a child under a resolvable anchor (the parent if given, else the
   * root): exactly one node is appended, a non-root, expanded leaf coloured
   * `palette[|nodes| % |palette|]` and placed at the anchor's x + 200 and
   * y + 80 * (its child count); its id is appended to the end of the anchor's
   * `children`, nothing else changes, and exactly one edge anchor to new node is added.
   */
  lemma AddNodeSpec(nodes: seq<MapNode>, edges: seq<Edge>, parentId: Option<Id>, newId: Id, edgeId: Id,
                    now: string, palette: seq<string>)
    requires |palette| > 0 && FreshNodeId(nodes, parentId, newId)
    requires ResolvedAnchor(nodes, parentId).Some?
    ensures var anchor := ResolvedAnchor(nodes, parentId).value;
      var n := NewChildNode(nodes, parentId, newId, now, palette);
      var r := AddNodeNodes(nodes, parentId, n);
      && |r| == |nodes| + 1 && r[|nodes|] == n
      && NodeIds(r) == NodeIds(nodes) + {newId}
      && !n.data.isRoot && n.data.children == [] && n.data.isExpanded
      && n.data.text == DefaultText && n.data.color == DefaultColor
      && n.data.fontSize == DefaultFontSize && n.data.fontWeight == DefaultFontWeight
      && n.data.createdAt == now && n.data.updatedAt == now && n.id == newId
      && n.data.parentId == Some(anchor.id)
      && n.data.backgroundColor == palette[|nodes| % |palette|]
      && n.position == Position(anchor.position.x + 200, anchor.position.y + 80 * |anchor.data.children|)
      && (forall i :: 0 <= i < |nodes| ==>
            r[i] == if nodes[i].id == anchor.id
                    then nodes[i].(data := nodes[i].data.(children := nodes[i].data.children + [newId]))
                    else nodes[i])
      && AddNodeEdges(nodes, edges, parentId, newId, edgeId) == edges + [Edge(edgeId, anchor.id, newId, DefaultEdgeType)]
  {
    var anchor := ResolvedAnchor(nodes, parentId).value;
    assert anchor in nodes;
    assert AnchorId(nodes, parentId) == Some(anchor.id);
    var n := NewChildNode(nodes, parentId, newId, now, palette);
    var r := AddNodeNodes(nodes, parentId, n);
    assert r[|nodes|] == n;
    forall x ensures x in NodeIds(r) <==> x in NodeIds(nodes) + {newId} {
      if x in NodeIds(r) {
        var k :| 0 <= k < |r| && r[k].id == x;
        if k < |nodes| { assert nodes[k] in nodes; }
      }
      if x in NodeIds(nodes) {
        var m :| m in nodes && m.id == x;
        var k :| 0 <= k < |nodes| && nodes[k] == m;
        assert r[k] in r;
      }
      if x == newId { assert r[|nodes|] in r; }
    }
  }

  /**
   * A truthy `parentId` that no node carries is still recorded as the new
   * node's parent and used as the edge source, but no `children` list changes
   * and the position comes from the root (or the default point).
   */
  lemma AddNodeDanglingParent(nodes: seq<MapNode>, edges: seq<Edge>, parentId: Option<Id>, newId: Id, edgeId: Id,
                              now: string, palette: seq<string>)
    requires |palette| > 0 && FreshNodeId(nodes, parentId, newId)
    requires Present(parentId) && parentId.value !in NodeIds(nodes)
    ensures var n := NewChildNode(nodes, parentId, newId, now, palette);
      && n.data.parentId == parentId
      && AddNodeNodes(nodes, parentId, n) == nodes + [n]
      && AddNodeEdges(nodes, edges, parentId, newId, edgeId) == edges + [Edge(edgeId, parentId.value, newId, DefaultEdgeType)]
      && n.position == match FindRoot(nodes)
                       case None => DefaultPosition
                       case Some(root) => Position(root.position.x + 200, root.position.y + 80 * |root.data.children|)
  {
    var n := NewChildNode(nodes, parentId, newId, now, palette);
    var r := AddNodeNodes(nodes, parentId, n);
    forall i | 0 <= i < |nodes| ensures r[i] == nodes[i] {
      assert nodes[i] in nodes;
    }
  }

  // ---------------------------------------------------------------------------
  // Cascading delete

  /** `children.filter(childId => !doomed.has(childId))`. */
  function WithoutIds(ids: seq<Id>, doomed: set<Id>): (r: seq<Id>)
    ensures forall x :: x in r <==> x in ids && x !in doomed
    ensures |r| <= |ids|
  {
    if |ids| == 0 then []
    else (if ids[0] in doomed then [] else [ids[0]]) + WithoutIds(ids[1..], doomed)
  }

  function StripChildren(n: MapNode, doomed: set<Id>): MapNode {
    n.(data := n.data.(children := WithoutIds(n.data.children, doomed)))
  }

  /** The `setNodes` callback of `handleDeleteNode`: drop the doomed nodes, then strip doomed child ids. */
  function DeleteNodes(nodes: seq<MapNode>, doomed: set<Id>): seq<MapNode> {
    var kept := KeepIds(nodes, NodeIds(nodes) - doomed);
    seq(|kept|, i requires 0 <= i < |kept| => StripChildren(kept[i], doomed))
  }

  /** `eds.filter(e => !doomed.has(e.source) && !doomed.has(e.target))`. */
  function EdgesAvoiding(edges: seq<Edge>, doomed: set<Id>): (r: seq<Edge>)
    ensures forall e :: e in r <==> e in edges && e.source !in doomed && e.target !in doomed
    ensures |r| <= |edges|
  {
    if |edges| == 0 then []
    else (if edges[0].source !in doomed && edges[0].target !in doomed then [edges[0]] else [])
         + EdgesAvoiding(edges[1..], doomed)
  }

  /**
   * Deleting `id` with doomed set `Descendants(nodes, id)`: the doomed set is
   * `id` and everything reachable from it through `children`; exactly the
   * nodes outside it survive, each with only its `children` filtered; no
   * surviving `children` list names a removed id; exactly the edges with no
   * endpoint in it survive.
   */
  lemma DeleteSpec(nodes: seq<MapNode>, edges: seq<Edge>, id: Id)
    ensures var doomed := Descendants(nodes, id);
      var r := DeleteNodes(nodes, doomed);
      && id in doomed
      && (forall x :: x in doomed <==> Reachable(nodes, false, id, x))
      && (forall n :: n in r ==> n.id !in doomed && forall c :: c in n.data.children ==> c !in doomed)
      && (forall m :: m in nodes && m.id !in doomed ==> StripChildren(m, doomed) in r)
      && (forall n :: n in r ==> exists m :: m in nodes && m.id !in doomed && n == StripChildren(m, doomed))
      && (forall e :: e in EdgesAvoiding(edges, doomed) <==> e in edges && e.source !in doomed && e.target !in doomed)
  {
    var doomed := Descendants(nodes, id);
    ReachRefl(nodes, false, id);
    forall x ensures x in doomed <==> Reachable(nodes, false, id, x) {
      InReachableSet(nodes, false, id, x);
    }
    var kept := KeepIds(nodes, NodeIds(nodes) - doomed);
    var r := DeleteNodes(nodes, doomed);
    forall m | m in nodes && m.id !in doomed ensures StripChildren(m, doomed) in r {
      assert m in kept;
      var k :| 0 <= k < |kept| && kept[k] == m;
      assert r[k] == StripChildren(m, doomed);
    }
    forall n | n in r ensures exists m :: m in nodes && m.id !in doomed && n == StripChildren(m, doomed) {
      var k :| 0 <= k < |r| && r[k] == n;
      assert kept[k] in kept;
    }
  }

  // ---------------------------------------------------------------------------
  // Duplicate

  /** The copy `handleDuplicateNode` makes: new id, offset position, marked text, no children, not a root. */
  function DuplicateOf(n: MapNode, newId: Id, now: string): MapNode {
    n.(id := newId,
       position := Position(n.position.x + 150, n.position.y + 50),
       data := n.data.(text := n.data.text + " (Cópia)", children := [], isRoot := false,
                       createdAt := now, updatedAt := now))
  }

  /** The `setNodes` callback of `handleDuplicateNode` (a missing id returns before it). */
  function DuplicateNodes(nodes: seq<MapNode>, id: Id, newId: Id, now: string): seq<MapNode> {
    match FindNode(nodes, id)
    case None => nodes
    case Some(n) => nodes + [DuplicateOf(n, newId, now)]
  }

  /**
   * Duplicating an existing node appends one node and keeps every existing one:
   * the copy keeps style, `parentId` and expansion, has text `<text> (Cópia)`,
   * sits 150 right and 50 below the original, has no children and is not a
   * root. A missing id changes nothing.
   */
  lemma DuplicateSpec(nodes: seq<MapNode>, id: Id, newId: Id, now: string)
    ensures var r := DuplicateNodes(nodes, id, newId, now);
      && (id !in NodeIds(nodes) ==> r == nodes)
      && (id in NodeIds(nodes) ==>
            var orig := FindNode(nodes, id).value;
            var copy := r[|nodes|];
            && |r| == |nodes| + 1 && r[..|nodes|] == nodes
            && orig in nodes && orig.id == id
            && copy.id == newId
            && copy.data.children == [] && !copy.data.isRoot
            && copy.data.text == orig.data.text + " (Cópia)"
            && copy.position == Position(orig.position.x + 150, orig.position.y + 50)
            && copy.data.parentId == orig.data.parentId
            && copy.data.backgroundColor == orig.data.backgroundColor && copy.data.color == orig.data.color
            && copy.data.fontSize == orig.data.fontSize && copy.data.fontWeight == orig.data.fontWeight
            && copy.data.isExpanded == orig.data.isExpanded
            && copy.data.createdAt == now && copy.data.updatedAt == now)
  {
  }

  // ---------------------------------------------------------------------------
  // Connect

  /** The edge list after `onConnect(source, target)`; the edge store appends (no dedupe is modelled). */
  function ConnectEdges(nodes: seq<MapNode>, edges: seq<Edge>, source: Id, target: Id, edgeId: Id): seq<Edge> {
    if source == "" || target == "" then edges
    else if FindNode(nodes, source).None? || FindNode(nodes, target).None? then edges
    else edges + [Edge(edgeId, source, target, DefaultEdgeType)]
  }

  /** `onConnect` adds exactly one edge source to target iff both endpoints exist, and nothing otherwise. */
  lemma ConnectSpec(nodes: seq<MapNode>, edges: seq<Edge>, source: Id, target: Id, edgeId: Id)
    ensures var r := ConnectEdges(nodes, edges, source, target, edgeId);
      && (source in NodeIds(nodes) && target in NodeIds(nodes) && source != "" && target != "" ==>
            r == edges + [Edge(edgeId, source, target, DefaultEdgeType)])
      && (source !in NodeIds(nodes) || target !in NodeIds(nodes) || source == "" || target == "" ==> r == edges)
  {
  }

  // ---------------------------------------------------------------------------
  // The single-root invariant

  function RootCount(nodes: seq<MapNode>): nat {
    if |nodes| == 0 then 0 else (if nodes[0].data.isRoot then 1 else 0) + RootCount(nodes[1..])
  }

  lemma {:induction false} RootCountAppend(nodes: seq<MapNode>, n: MapNode)
    ensures RootCount(nodes + [n]) == RootCount(nodes) + (if n.data.isRoot then 1 else 0)
  {
    if |nodes| > 0 {
      assert (nodes + [n])[1..] == nodes[1..] + [n];
      RootCountAppend(nodes[1..], n);
    }
  }

  /** Two lists that agree position by position on `isRoot` have as many roots. */
  lemma {:induction false} RootCountAlike(a: seq<MapNode>, b: seq<MapNode>)
    requires |a| == |b| && forall i :: 0 <= i < |a| ==> a[i].data.isRoot == b[i].data.isRoot
    ensures RootCount(a) == RootCount(b)
  {
    if |a| > 0 {
      RootCountAlike(a[1..], b[1..]);
    }
  }

  /** Filtering keeps every root whose id the filter keeps. */
  lemma {:induction false} RootCountKeep(nodes: seq<MapNode>, ids: set<Id>)
    requires forall n :: n in nodes && n.data.isRoot ==> n.id in ids
    ensures RootCount(KeepIds(nodes, ids)) == RootCount(nodes)
  {
    if |nodes| > 0 {
      assert nodes[0] in nodes;
      forall n | n in nodes[1..] && n.data.isRoot ensures n.id in ids { assert n in nodes; }
      RootCountKeep(nodes[1..], ids);
      var head := if nodes[0].id in ids then [nodes[0]] else [];
      assert KeepIds(nodes, ids) == head + KeepIds(nodes[1..], ids);
      if nodes[0].id in ids {
        assert (head + KeepIds(nodes[1..], ids))[1..] == KeepIds(nodes[1..], ids);
      } else {
        assert head + KeepIds(nodes[1..], ids) == KeepIds(nodes[1..], ids);
      }
    }
  }

  /** Adding a child never changes the number of roots. */
  lemma AddKeepsRoots(nodes: seq<MapNode>, parentId: Option<Id>, newId: Id, now: string, palette: seq<string>)
    requires |palette| > 0
    ensures RootCount(AddNodeNodes(nodes, parentId, NewChildNode(nodes, parentId, newId, now, palette))) == RootCount(nodes)
  {
    var n := NewChildNode(nodes, parentId, newId, now, palette);
    RootCountAppend(nodes, n);
    match AnchorId(nodes, parentId)
    case None =>
    case Some(a) => RootCountAlike(AppendChild(nodes + [n], a, newId), nodes + [n]);
  }

  /** Duplicating never changes the number of roots. */
  lemma DuplicateKeepsRoots(nodes: seq<MapNode>, id: Id, newId: Id, now: string)
    ensures RootCount(DuplicateNodes(nodes, id, newId, now)) == RootCount(nodes)
  {
    if FindNode(nodes, id).Some? {
      RootCountAppend(nodes, DuplicateOf(FindNode(nodes, id).value, newId, now));
    }
  }

  /** Toggling expansion never changes the number of roots. */
  lemma ToggleKeepsRoots(nodes: seq<MapNode>, id: Id)
    ensures RootCount(ToggleExpandedNodes(nodes, id)) == RootCount(nodes)
  {
    RootCountAlike(ToggleExpandedNodes(nodes, id), nodes);
  }

  /**
   * An update that leaves `isRoot` out, as every update a rendered node sends
   * does, never changes the number of roots.
   */
  lemma UpdateKeepsRoots(nodes: seq<MapNode>, id: Id, u: NodeUpdate, now: string)
    requires u.isRoot.None?
    ensures RootCount(UpdateNodes(nodes, id, u, now)) == RootCount(nodes)
  {
    RootCountAlike(UpdateNodes(nodes, id, u, now), nodes);
  }

  /**
   * When no `children` list names a root's id, deleting any id other than a
   * root's removes no root.
   */
  lemma DeleteKeepsRoots(nodes: seq<MapNode>, id: Id)
    requires forall n :: n in nodes && n.data.isRoot ==> n.id != id
    requires forall n, m :: n in nodes && m in nodes && m.data.isRoot ==> m.id !in n.data.children
    ensures RootCount(DeleteNodes(nodes, Descendants(nodes, id))) == RootCount(nodes)
  {
    var doomed := Descendants(nodes, id);
    forall m | m in nodes && m.data.isRoot ensures m.id in NodeIds(nodes) - doomed {
      InReachableSet(nodes, false, id, m.id);
      if Reachable(nodes, false, id, m.id) {
        ReachedIsChild(nodes, false, id, m.id);
      }
    }
    var kept := KeepIds(nodes, NodeIds(nodes) - doomed);
    RootCountKeep(nodes, NodeIds(nodes) - doomed);
    RootCountAlike(DeleteNodes(nodes, doomed), kept);
  }

  // ---------------------------------------------------------------------------
  // Children/parent consistency

  /** Every id in a `children` list names a node whose `parentId` points back. */
  ghost predicate ParentConsistent(nodes: seq<MapNode>) {
    forall n, c :: n in nodes && c in n.data.children ==>
      exists m :: m in nodes && m.id == c && m.data.parentId == Some(n.id)
  }

  /** Adding a child under a resolvable anchor keeps children/parent consistency. */
  lemma AddKeepsParentConsistent(nodes: seq<MapNode>, parentId: Option<Id>, newId: Id, now: string, palette: seq<string>)
    requires |palette| > 0 && FreshNodeId(nodes, parentId, newId)
    requires ResolvedAnchor(nodes, parentId).Some?
    requires ParentConsistent(nodes)
    ensures ParentConsistent(AddNodeNodes(nodes, parentId, NewChildNode(nodes, parentId, newId, now, palette)))
  {
    var anchor := ResolvedAnchor(nodes, parentId).value;
    var n := NewChildNode(nodes, parentId, newId, now, palette);
    var r := AddNodeNodes(nodes, parentId, n);
    var e := [];
    AddNodeSpec(nodes, e, parentId, newId, "", now, palette);
    // every old node survives at its index with its id and parentId
    forall k | 0 <= k < |nodes| ensures r[k].id == nodes[k].id && r[k].data.parentId == nodes[k].data.parentId { }
    forall p, c | p in r && c in p.data.children
      ensures exists m :: m in r && m.id == c && m.data.parentId == Some(p.id)
    {
      var j :| 0 <= j < |r| && r[j] == p;
      if j < |nodes| {
        var old_p := nodes[j];
        if c == newId && old_p.id == anchor.id {
          assert r[|nodes|] in r;
        } else {
          assert c in old_p.data.children;
          var m :| m in nodes && m.id == c && m.data.parentId == Some(old_p.id);
          var k :| 0 <= k < |nodes| && nodes[k] == m;
          assert r[k] in r;
        }
      }
    }
  }

  /** A child listed by a node that survives a delete names a surviving node whose `parentId` points back. */
  lemma DeleteKeepsLink(nodes: seq<MapNode>, doomed: set<Id>, j: int, c: Id)
    requires ParentConsistent(nodes)
    requires 0 <= j < |DeleteNodes(nodes, doomed)| && c in DeleteNodes(nodes, doomed)[j].data.children
    ensures exists m :: m in DeleteNodes(nodes, doomed) && m.id == c && m.data.parentId == Some(DeleteNodes(nodes, doomed)[j].id)
  {
    var kept := KeepIds(nodes, NodeIds(nodes) - doomed);
    var r := DeleteNodes(nodes, doomed);
    var orig := kept[j];
    assert r[j] == StripChildren(orig, doomed);
    assert orig in kept && orig in nodes;
    assert c in orig.data.children && c !in doomed;
    var m :| m in nodes && m.id == c && m.data.parentId == Some(orig.id);
    assert m.id in NodeIds(nodes) - doomed;
    assert m in kept;
    var k :| 0 <= k < |kept| && kept[k] == m;
    assert r[k] == StripChildren(m, doomed);
    assert r[k] in r;
  }

  /** Deleting keeps children/parent consistency: every surviving child still exists. */
  lemma DeleteKeepsParentConsistent(nodes: seq<MapNode>, doomed: set<Id>)
    requires ParentConsistent(nodes)
    ensures ParentConsistent(DeleteNodes(nodes, doomed))
  {
    var r := DeleteNodes(nodes, doomed);
    forall p, c | p in r && c in p.data.children
      ensures exists m :: m in r && m.id == c && m.data.parentId == Some(p.id)
    {
      var j :| 0 <= j < |r| && r[j] == p;
      DeleteKeepsLink(nodes, doomed, j, c);
    }
  }

  /** Duplicating keeps children/parent consistency: the copy is nobody's child and has none. */
  lemma DuplicateKeepsParentConsistent(nodes: seq<MapNode>, id: Id, newId: Id, now: string)
    requires ParentConsistent(nodes)
    ensures ParentConsistent(DuplicateNodes(nodes, id, newId, now))
  {
  }

  /** Toggling expansion keeps children/parent consistency. */
  lemma ToggleKeepsParentConsistent(nodes: seq<MapNode>, id: Id)
    requires ParentConsistent(nodes)
    ensures ParentConsistent(ToggleExpandedNodes(nodes, id))
  {
    var r := ToggleExpandedNodes(nodes, id);
    forall p, c | p in r && c in p.data.children
      ensures exists m :: m in r && m.id == c && m.data.parentId == Some(p.id)
    {
      var j :| 0 <= j < |r| && r[j] == p;
      assert c in nodes[j].data.children;
      var m :| m in nodes && m.id == c && m.data.parentId == Some(nodes[j].id);
      var k :| 0 <= k < |nodes| && nodes[k] == m;
      assert r[k] in r;
    }
  }

  /**
   * An update that leaves `parentId` and `children` out (text, colours, size,
   * weight: what a rendered node sends) keeps children/parent consistency.
   */
  lemma UpdateKeepsParentConsistent(nodes: seq<MapNode>, id: Id, u: NodeUpdate, now: string)
    requires u.parentId.None? && u.children.None?
    requires ParentConsistent(nodes)
    ensures ParentConsistent(UpdateNodes(nodes, id, u, now))
  {
    var r := UpdateNodes(nodes, id, u, now);
    forall p, c | p in r && c in p.data.children
      ensures exists m :: m in r && m.id == c && m.data.parentId == Some(p.id)
    {
      var j :| 0 <= j < |r| && r[j] == p;
      assert c in nodes[j].data.children;
      var m :| m in nodes && m.id == c && m.data.parentId == Some(nodes[j].id);
      var k :| 0 <= k < |nodes| && nodes[k] == m;
      assert r[k] in r;
    }
  }

  // ---------------------------------------------------------------------------
  // The delete traversal as written: no visited check

  /**
   * `collectNodesToDelete` exactly as written: add the id, then recurse into
   * every child of the node with that id, with no visited check. `fuel` bounds
   * the recursion depth the call stack allows; `None` means the recursion did
   * not finish within it.
   */
  function CollectAsWritten(nodes: seq<MapNode>, id: Id, fuel: nat): Option<set<Id>>
    decreases fuel, 0
  {
    if fuel == 0 then None
    else match FindNode(nodes, id)
      case None => Some({id})
      case Some(n) =>
        match CollectChildrenAsWritten(nodes, n.data.children, fuel - 1)
        case None => None
        case Some(s) => Some({id} + s)
  }

  /** `children.forEach(childId => collectNodesToDelete(childId))`. */
  function CollectChildrenAsWritten(nodes: seq<MapNode>, cs: seq<Id>, fuel: nat): Option<set<Id>>
    decreases fuel, |cs|
  {
    if |cs| == 0 then Some({})
    else match CollectAsWritten(nodes, cs[0], fuel)
      case None => None
      case Some(first) =>
        match CollectChildrenAsWritten(nodes, cs[1..], fuel)
        case None => None
        case Some(rest) => Some(first + rest)
  }

  /** Two nodes that list each other as children. */
  const CycleA: MapNode := MapNode("a", DefaultPosition,
    NodeData("A", DefaultBackground, DefaultColor, DefaultFontSize, DefaultFontWeight, true, None, ["b"], true, "", ""))
  const CycleB: MapNode := MapNode("b", DefaultPosition,
    NodeData("B", DefaultBackground, DefaultColor, DefaultFontSize, DefaultFontWeight, false, Some("a"), ["a"], true, "", ""))

  /**
   * On `children` data with a cycle the traversal as written never finishes,
   * however deep the stack: deleting "b" when "a" and "b" list each other
   * recurses b, a, b, a, ... forever.
   */
  lemma {:induction false} AsWrittenDivergesOnCycle(fuel: nat)
    ensures CollectAsWritten([CycleA, CycleB], "b", fuel).None?
  {
    var nodes := [CycleA, CycleB];
    if fuel >= 2 {
      assert FindNode(nodes, "b") == Some(CycleB);
      assert FindNode(nodes, "a") == Some(CycleA);
      AsWrittenDivergesOnCycle(fuel - 2);
      assert CollectChildrenAsWritten(nodes, ["b"], fuel - 2).None?;
      assert CollectAsWritten(nodes, "a", fuel - 1).None?;
      assert CollectChildrenAsWritten(nodes, ["a"], fuel - 1).None?;
    }
  }

  /** The guarded traversal on the same data finishes and dooms both nodes. */
  lemma GuardedFinishesOnCycle()
    ensures Descendants([CycleA, CycleB], "b") == {"a", "b"}
  {
    var nodes := [CycleA, CycleB];
    assert FindNode(nodes, "b") == Some(CycleB);
    assert FindNode(nodes, "a") == Some(CycleA);
    assert IsPath(nodes, false, ["b", "a"]);
    InReachableSet(nodes, false, "b", "a");
    InReachableSet(nodes, false, "b", "b");
    ReachRefl(nodes, false, "b");
    forall x | x in Descendants(nodes, "b") ensures x == "a" || x == "b" {
      InReachableSet(nodes, false, "b", x);
      if x != "b" {
        ReachedIsChild(nodes, false, "b", x);
      }
    }
  }

  /**
   * Whenever the traversal as written does finish, it dooms exactly the ids
   * the guarded traversal dooms: the visited check changes termination only.
   */
  lemma AsWrittenAgreesWhenFinished(nodes: seq<MapNode>, id: Id, fuel: nat)
    requires CollectAsWritten(nodes, id, fuel).Some?
    ensures CollectAsWritten(nodes, id, fuel).value == Descendants(nodes, id)
  {
    var s := CollectAsWritten(nodes, id, fuel).value;
    AsWrittenSound(nodes, id, fuel);
    ReachRefl(nodes, false, id);
    forall x ensures x in s <==> x in Descendants(nodes, id) {
      InReachableSet(nodes, false, id, x);
      if Reachable(nodes, false, id, x) {
        ClosedHoldsReachable(nodes, false, s, id, x);
      }
    }
  }

  /** What the as-written traversal collects is closed under children and reachable from its start. */
  lemma {:induction false} AsWrittenSound(nodes: seq<MapNode>, id: Id, fuel: nat)
    requires CollectAsWritten(nodes, id, fuel).Some?
    ensures var s := CollectAsWritten(nodes, id, fuel).value;
      id in s && Closed(nodes, false, s) && forall x :: x in s ==> Reachable(nodes, false, id, x)
    decreases fuel, 0
  {
    var s := CollectAsWritten(nodes, id, fuel).value;
    ReachRefl(nodes, false, id);
    match FindNode(nodes, id)
    case None =>
      assert s == {id} && Succ(nodes, id, false) == [];
    case Some(n) =>
      var cs := n.data.children;
      assert Succ(nodes, id, false) == cs;
      ChildrenAsWrittenSound(nodes, id, cs, fuel - 1);
  }

  /**
   * What the as-written traversal collects from a run of `id`'s children holds
   * those children, is closed under children, and is reachable from `id`.
   */
  lemma {:induction false} ChildrenAsWrittenSound(nodes: seq<MapNode>, id: Id, cs: seq<Id>, fuel: nat)
    requires forall c :: c in cs ==> c in Succ(nodes, id, false)
    requires CollectChildrenAsWritten(nodes, cs, fuel).Some?
    ensures var s := CollectChildrenAsWritten(nodes, cs, fuel).value;
      && (forall c :: c in cs ==> c in s)
      && Closed(nodes, false, s)
      && forall x :: x in s ==> Reachable(nodes, false, id, x)
    decreases fuel, |cs|
  {
    if |cs| > 0 {
      var first := CollectAsWritten(nodes, cs[0], fuel).value;
      var rest := CollectChildrenAsWritten(nodes, cs[1..], fuel).value;
      AsWrittenSound(nodes, cs[0], fuel);
      ChildrenAsWrittenSound(nodes, id, cs[1..], fuel);
      forall x | x in first ensures Reachable(nodes, false, id, x) {
        ReachStep(nodes, false, id, cs[0], x);
      }
    }
  }
}
