/**
 * The canvas component of src/modules/onemap/components/OneMapCanvas.tsx as an
 * object: its state hooks become fields, each handler a method that replaces
 * them, and the derived `visibleNodes`/`visibleEdges` a method that reads them.
 * Ids, the clock and the colour palette are parameters.
 */
module OneMapCanvas {
  import opened Wrappers
  import opened MindMapData
  import opened Visibility
  import opened GraphOps

  /** The click-to-connect states: off, waiting for a first node, waiting for a second. */
  datatype ConnectMode = Idle | AwaitingSource | AwaitingTarget(source: Id)

  /** How the `isConnecting` and `connectingFromNode` fields read as a connect state. */
  function ModeOf(isConnecting: bool, from: Option<Id>): ConnectMode {
    if !isConnecting then Idle
    else if Present(from) then AwaitingTarget(from.value)
    else AwaitingSource
  }

  /** The toolbar toggle: off turns on, any other state turns off (dropping a chosen source). */
  function ToggleMode(m: ConnectMode): ConnectMode {
    if m == Idle then AwaitingSource else Idle
  }

  /**
   * A node click: while waiting for a source it records the node (an empty id
   * is falsy and keeps waiting); while waiting for a target a different node
   * completes the connection and turns connect mode off, the same node does
   * nothing; outside connect mode the state machine is not involved.
   */
  function ClickMode(m: ConnectMode, id: Id): ConnectMode {
    match m
    case Idle => Idle
    case AwaitingSource => if id != "" then AwaitingTarget(id) else AwaitingSource
    case AwaitingTarget(s) => if id != s then Idle else m
  }

  /** Toggle, click `a`, click a different `b`: back to `Idle`, and the second click is the one that connects. */
  lemma ConnectRoundTripModes(a: Id, b: Id)
    requires a != "" && a != b
    ensures ClickMode(ToggleMode(Idle), a) == AwaitingTarget(a)
    ensures ClickMode(ClickMode(ToggleMode(Idle), a), b) == Idle
  {
  }

  class Canvas {
    var mindMap: Option<MindMap>
    var nodes: seq<MapNode>
    var edges: seq<Edge>
    var isConnecting: bool
    var connectingFromNode: Option<Id>
    var selectedNodeId: Option<Id>

    /**
     * Connect mode off means no source is held, and every edge has a type
     * (loaded edges are defaulted, created ones are typed).
     */
    ghost predicate Valid()
      reads this
    {
      && (!isConnecting ==> connectingFromNode.None?)
      && forall e :: e in edges ==> e.edgeType != ""
    }

    function Mode(): ConnectMode
      reads this
    {
      ModeOf(isConnecting, connectingFromNode)
    }

    /** Mounting with a map loads its nodes and edges through the defaulting pass. */
    constructor (mindMap: Option<MindMap>)
      ensures Valid() && this.mindMap == mindMap
      ensures nodes == (if mindMap.Some? then LoadNodes(mindMap.value) else [])
      ensures edges == (if mindMap.Some? then LoadEdges(mindMap.value) else [])
      ensures Mode() == Idle && selectedNodeId == None
    {
      this.mindMap := mindMap;
      if mindMap.Some? {
        nodes := LoadNodes(mindMap.value);
        edges := LoadEdges(mindMap.value);
      } else {
        nodes := [];
        edges := [];
      }
      isConnecting := false;
      connectingFromNode := None;
      selectedNodeId := None;
    }

    /** The effect that reloads nodes and edges when a (non-null) map arrives; a null map keeps them. */
    method MapChanged(mindMap: Option<MindMap>)
      requires Valid()
      modifies this
      ensures Valid() && this.mindMap == mindMap
      ensures nodes == (if mindMap.Some? then LoadNodes(mindMap.value) else old(nodes))
      ensures edges == (if mindMap.Some? then LoadEdges(mindMap.value) else old(edges))
      ensures isConnecting == old(isConnecting) && connectingFromNode == old(connectingFromNode)
      ensures selectedNodeId == old(selectedNodeId)
    {
      this.mindMap := mindMap;
      if mindMap.Some? {
        nodes := LoadNodes(mindMap.value);
        edges := LoadEdges(mindMap.value);
      }
    }

    /** What is rendered: the visible nodes, and the edges between two visible nodes. */
    method Visible() returns (visibleNodes: seq<MapNode>, visibleEdges: seq<Edge>)
      ensures visibleNodes == VisibleSpec(nodes)
      ensures forall e :: e in visibleEdges <==>
        e in edges && e.source in NodeIds(visibleNodes) && e.target in NodeIds(visibleNodes)
    {
      visibleNodes := Visibility.VisibleNodes(nodes);
      visibleEdges := VisibleEdges(edges, visibleNodes);
    }

    /** `onConnect`: one typed edge when both endpoints are truthy ids of existing nodes. */
    method OnConnect(source: Id, target: Id, edgeId: Id)
      requires Valid()
      modifies this`edges
      ensures Valid()
      ensures edges == ConnectEdges(nodes, old(edges), source, target, edgeId)
    {
      if source == "" || target == "" {
        return;
      }
      var sourceNode := FindNode(nodes, source);
      var targetNode := FindNode(nodes, target);
      if sourceNode.None? || targetNode.None? {
        return;
      }
      edges := edges + [Edge(edgeId, source, target, DefaultEdgeType)];
    }

    /** `onNodeClick`: drives the connect state machine, or toggles the selection when connect mode is off. */
    method OnNodeClick(id: Id, edgeId: Id)
      requires Valid()
      modifies this
      ensures Valid()
      ensures Mode() == ClickMode(old(Mode()), id)
      ensures nodes == old(nodes) && mindMap == old(mindMap)
      ensures edges == match old(Mode())
                       case AwaitingTarget(s) =>
                         if s != id then ConnectEdges(nodes, old(edges), s, id, edgeId) else old(edges)
                       case _ => old(edges)
      ensures selectedNodeId == if old(isConnecting) then old(selectedNodeId)
                                else if old(selectedNodeId) == Some(id) then None else Some(id)
    {
      if isConnecting {
        if !Present(connectingFromNode) {
          connectingFromNode := Some(id);
        } else if connectingFromNode.value != id {
          OnConnect(connectingFromNode.value, id, edgeId);
          connectingFromNode := None;
          isConnecting := false;
        }
      } else {
        selectedNodeId := if selectedNodeId == Some(id) then None else Some(id);
      }
    }

    /** `handleToggleConnect`: flips connect mode and forgets any chosen source. */
    method ToggleConnect()
      requires Valid()
      modifies this`isConnecting, this`connectingFromNode
      ensures Valid()
      ensures isConnecting == !old(isConnecting) && connectingFromNode == None
      ensures Mode() == ToggleMode(old(Mode()))
    {
      isConnecting := !isConnecting;
      connectingFromNode := None;
    }

    /** `handleConnectNode`: enters connect mode with the source already chosen. */
    method ConnectNode(id: Id)
      requires Valid()
      modifies this`isConnecting, this`connectingFromNode
      ensures Valid()
      ensures isConnecting && connectingFromNode == Some(id)
      ensures Mode() == if id != "" then AwaitingTarget(id) else AwaitingSource
    {
      isConnecting := true;
      connectingFromNode := Some(id);
    }

    /** `handleNodeUpdate`: merge the given fields into the nodes with that id and stamp them. */
    method NodeUpdate(id: Id, updates: NodeUpdate, now: string)
      requires Valid()
      modifies this`nodes
      ensures Valid()
      ensures nodes == UpdateNodes(old(nodes), id, updates, now)
    {
      nodes := UpdateNodes(nodes, id, updates, now);
    }

    /** `handleToggleExpanded`. */
    method ToggleExpanded(id: Id)
      requires Valid()
      modifies this`nodes
      ensures Valid()
      ensures nodes == ToggleExpandedNodes(old(nodes), id)
    {
      nodes := ToggleExpandedNodes(nodes, id);
    }

    /** `handleAddNode`: a new node, its id in the anchor's `children`, a tree edge, and the new node selected. */
    method AddNode(parentId: Option<Id>, newId: Id, edgeId: Id, now: string, palette: seq<string>)
      requires Valid() && |palette| > 0
      modifies this`nodes, this`edges, this`selectedNodeId
      ensures Valid()
      ensures var n := NewChildNode(old(nodes), parentId, newId, now, palette);
        nodes == AddNodeNodes(old(nodes), parentId, n) && n.id == newId
      ensures edges == AddNodeEdges(old(nodes), old(edges), parentId, newId, edgeId)
      ensures selectedNodeId == Some(newId)
    {
      var newNode := NewChildNode(nodes, parentId, newId, now, palette);
      var anchor := AnchorId(nodes, parentId);
      var updated := nodes + [newNode];
      if anchor.Some? {
        updated := AppendChild(updated, anchor.value, newNode.id);
        edges := edges + [Edge(edgeId, anchor.value, newNode.id, DefaultEdgeType)];
      }
      nodes := updated;
      selectedNodeId := Some(newNode.id);
    }

    /**
     * `handleDeleteNode`: nothing for a missing id or a root; otherwise remove
     * the node with its descendants, their edges and their ids in `children`,
     * and clear the selection if it was this node.
     */
    method DeleteNode(id: Id)
      requires Valid()
      modifies this`nodes, this`edges, this`selectedNodeId
      ensures Valid()
      ensures var target := FindNode(old(nodes), id);
        if target.None? || target.value.data.isRoot then
          nodes == old(nodes) && edges == old(edges) && selectedNodeId == old(selectedNodeId)
        else
          && nodes == DeleteNodes(old(nodes), Descendants(old(nodes), id))
          && edges == EdgesAvoiding(old(edges), Descendants(old(nodes), id))
          && selectedNodeId == if old(selectedNodeId) == Some(id) then None else old(selectedNodeId)
    {
      var target := FindNode(nodes, id);
      if target.None? || target.value.data.isRoot {
        return;
      }
      var doomed := CollectDescendants(nodes, id);
      nodes := DeleteNodes(nodes, doomed);
      edges := EdgesAvoiding(edges, doomed);
      if selectedNodeId == Some(id) {
        selectedNodeId := None;
      }
    }

    /** `handleDuplicateNode`: append a childless, non-root copy and select it; a missing id does nothing. */
    method DuplicateNode(id: Id, newId: Id, now: string)
      requires Valid()
      modifies this`nodes, this`selectedNodeId
      ensures Valid()
      ensures nodes == DuplicateNodes(old(nodes), id, newId, now)
      ensures selectedNodeId == if id in NodeIds(old(nodes)) then Some(newId) else old(selectedNodeId)
    {
      var original := FindNode(nodes, id);
      if original.None? {
        return;
      }
      nodes := nodes + [DuplicateOf(original.value, newId, now)];
      selectedNodeId := Some(newId);
    }

    /** `handleSave`: nothing without a map, else the map with the live nodes and edges, stamped `now`. */
    method Save(now: string) returns (saved: Option<MindMap>)
      ensures mindMap.None? ==> saved.None?
      ensures mindMap.Some? ==> saved == Some(SaveMap(mindMap.value, nodes, edges, now))
    {
      if mindMap.None? {
        return None;
      }
      saved := Some(SaveMap(mindMap.value, nodes, edges, now));
    }
  }

  /**
   * The connection round trip on a canvas: toggle connect mode on, click an
   * existing node `a`, click a different existing node `b`: exactly one edge
   * `a` to `b` is added and connect mode is off again.
   */
  method ConnectTwoNodes(c: Canvas, a: Id, b: Id, edgeId: Id, unusedEdgeId: Id)
    requires c.Valid() && c.Mode() == Idle
    requires a != "" && b != "" && a != b
    requires a in NodeIds(c.nodes) && b in NodeIds(c.nodes)
    modifies c
    ensures c.Valid() && c.Mode() == Idle
    ensures c.edges == old(c.edges) + [Edge(edgeId, a, b, DefaultEdgeType)]
    ensures c.nodes == old(c.nodes)
  {
    c.ToggleConnect();
    c.OnNodeClick(a, unusedEdgeId);
    c.OnNodeClick(b, edgeId);
  }

  /**
   * Whatever the canvas holds, saving and loading it back gives the same edges,
   * and the same nodes when none of them has a falsy field.
   */
  method SaveThenLoad(c: Canvas, now: string) returns (reloaded: Canvas)
    requires c.Valid() && c.mindMap.Some?
    requires forall i :: 0 <= i < |c.nodes| ==> Normalised(c.nodes[i])
    ensures reloaded.edges == c.edges && reloaded.nodes == c.nodes
  {
    var saved := c.Save(now);
    reloaded := new Canvas(saved);
    LoadAfterSave(c.mindMap.value, c.nodes, c.edges, now);
  }
}
