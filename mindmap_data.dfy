/**
 * The node and edge records of a mind map, the defaulting pass applied when a
 * map is loaded into the canvas, and the mapping applied when the canvas saves
 * it back (src/modules/onemap/components/OneMapCanvas.tsx).
 */
module MindMapData {
  import opened Wrappers

  /** Node and edge ids are opaque strings. */
  type Id = string

  /** Canvas coordinates; the source uses JavaScript numbers, modelled as integers. */
  datatype Position = Position(x: int, y: int)

  /** The data a live node carries on the canvas. */
  datatype NodeData = NodeData(
    text: string,
    backgroundColor: string,
    color: string,
    fontSize: int,
    fontWeight: string,
    isRoot: bool,
    parentId: Option<Id>,
    children: seq<Id>,
    isExpanded: bool,
    createdAt: string,
    updatedAt: string)

  datatype MapNode = MapNode(id: Id, position: Position, data: NodeData)

  /** A live edge; its animation flag and stroke style are constants and not modelled. */
  datatype Edge = Edge(id: Id, source: Id, target: Id, edgeType: string)

  /**
   * A node as it comes out of a stored map: the text and style strings may be
   * empty (falsy), the font size may be 0 (falsy), and `children`,
   * `isExpanded` and `position` may be missing.
   */
  datatype RawNodeData = RawNodeData(
    text: string,
    backgroundColor: string,
    color: string,
    fontSize: int,
    fontWeight: string,
    isRoot: bool,
    parentId: Option<Id>,
    children: Option<seq<Id>>,
    isExpanded: Option<bool>,
    createdAt: string,
    updatedAt: string)

  datatype RawNode = RawNode(id: Id, position: Option<Position>, data: RawNodeData)

  /** A stored connection; an empty `connType` stands for a missing type. */
  datatype Connection = Connection(id: Id, source: Id, target: Id, connType: string, thickness: Option<int>)

  /** A stored mind map. */
  datatype MindMap = MindMap(id: Id, name: string, nodes: seq<RawNode>, connections: seq<Connection>, updatedAt: string)

  const DefaultText: string := "Novo Nó"
  const DefaultBackground: string := "#3B82F6"
  const DefaultColor: string := "#FFFFFF"
  const DefaultFontSize: int := 14
  const DefaultFontWeight: string := "normal"
  const DefaultPosition: Position := Position(400, 300)
  const DefaultEdgeType: string := "smoothstep"
  /** The `thickness` written on every saved connection. */
  const SavedThickness: int := 1

  /** JavaScript's `s || d` on a string. */
  function OrDefault(s: string, d: string): string {
    if s == "" then d else s
  }

  /** A node none of whose defaulted fields is falsy. */
  predicate Normalised(n: MapNode) {
    && n.data.text != ""
    && n.data.backgroundColor != ""
    && n.data.color != ""
    && n.data.fontSize != 0
    && n.data.fontWeight != ""
  }

  /** The defaulting pass every stored node goes through when a map is loaded. */
  function NormaliseNode(raw: RawNode): (n: MapNode)
    ensures Normalised(n)
    ensures n.id == raw.id && n.data.isRoot == raw.data.isRoot && n.data.parentId == raw.data.parentId
    ensures n.data.createdAt == raw.data.createdAt && n.data.updatedAt == raw.data.updatedAt
    // a field that is present and truthy is kept
    ensures raw.data.text != "" ==> n.data.text == raw.data.text
    ensures raw.data.backgroundColor != "" ==> n.data.backgroundColor == raw.data.backgroundColor
    ensures raw.data.color != "" ==> n.data.color == raw.data.color
    ensures raw.data.fontSize != 0 ==> n.data.fontSize == raw.data.fontSize
    ensures raw.data.fontWeight != "" ==> n.data.fontWeight == raw.data.fontWeight
    ensures raw.data.children.Some? ==> n.data.children == raw.data.children.value
    ensures raw.position.Some? ==> n.position == raw.position.value
    // `!== undefined`: an explicit false survives, only a missing flag becomes true
    ensures raw.data.isExpanded.Some? ==> n.data.isExpanded == raw.data.isExpanded.value
    ensures raw.data.isExpanded.None? ==> n.data.isExpanded
    // a falsy or missing field takes its default
    ensures raw.data.text == "" ==> n.data.text == DefaultText
    ensures raw.data.backgroundColor == "" ==> n.data.backgroundColor == DefaultBackground
    ensures raw.data.color == "" ==> n.data.color == DefaultColor
    ensures raw.data.fontSize == 0 ==> n.data.fontSize == DefaultFontSize
    ensures raw.data.fontWeight == "" ==> n.data.fontWeight == DefaultFontWeight
    ensures raw.data.children.None? ==> n.data.children == []
    ensures raw.position.None? ==> n.position == DefaultPosition
  {
    var d := raw.data;
    MapNode(
      raw.id,
      raw.position.GetOr(DefaultPosition),
      NodeData(
        OrDefault(d.text, DefaultText),
        OrDefault(d.backgroundColor, DefaultBackground),
        OrDefault(d.color, DefaultColor),
        if d.fontSize == 0 then DefaultFontSize else d.fontSize,
        OrDefault(d.fontWeight, DefaultFontWeight),
        d.isRoot,
        d.parentId,
        d.children.GetOr([]),
        d.isExpanded.GetOr(true),
        d.createdAt,
        d.updatedAt))
  }

  /** A live node written out as a stored node, every optional field present. */
  function StoreNode(n: MapNode): RawNode {
    var d := n.data;
    RawNode(n.id, Some(n.position),
      RawNodeData(d.text, d.backgroundColor, d.color, d.fontSize, d.fontWeight, d.isRoot,
                  d.parentId, Some(d.children), Some(d.isExpanded), d.createdAt, d.updatedAt))
  }

  /** The defaulting pass applied to every edge when a map is loaded. */
  function NormaliseEdge(c: Connection): (e: Edge)
    ensures e.id == c.id && e.source == c.source && e.target == c.target
    ensures e.edgeType != ""
    ensures c.connType != "" ==> e.edgeType == c.connType
    ensures c.connType == "" ==> e.edgeType == DefaultEdgeType
  {
    Edge(c.id, c.source, c.target, OrDefault(c.connType, DefaultEdgeType))
  }

  /** The mapping `handleSave` applies to every live edge. */
  function SaveEdge(e: Edge): (c: Connection)
    ensures c.id == e.id && c.source == e.source && c.target == e.target
    ensures c.connType != "" && c.thickness == Some(SavedThickness)
  {
    Connection(e.id, e.source, e.target, OrDefault(e.edgeType, DefaultEdgeType), Some(SavedThickness))
  }

  function LoadNodes(m: MindMap): (ns: seq<MapNode>)
    ensures |ns| == |m.nodes|
    ensures forall i :: 0 <= i < |ns| ==> ns[i] == NormaliseNode(m.nodes[i])
    ensures forall i :: 0 <= i < |ns| ==> Normalised(ns[i]) && ns[i].id == m.nodes[i].id
  {
    seq(|m.nodes|, i requires 0 <= i < |m.nodes| => NormaliseNode(m.nodes[i]))
  }

  function LoadEdges(m: MindMap): (es: seq<Edge>)
    ensures |es| == |m.connections|
    ensures forall i :: 0 <= i < |es| ==> es[i] == NormaliseEdge(m.connections[i])
    ensures forall i :: 0 <= i < |es| ==> es[i].id == m.connections[i].id && es[i].edgeType != ""
  {
    seq(|m.connections|, i requires 0 <= i < |m.connections| => NormaliseEdge(m.connections[i]))
  }

  /** The map `handleSave` hands to its caller: the live nodes and edges, stamped `now`. */
  function SaveMap(m: MindMap, nodes: seq<MapNode>, edges: seq<Edge>, now: string): (r: MindMap)
    ensures r.id == m.id && r.name == m.name && r.updatedAt == now
    ensures |r.nodes| == |nodes| && |r.connections| == |edges|
  {
    m.(nodes := seq(|nodes|, i requires 0 <= i < |nodes| => StoreNode(nodes[i])),
       connections := seq(|edges|, i requires 0 <= i < |edges| => SaveEdge(edges[i])),
       updatedAt := now)
  }

  /** Defaulting a node twice is the same as defaulting it once. */
  lemma NormaliseIdempotent(raw: RawNode)
    ensures NormaliseNode(StoreNode(NormaliseNode(raw))) == NormaliseNode(raw)
  {
    NormalisedNodeIsFixed(NormaliseNode(raw));
  }

  /** A node with no falsy field survives a save and a load unchanged. */
  lemma NormalisedNodeIsFixed(n: MapNode)
    requires Normalised(n)
    ensures NormaliseNode(StoreNode(n)) == n
  {
  }

  /** A saved edge reloads with its id, endpoints and (defaulted) type. */
  lemma EdgeRoundTrip(e: Edge)
    ensures NormaliseEdge(SaveEdge(e)) == e.(edgeType := OrDefault(e.edgeType, DefaultEdgeType))
    ensures e.edgeType != "" ==> NormaliseEdge(SaveEdge(e)) == e
  {
  }

  /**
   * Loading a saved map gives back the canvas's nodes and edges, provided no
   * node has a falsy field and no edge an empty type (what the canvas's own
   * operations and loading produce).
   */
  lemma {:induction false} LoadAfterSave(m: MindMap, nodes: seq<MapNode>, edges: seq<Edge>, now: string)
    requires forall i :: 0 <= i < |nodes| ==> Normalised(nodes[i])
    requires forall i :: 0 <= i < |edges| ==> edges[i].edgeType != ""
    ensures LoadNodes(SaveMap(m, nodes, edges, now)) == nodes
    ensures LoadEdges(SaveMap(m, nodes, edges, now)) == edges
  {
    var saved := SaveMap(m, nodes, edges, now);
    forall i | 0 <= i < |nodes| ensures LoadNodes(saved)[i] == nodes[i] {
      NormalisedNodeIsFixed(nodes[i]);
    }
    forall i | 0 <= i < |edges| ensures LoadEdges(saved)[i] == edges[i] {
      EdgeRoundTrip(edges[i]);
    }
  }

  /** Save then load is idempotent: a second round trip changes nothing. */
  lemma {:induction false} SaveLoadIdempotent(m: MindMap, now: string, later: string)
    ensures var once := SaveMap(m, LoadNodes(m), LoadEdges(m), now);
            var twice := SaveMap(once, LoadNodes(once), LoadEdges(once), later);
            LoadNodes(twice) == LoadNodes(once) && LoadEdges(twice) == LoadEdges(once)
  {
    var once := SaveMap(m, LoadNodes(m), LoadEdges(m), now);
    LoadAfterSave(m, LoadNodes(m), LoadEdges(m), now);
    LoadAfterSave(once, LoadNodes(once), LoadEdges(once), later);
  }
}
