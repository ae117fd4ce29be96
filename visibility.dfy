/**
 * Lookup, reachability through `children`, and the two depth-first traversals of
 * src/modules/onemap/components/OneMapCanvas.tsx: the one behind `visibleNodes`
 * (which only descends into expanded nodes) and the one collecting the nodes a
 * delete removes (which descends into every node).
 */
module Visibility {
  import opened Wrappers
  import opened MindMapData

  /** The ids of the nodes in a list. */
  function NodeIds(nodes: seq<MapNode>): set<Id> {
    set n | n in nodes :: n.id
  }

  /** `nodes.find(n => n.id === id)`. */
  function FindNode(nodes: seq<MapNode>, id: Id): (r: Option<MapNode>)
    ensures r.Some? ==> r.value in nodes && r.value.id == id
    ensures r.None? <==> id !in NodeIds(nodes)
  {
    if |nodes| == 0 then None
    else if nodes[0].id == id then Some(nodes[0])
    else FindNode(nodes[1..], id)
  }

  /** The node found is the first in the list with that id. */
  lemma {:induction false} FindNodeIsFirst(nodes: seq<MapNode>, id: Id)
    requires id in NodeIds(nodes)
    ensures exists k :: 0 <= k < |nodes| && nodes[k] == FindNode(nodes, id).value &&
                        forall j :: 0 <= j < k ==> nodes[j].id != id
  {
    if nodes[0].id == id {
      assert nodes[0] == FindNode(nodes, id).value;
    } else {
      assert nodes == [nodes[0]] + nodes[1..];
      FindNodeIsFirst(nodes[1..], id);
      var k :| 0 <= k < |nodes| - 1 && nodes[1..][k] == FindNode(nodes[1..], id).value
        && forall j :: 0 <= j < k ==> nodes[1..][j].id != id;
      assert nodes[k + 1] == FindNode(nodes, id).value;
    }
  }

  /** `nodes.find(n => n.data.isRoot)`. */
  function FindRoot(nodes: seq<MapNode>): (r: Option<MapNode>)
    ensures r.Some? ==> r.value in nodes && r.value.data.isRoot
    ensures r.None? <==> forall n :: n in nodes ==> !n.data.isRoot
  {
    if |nodes| == 0 then None
    else if nodes[0].data.isRoot then Some(nodes[0])
    else FindRoot(nodes[1..])
  }

  /** The root found is the first root in the list, which decides visibility when a map holds several. */
  lemma {:induction false} FindRootIsFirst(nodes: seq<MapNode>)
    requires FindRoot(nodes).Some?
    ensures exists k :: 0 <= k < |nodes| && nodes[k] == FindRoot(nodes).value &&
                        forall j :: 0 <= j < k ==> !nodes[j].data.isRoot
  {
    if nodes[0].data.isRoot {
      assert nodes[0] == FindRoot(nodes).value;
    } else {
      FindRootIsFirst(nodes[1..]);
      var k :| 0 <= k < |nodes| - 1 && nodes[1..][k] == FindRoot(nodes[1..]).value
        && forall j :: 0 <= j < k ==> !nodes[1..][j].data.isRoot;
      assert nodes[k + 1] == FindRoot(nodes).value;
    }
  }

  /**
   * The ids a traversal steps to from `a`: the children of the node with that id,
   * and, when `expandedOnly` holds, only if that node is expanded.
   */
  function Succ(nodes: seq<MapNode>, a: Id, expandedOnly: bool): seq<Id> {
    match FindNode(nodes, a)
    case None => []
    case Some(n) => if !expandedOnly || n.data.isExpanded then n.data.children else []
  }

  /** A walk along `Succ`. */
  ghost predicate IsPath(nodes: seq<MapNode>, expandedOnly: bool, p: seq<Id>) {
    |p| > 0 && forall i :: 0 <= i < |p| - 1 ==> p[i + 1] in Succ(nodes, p[i], expandedOnly)
  }

  ghost predicate Reachable(nodes: seq<MapNode>, expandedOnly: bool, from: Id, to: Id) {
    exists p :: IsPath(nodes, expandedOnly, p) && p[0] == from && p[|p| - 1] == to
  }

  /** Every id a walk from `from` can reach lies in this finite set. */
  function Universe(nodes: seq<MapNode>, from: Id): set<Id> {
    {from} + NodeIds(nodes) + (set n, c | n in nodes && c in n.data.children :: c)
  }

  /** The ids reachable from `from`, including ids no node carries. */
  ghost function ReachableSet(nodes: seq<MapNode>, expandedOnly: bool, from: Id): set<Id> {
    set x | x in Universe(nodes, from) && Reachable(nodes, expandedOnly, from, x)
  }

  /** A set that contains every `Succ` of its members. */
  ghost predicate Closed(nodes: seq<MapNode>, expandedOnly: bool, s: set<Id>) {
    forall x, c :: x in s && c in Succ(nodes, x, expandedOnly) ==> c in s
  }

  predicate Distinct(s: seq<Id>) {
    forall i, j :: 0 <= i < j < |s| ==> s[i] != s[j]
  }

  predicate UniqueIds(nodes: seq<MapNode>) {
    forall i, j :: 0 <= i < j < |nodes| ==> nodes[i].id != nodes[j].id
  }

  lemma ReachRefl(nodes: seq<MapNode>, expandedOnly: bool, a: Id)
    ensures Reachable(nodes, expandedOnly, a, a)
  {
    assert IsPath(nodes, expandedOnly, [a]);
  }

  /** One step followed by a walk is a walk. */
  lemma ReachStep(nodes: seq<MapNode>, expandedOnly: bool, a: Id, c: Id, x: Id)
    requires c in Succ(nodes, a, expandedOnly)
    requires Reachable(nodes, expandedOnly, c, x)
    ensures Reachable(nodes, expandedOnly, a, x)
  {
    var p :| IsPath(nodes, expandedOnly, p) && p[0] == c && p[|p| - 1] == x;
    var q := [a] + p;
    forall i | 0 <= i < |q| - 1 ensures q[i + 1] in Succ(nodes, q[i], expandedOnly) {
      if i > 0 { assert q[i + 1] == p[i] && q[i] == p[i - 1]; }
    }
    assert IsPath(nodes, expandedOnly, q);
  }

  /** A set closed under `Succ` that holds the start holds everything reachable from it. */
  lemma {:induction false} ClosedHoldsReachable(nodes: seq<MapNode>, expandedOnly: bool, s: set<Id>, from: Id, to: Id)
    requires Closed(nodes, expandedOnly, s) && from in s
    requires Reachable(nodes, expandedOnly, from, to)
    ensures to in s
  {
    var p :| IsPath(nodes, expandedOnly, p) && p[0] == from && p[|p| - 1] == to;
    var k := 0;
    while k < |p| - 1
      invariant 0 <= k <= |p| - 1
      invariant p[k] in s
    {
      assert p[k + 1] in Succ(nodes, p[k], expandedOnly);
      k := k + 1;
    }
  }

  lemma ReachableInUniverse(nodes: seq<MapNode>, expandedOnly: bool, from: Id, x: Id)
    requires Reachable(nodes, expandedOnly, from, x)
    ensures x in Universe(nodes, from)
  {
    if x != from {
      ReachedIsChild(nodes, expandedOnly, from, x);
    }
  }

  /** Anything reachable other than the start is named in some node's `children`. */
  lemma ReachedIsChild(nodes: seq<MapNode>, expandedOnly: bool, from: Id, x: Id)
    requires Reachable(nodes, expandedOnly, from, x) && x != from
    ensures exists n :: n in nodes && x in n.data.children
  {
    var p :| IsPath(nodes, expandedOnly, p) && p[0] == from && p[|p| - 1] == x;
    var k := |p| - 2;
    assert x in Succ(nodes, p[k], expandedOnly);
    var n := FindNode(nodes, p[k]).value;
    assert n in nodes && x in n.data.children;
  }

  /** Membership in `ReachableSet` is reachability. */
  lemma InReachableSet(nodes: seq<MapNode>, expandedOnly: bool, from: Id, x: Id)
    ensures x in ReachableSet(nodes, expandedOnly, from) <==> Reachable(nodes, expandedOnly, from, x)
  {
    if Reachable(nodes, expandedOnly, from, x) {
      ReachableInUniverse(nodes, expandedOnly, from, x);
    }
  }

  /**
   * A walk that only descends into expanded nodes is a walk through `children`
   * every node of which, except the last, is an existing expanded node.
   */
  lemma ExpandedPathCharacterisation(nodes: seq<MapNode>, p: seq<Id>)
    ensures IsPath(nodes, true, p) <==>
      IsPath(nodes, false, p) &&
      forall i :: 0 <= i < |p| - 1 ==> FindNode(nodes, p[i]).Some? && FindNode(nodes, p[i]).value.data.isExpanded
  {
    if IsPath(nodes, true, p) {
      forall i | 0 <= i < |p| - 1
        ensures p[i + 1] in Succ(nodes, p[i], false) && FindNode(nodes, p[i]).Some? && FindNode(nodes, p[i]).value.data.isExpanded
      {
        assert p[i + 1] in Succ(nodes, p[i], true);
      }
    }
  }

  lemma DistinctConcat(a: seq<Id>, b: seq<Id>)
    requires Distinct(a) && Distinct(b)
    requires forall x :: x in a ==> x !in b
    ensures Distinct(a + b)
  {
    forall i, j | 0 <= i < j < |a + b| ensures (a + b)[i] != (a + b)[j] {
      if j >= |a| && i < |a| {
        assert (a + b)[j] == b[j - |a|] && b[j - |a|] in b;
      } else if i >= |a| {
        assert (a + b)[i] == b[i - |a|] && (a + b)[j] == b[j - |a|];
      }
    }
  }

  /**
   * `getVisibleNodeIds(nodeId, visited)`: a depth-first walk that records each id
   * once (the `visited` set is threaded through the calls, as the source shares
   * one mutable set), lists the ids of existing nodes in visiting order, and
   * descends only into expanded nodes. Everything it adds to `visited` is
   * reachable from `id`, and everything it adds has all its successors in the
   * final `visited`.
   */
  method VisibleIdsFrom(nodes: seq<MapNode>, id: Id, visited: set<Id>) returns (result: seq<Id>, visited': set<Id>)
    ensures visited <= visited' && id in visited'
    ensures forall x :: x in visited' - visited ==> Reachable(nodes, true, id, x)
    ensures forall x, c :: x in visited' - visited && c in Succ(nodes, x, true) ==> c in visited'
    ensures forall x :: x in result <==> x in visited' - visited && x in NodeIds(nodes)
    ensures Distinct(result)
    decreases NodeIds(nodes) - visited
  {
    if id in visited {
      return [], visited;
    }
    visited' := visited + {id};
    ReachRefl(nodes, true, id);
    var node := FindNode(nodes, id);
    if node.None? {
      return [], visited';
    }
    result := [id];
    if node.value.data.isExpanded {
      var children := node.value.data.children;
      assert Succ(nodes, id, true) == children;
      ghost var ids := NodeIds(nodes);
      var i := 0;
      while i < |children|
        invariant 0 <= i <= |children|
        invariant visited + {id} <= visited'
        invariant forall k :: 0 <= k < i ==> children[k] in visited'
        invariant forall x :: x in visited' - visited ==> Reachable(nodes, true, id, x)
        invariant forall x, c :: x in visited' - visited && x != id && c in Succ(nodes, x, true) ==> c in visited'
        invariant forall x :: x in result <==> x in visited' - visited && x in NodeIds(nodes)
        invariant Distinct(result)
      {
        assert ids - visited' < ids - visited by {
          assert id in ids - visited && id !in ids - visited';
        }
        var sub, visitedNext := VisibleIdsFrom(nodes, children[i], visited');
        forall x | x in visitedNext - visited' ensures Reachable(nodes, true, id, x) {
          ReachStep(nodes, true, id, children[i], x);
        }
        DistinctConcat(result, sub);
        result := result + sub;
        visited' := visitedNext;
        i := i + 1;
      }
    }
  }

  /**
   * `collectNodesToDelete(nodeId)` with the visited check the source lacks: adds
   * `id`, then, when a node with that id exists, walks all of its children
   * whether expanded or not. Ids of children that no node carries are added too.
   */
  method CollectNodesToDelete(nodes: seq<MapNode>, id: Id, visited: set<Id>) returns (visited': set<Id>)
    ensures visited <= visited' && id in visited'
    ensures forall x :: x in visited' - visited ==> Reachable(nodes, false, id, x)
    ensures forall x, c :: x in visited' - visited && c in Succ(nodes, x, false) ==> c in visited'
    decreases NodeIds(nodes) - visited
  {
    if id in visited {
      return visited;
    }
    visited' := visited + {id};
    ReachRefl(nodes, false, id);
    var node := FindNode(nodes, id);
    if node.Some? {
      var children := node.value.data.children;
      assert Succ(nodes, id, false) == children;
      ghost var ids := NodeIds(nodes);
      var i := 0;
      while i < |children|
        invariant 0 <= i <= |children|
        invariant visited + {id} <= visited'
        invariant forall k :: 0 <= k < i ==> children[k] in visited'
        invariant forall x :: x in visited' - visited ==> Reachable(nodes, false, id, x)
        invariant forall x, c :: x in visited' - visited && x != id && c in Succ(nodes, x, false) ==> c in visited'
      {
        assert ids - visited' < ids - visited by {
          assert id in ids - visited && id !in ids - visited';
        }
        var visitedNext := CollectNodesToDelete(nodes, children[i], visited');
        forall x | x in visitedNext - visited' ensures Reachable(nodes, false, id, x) {
          ReachStep(nodes, false, id, children[i], x);
        }
        visited' := visitedNext;
        i := i + 1;
      }
    }
  }

  /** The ids a delete of `id` removes: `id` and everything below it through `children`. */
  ghost function Descendants(nodes: seq<MapNode>, id: Id): set<Id> {
    ReachableSet(nodes, false, id)
  }

  /** The traversal started with an empty `visited` set collects exactly `Descendants`. */
  method CollectDescendants(nodes: seq<MapNode>, id: Id) returns (doomed: set<Id>)
    ensures doomed == Descendants(nodes, id)
  {
    doomed := CollectNodesToDelete(nodes, id, {});
    forall x ensures x in doomed <==> x in Descendants(nodes, id) {
      InReachableSet(nodes, false, id, x);
      if Reachable(nodes, false, id, x) {
        ClosedHoldsReachable(nodes, false, doomed, id, x);
      }
    }
  }

  /** `nodes.filter(node => ids.has(node.id))`. */
  function KeepIds(nodes: seq<MapNode>, ids: set<Id>): (r: seq<MapNode>)
    ensures forall n :: n in r <==> n in nodes && n.id in ids
    ensures |r| <= |nodes|
  {
    if |nodes| == 0 then []
    else (if nodes[0].id in ids then [nodes[0]] else []) + KeepIds(nodes[1..], ids)
  }

  /** The filter keeps the original order: it distributes over concatenation. */
  lemma {:induction false} KeepIdsConcat(a: seq<MapNode>, b: seq<MapNode>, ids: set<Id>)
    ensures KeepIds(a + b, ids) == KeepIds(a, ids) + KeepIds(b, ids)
  {
    if |a| > 0 {
      assert (a + b)[1..] == a[1..] + b;
      KeepIdsConcat(a[1..], b, ids);
    } else {
      assert a + b == b;
    }
  }

  /** The filter introduces no duplicate ids. */
  lemma {:induction false} KeepIdsUnique(nodes: seq<MapNode>, ids: set<Id>)
    requires UniqueIds(nodes)
    ensures UniqueIds(KeepIds(nodes, ids))
  {
    if |nodes| > 0 {
      KeepIdsUnique(nodes[1..], ids);
      var rest := KeepIds(nodes[1..], ids);
      forall n | n in rest ensures n.id != nodes[0].id {
        var j :| 0 <= j < |nodes[1..]| && nodes[1..][j] == n;
        assert nodes[j + 1] == n;
      }
    }
  }

  /** Two id sets that agree on the listed nodes filter them alike. */
  lemma {:induction false} KeepIdsAgree(nodes: seq<MapNode>, s: set<Id>, t: set<Id>)
    requires forall n :: n in nodes ==> (n.id in s <==> n.id in t)
    ensures KeepIds(nodes, s) == KeepIds(nodes, t)
  {
    if |nodes| > 0 {
      assert nodes[0] in nodes;
      forall n | n in nodes[1..] ensures n in nodes { }
      KeepIdsAgree(nodes[1..], s, t);
    }
  }

  /**
   * What the canvas renders: every node when there is no root, otherwise the
   * nodes whose id is reachable from the root's id by walking the children of
   * expanded nodes, in the original order.
   */
  ghost function VisibleSpec(nodes: seq<MapNode>): seq<MapNode> {
    match FindRoot(nodes)
    case None => nodes
    case Some(root) => KeepIds(nodes, ReachableSet(nodes, true, root.id))
  }

  /** `visibleNodes`: walk from the root, turn the walk into a set, filter the node list. */
  method VisibleNodes(nodes: seq<MapNode>) returns (visible: seq<MapNode>)
    ensures visible == VisibleSpec(nodes)
  {
    if |nodes| == 0 {
      return [];
    }
    var root := FindRoot(nodes);
    if root.None? {
      return nodes;
    }
    var ids, visited := VisibleIdsFrom(nodes, root.value.id, {});
    var idSet := set x | x in ids;
    visible := KeepIds(nodes, idSet);
    forall n | n in nodes ensures n.id in idSet <==> n.id in ReachableSet(nodes, true, root.value.id) {
      InReachableSet(nodes, true, root.value.id, n.id);
      if Reachable(nodes, true, root.value.id, n.id) {
        ClosedHoldsReachable(nodes, true, visited, root.value.id, n.id);
      }
    }
    KeepIdsAgree(nodes, idSet, ReachableSet(nodes, true, root.value.id));
  }

  /** A node is visible iff there is no root, or it is reachable from the root through expanded nodes. */
  lemma VisibleMembership(nodes: seq<MapNode>, n: MapNode)
    ensures n in VisibleSpec(nodes) <==>
      n in nodes && (FindRoot(nodes).None? || Reachable(nodes, true, FindRoot(nodes).value.id, n.id))
  {
    if FindRoot(nodes).Some? {
      InReachableSet(nodes, true, FindRoot(nodes).value.id, n.id);
    }
  }

  /** The root itself is always visible. */
  lemma RootVisible(nodes: seq<MapNode>)
    requires FindRoot(nodes).Some?
    ensures FindRoot(nodes).value in VisibleSpec(nodes)
  {
    var root := FindRoot(nodes).value;
    ReachRefl(nodes, true, root.id);
    VisibleMembership(nodes, root);
  }

  /**
   * Collapsing hides a subtree: when every walk through `children` from the
   * root to `x` passes through `p` before its end, and `p` is collapsed, no node
   * with id `x` is visible, whatever `x`'s own expansion flag says.
   */
  lemma CollapsedHidesDescendants(nodes: seq<MapNode>, p: Id, x: Id)
    requires FindRoot(nodes).Some?
    requires FindNode(nodes, p).Some? && !FindNode(nodes, p).value.data.isExpanded
    requires forall q :: IsPath(nodes, false, q) && q[0] == FindRoot(nodes).value.id && q[|q| - 1] == x ==>
               p in q[..|q| - 1]
    ensures forall n :: n in VisibleSpec(nodes) ==> n.id != x
  {
    var rootId := FindRoot(nodes).value.id;
    forall n | n in VisibleSpec(nodes) ensures n.id != x {
      VisibleMembership(nodes, n);
      if n.id == x {
        var q :| IsPath(nodes, true, q) && q[0] == rootId && q[|q| - 1] == x;
        ExpandedPathCharacterisation(nodes, q);
      }
    }
  }

  /** `edges.filter(e => ids.has(e.source) && ids.has(e.target))`. */
  function EdgesWithin(edges: seq<Edge>, ids: set<Id>): (r: seq<Edge>)
    ensures forall e :: e in r <==> e in edges && e.source in ids && e.target in ids
    ensures |r| <= |edges|
  {
    if |edges| == 0 then []
    else (if edges[0].source in ids && edges[0].target in ids then [edges[0]] else []) + EdgesWithin(edges[1..], ids)
  }

  /** `visibleEdges`: an edge is shown iff both of its endpoints are shown. */
  function VisibleEdges(edges: seq<Edge>, visible: seq<MapNode>): (r: seq<Edge>)
    ensures forall e :: e in r <==> e in edges && e.source in NodeIds(visible) && e.target in NodeIds(visible)
  {
    EdgesWithin(edges, NodeIds(visible))
  }
}
