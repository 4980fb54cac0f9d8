/**
 The workflow graph specification and its validator (factory/models/blueprint.py).

 A specification is accepted after a worklist search from the entry and a recursive path
 search per terminal.  Both searches are proved against one definition of reachability:
 the existence of a walk along the edges.
 */
module WorkflowGraph {
  import opened Common

  type NodeId = string

  /** `condition` is `None` or `Some("")` on an unconditional edge. */
  datatype WorkflowEdge = WorkflowEdge(fromNode: NodeId, toNode: NodeId, condition: Option<string>)

  datatype GraphSpec = GraphSpec(nodes: seq<NodeId>, edges: seq<WorkflowEdge>, entry: NodeId, terminals: seq<NodeId>)

  datatype GraphError =
    | DuplicateNodeIds
    | UnknownEntry
    | NoTerminals
    | UnknownTerminal
    | UnknownEdgeEnd
    | DisconnectedNodes(missing: set<NodeId>)
    | TerminalUnreachable

  type Adjacency = map<NodeId, set<NodeId>>

  function AdjacencyOf(ids: set<NodeId>, edges: seq<WorkflowEdge>): Adjacency {
    map n | n in ids :: Successors(edges, n)
  }

  function Successors(edges: seq<WorkflowEdge>, n: NodeId): set<NodeId> {
    set e | e in edges && e.fromNode == n :: e.toNode
  }

  lemma SuccessorsExtend(edges: seq<WorkflowEdge>, i: nat)
    requires i < |edges|
    ensures forall n :: Successors(edges[..i + 1], n)
                        == Successors(edges[..i], n) + (if n == edges[i].fromNode then {edges[i].toNode} else {})
  {
    assert edges[..i + 1] == edges[..i] + [edges[i]];
    forall n
      ensures Successors(edges[..i + 1], n)
              == Successors(edges[..i], n) + (if n == edges[i].fromNode then {edges[i].toNode} else {})
    {
      forall m | m in Successors(edges[..i], n) ensures m in Successors(edges[..i + 1], n) {
        var e :| e in edges[..i] && e.fromNode == n && e.toNode == m;
        assert e in edges[..i + 1];
      }
      assert edges[i] in edges[..i + 1];
    }
  }

  /** Every successor is itself a node. */
  ghost predicate Closed(adj: Adjacency) {
    forall n :: n in adj ==> adj[n] <= adj.Keys
  }

  ghost predicate IsWalk(adj: Adjacency, p: seq<NodeId>) {
    && p != []
    && p[0] in adj
    && forall i :: 0 <= i < |p| - 1 ==> p[i] in adj && p[i + 1] in adj[p[i]]
  }

  ghost predicate Connects(adj: Adjacency, p: seq<NodeId>, a: NodeId, b: NodeId) {
    IsWalk(adj, p) && p[0] == a && p[|p| - 1] == b
  }

  ghost predicate Reachable(adj: Adjacency, a: NodeId, b: NodeId) {
    exists p :: Connects(adj, p, a, b)
  }

  lemma ReachableSelf(adj: Adjacency, a: NodeId)
    requires a in adj
    ensures Reachable(adj, a, a)
  {
    assert Connects(adj, [a], a, a);
  }

  lemma ReachableStep(adj: Adjacency, a: NodeId, b: NodeId, c: NodeId)
    requires Reachable(adj, a, b) && b in adj && c in adj[b]
    ensures Reachable(adj, a, c)
  {
    var p :| Connects(adj, p, a, b);
    assert Connects(adj, p + [c], a, c);
  }

  /** A set that holds the start and is closed under edges holds every reachable node. */
  lemma {:induction false} ClosedSetHoldsWalk(adj: Adjacency, s: set<NodeId>, p: seq<NodeId>)
    requires IsWalk(adj, p) && p[0] in s
    requires forall n :: n in s && n in adj ==> adj[n] <= s
    ensures p[|p| - 1] in s
  {
    if |p| > 1 {
      var front := p[..|p| - 1];
      ClosedSetHoldsWalk(adj, s, front);
      assert p[|p| - 1] in adj[p[|p| - 2]];
    }
  }

  // ----- the worklist search -----

  /** Lists a set in some order: the order in which Python walks a set is not specified. */
  method ListSet(s: set<NodeId>) returns (items: seq<NodeId>)
    ensures Elements(items) == s
  {
    items := [];
    var rest := s;
    while rest != {}
      invariant Elements(items) + rest == s
      decreases rest
    {
      var x :| x in rest;
      items := items + [x];
      rest := rest - {x};
    }
  }

  method CollectReachable(adj: Adjacency, entry: NodeId) returns (visited: set<NodeId>)
    requires Closed(adj) && entry in adj
    ensures visited <= adj.Keys
    ensures forall n :: n in visited <==> Reachable(adj, entry, n)
  {
    visited := {};
    var stack := [entry];
    ReachableSelf(adj, entry);
    while stack != []
      invariant visited <= adj.Keys
      invariant forall n :: n in stack ==> n in adj
      invariant forall n :: n in visited || n in stack ==> Reachable(adj, entry, n)
      invariant entry in visited || entry in stack
      invariant forall n, m :: n in visited && m in adj[n] ==> m in visited || m in stack
      decreases adj.Keys - visited, |stack|
    {
      var nodeId := stack[|stack| - 1];
      ghost var before := stack;
      stack := stack[..|stack| - 1];
      assert before == stack + [nodeId];
      if nodeId in visited {
        continue;
      }
      visited := visited + {nodeId};
      var more := ListSet(adj[nodeId] - visited);
      forall m | m in more ensures m in adj && Reachable(adj, entry, m) {
        assert m in Elements(more);
        ReachableStep(adj, entry, nodeId, m);
      }
      forall m | m in adj[nodeId] ensures m in visited || m in more {
        assert m in visited || m in Elements(more);
      }
      stack := stack + more;
    }
    forall n | Reachable(adj, entry, n) ensures n in visited {
      var p :| Connects(adj, p, entry, n);
      ClosedSetHoldsWalk(adj, visited, p);
    }
  }

  // ----- the recursive path search -----

  /** `_can_reach_terminal`: `seen` holds the nodes on the current path. */
  predicate CanReachTerminal(adj: Adjacency, current: NodeId, target: NodeId, seen: set<NodeId>)
    requires Closed(adj) && current in adj
    decreases adj.Keys - seen
  {
    if current == target then true
    else if current in seen then false
    else exists next :: next in adj[current] && CanReachTerminal(adj, next, target, seen + {current})
  }

  /** A walk to `b` from `a` whose nodes before the last one stay out of `seen`. */
  ghost predicate Avoids(adj: Adjacency, p: seq<NodeId>, a: NodeId, b: NodeId, seen: set<NodeId>) {
    Connects(adj, p, a, b) && forall i :: 0 <= i < |p| - 1 ==> p[i] !in seen
  }

  lemma {:induction false} CanReachGivesWalk(adj: Adjacency, current: NodeId, target: NodeId, seen: set<NodeId>)
    returns (p: seq<NodeId>)
    requires Closed(adj) && current in adj
    requires CanReachTerminal(adj, current, target, seen)
    ensures Avoids(adj, p, current, target, seen)
    decreases adj.Keys - seen
  {
    if current == target {
      p := [current];
    } else {
      var next :| next in adj[current] && CanReachTerminal(adj, next, target, seen + {current});
      var q := CanReachGivesWalk(adj, next, target, seen + {current});
      p := [current] + q;
    }
  }

  /** Cutting a walk at the last visit of its start leaves the start only at the front. */
  lemma {:induction false} CutToLastVisit(adj: Adjacency, p: seq<NodeId>, a: NodeId, b: NodeId, seen: set<NodeId>)
    returns (q: seq<NodeId>)
    requires Avoids(adj, p, a, b, seen) && a != b
    ensures Avoids(adj, q, a, b, seen) && |q| >= 2
    ensures forall i :: 1 <= i < |q| ==> q[i] != a
    decreases |p|
  {
    if i :| 1 <= i < |p| && p[i] == a {
      var rest := p[i..];
      assert rest[|rest| - 1] == b;
      q := CutToLastVisit(adj, rest, a, b, seen);
    } else {
      q := p;
    }
  }

  lemma {:induction false} WalkGivesCanReach(adj: Adjacency, p: seq<NodeId>, current: NodeId, target: NodeId, seen: set<NodeId>)
    requires Closed(adj) && current in adj
    requires Avoids(adj, p, current, target, seen)
    ensures CanReachTerminal(adj, current, target, seen)
    decreases adj.Keys - seen
  {
    if current != target {
      var q := CutToLastVisit(adj, p, current, target, seen);
      var tail := q[1..];
      assert q[1] in adj[q[0]];
      assert Avoids(adj, tail, tail[0], target, seen + {current});
      WalkGivesCanReach(adj, tail, tail[0], target, seen + {current});
    }
  }

  /** The recursive search finds a target exactly when a walk exists: cutting cycles loses nothing. */
  lemma CanReachTerminalIsReachability(adj: Adjacency, a: NodeId, target: NodeId)
    requires Closed(adj) && a in adj
    ensures CanReachTerminal(adj, a, target, {}) <==> Reachable(adj, a, target)
  {
    if CanReachTerminal(adj, a, target, {}) {
      var p := CanReachGivesWalk(adj, a, target, {});
    }
    if Reachable(adj, a, target) {
      var p :| Connects(adj, p, a, target);
      WalkGivesCanReach(adj, p, a, target, {});
    }
  }

  // ----- the validator -----

  ghost predicate EntryKnown(spec: GraphSpec) {
    spec.entry in spec.nodes
  }

  ghost predicate TerminalsKnown(spec: GraphSpec) {
    forall t :: t in spec.terminals ==> t in spec.nodes
  }

  ghost predicate EdgesKnown(spec: GraphSpec) {
    forall e :: e in spec.edges ==> e.fromNode in spec.nodes && e.toNode in spec.nodes
  }

  function SpecAdjacency(spec: GraphSpec): Adjacency {
    AdjacencyOf(Elements(spec.nodes), spec.edges)
  }

  ghost function Unreached(spec: GraphSpec): set<NodeId> {
    set n | n in spec.nodes && !Reachable(SpecAdjacency(spec), spec.entry, n)
  }

  ghost predicate Shaped(spec: GraphSpec) {
    && Distinct(spec.nodes)
    && EntryKnown(spec)
    && spec.terminals != []
    && TerminalsKnown(spec)
    && EdgesKnown(spec)
  }

  /** What a validated specification guarantees to the code that runs it. */
  ghost predicate WellFormed(spec: GraphSpec) {
    Shaped(spec) && Unreached(spec) == {}
  }

  lemma ShapedIsClosed(spec: GraphSpec)
    requires EdgesKnown(spec)
    ensures Closed(SpecAdjacency(spec))
  {
    var adj := SpecAdjacency(spec);
    forall n, m | n in adj && m in adj[n] ensures m in adj {
      var e :| e in spec.edges && e.fromNode == n && e.toNode == m;
    }
  }

  method BuildAdjacency(ids: set<NodeId>, edges: seq<WorkflowEdge>) returns (adj: Adjacency)
    requires forall e :: e in edges ==> e.fromNode in ids
    ensures adj == AdjacencyOf(ids, edges)
  {
    adj := map n | n in ids :: {};
    for i := 0 to |edges|
      invariant adj.Keys == ids
      invariant forall n :: n in ids ==> adj[n] == Successors(edges[..i], n)
    {
      SuccessorsExtend(edges, i);
      adj := adj[edges[i].fromNode := adj[edges[i].fromNode] + {edges[i].toNode}];
    }
    assert edges[..|edges|] == edges;
  }

  /**
   Each error is reported exactly when its own check is the first to fail; the disconnected
   nodes reported are exactly the unreachable ones; and the final terminal check never fails,
   because connectivity already reaches every terminal.
   */
  method ValidateGraph(spec: GraphSpec) returns (r: Result<GraphSpec, GraphError>)
    ensures r.Ok? <==> WellFormed(spec)
    ensures r.Ok? ==> r.value == spec
    ensures r == Err(DuplicateNodeIds) <==> !Distinct(spec.nodes)
    ensures r == Err(UnknownEntry) <==> Distinct(spec.nodes) && !EntryKnown(spec)
    ensures r == Err(NoTerminals) <==> Distinct(spec.nodes) && EntryKnown(spec) && spec.terminals == []
    ensures r == Err(UnknownTerminal) <==>
      Distinct(spec.nodes) && EntryKnown(spec) && spec.terminals != [] && !TerminalsKnown(spec)
    ensures r == Err(UnknownEdgeEnd) <==>
      Distinct(spec.nodes) && EntryKnown(spec) && spec.terminals != [] && TerminalsKnown(spec) && !EdgesKnown(spec)
    ensures r.Err? && r.error.DisconnectedNodes? <==> Shaped(spec) && Unreached(spec) != {}
    ensures r.Err? && r.error.DisconnectedNodes? ==> r.error.missing == Unreached(spec)
    ensures r != Err(TerminalUnreachable)
  {
    var ids := Elements(spec.nodes);
    SizeTestsDistinct(spec.nodes);
    if |spec.nodes| != |ids| {
      return Err(DuplicateNodeIds);
    }
    if spec.entry !in ids {
      return Err(UnknownEntry);
    }
    if spec.terminals == [] {
      return Err(NoTerminals);
    }
    if exists t :: t in spec.terminals && t !in ids {
      return Err(UnknownTerminal);
    }
    for i := 0 to |spec.edges|
      invariant forall e :: e in spec.edges[..i] ==> e.fromNode in ids && e.toNode in ids
    {
      var edge := spec.edges[i];
      if edge.fromNode !in ids || edge.toNode !in ids {
        assert !EdgesKnown(spec);
        return Err(UnknownEdgeEnd);
      }
    }
    var adj := BuildAdjacency(ids, spec.edges);
    ShapedIsClosed(spec);
    var visited := CollectReachable(adj, spec.entry);
    assert Unreached(spec) == ids - visited;
    assert ids == visited + (ids - visited);
    if visited != ids {
      return Err(DisconnectedNodes(ids - visited));
    }
    assert spec.terminals[0] in visited;
    CanReachTerminalIsReachability(adj, spec.entry, spec.terminals[0]);
    if !exists t :: t in spec.terminals && CanReachTerminal(adj, spec.entry, t, {}) {
      return Err(TerminalUnreachable);
    }
    r := Ok(spec);
  }
}
