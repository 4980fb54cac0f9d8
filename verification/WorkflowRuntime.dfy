/**
 The two executors of a workflow graph (employee_runtime/workflows/dynamic_builder.py):
 the compiled graph built by `build_graph` and the streaming interpreter `run_streaming`.

 The workflow state, the condition language and the node handlers are parameters, so every
 result holds for all of them.  A handler is given the step number as well as the state,
 which makes the results cover handlers that answer differently each time they are called.
 */
module WorkflowRuntime {
  import opened Common
  import opened WorkflowGraph

  datatype Truth = Holds | Fails | Raises

  /** `parse(c)` is `None` when the condition text is malformed; `run` is `None` when a handler raises. */
  datatype Env<!S> = Env(parse: string -> Option<S -> Truth>, run: (nat, NodeId, S) -> Option<S>)

  const STEP_BUDGET := 50

  // ----- edge selection -----

  predicate IsConditional(e: WorkflowEdge) {
    e.condition.Some? && e.condition.value != ""
  }

  /** The edges leaving `n`, in specification order, that do (or do not) carry a condition. */
  function EdgesFrom(edges: seq<WorkflowEdge>, n: NodeId, conditional: bool): (out: seq<WorkflowEdge>)
    ensures forall e :: e in out <==> e in edges && e.fromNode == n && IsConditional(e) == conditional
  {
    if edges == [] then []
    else
      var rest := EdgesFrom(edges[1..], n, conditional);
      if edges[0].fromNode == n && IsConditional(edges[0]) == conditional then [edges[0]] + rest else rest
  }

  // ----- the streaming interpreter's choice of the next node -----

  datatype Choice = Next(node: NodeId) | NoEdge | Malformed | TestRaised

  /** Conditions are parsed one at a time, only as far as the first one that holds. */
  function FirstMatch<S>(env: Env<S>, edges: seq<WorkflowEdge>, state: S): Choice
    requires forall e :: e in edges ==> IsConditional(e)
  {
    if edges == [] then NoEdge
    else
      assert IsConditional(edges[0]);
      match env.parse(edges[0].condition.value)
      case None => Malformed
      case Some(test) =>
        match test(state)
        case Raises => TestRaised
        case Holds => Next(edges[0].toNode)
        case Fails => FirstMatch(env, edges[1..], state)
  }

  /** `_next_node`. */
  function NextNode<S>(env: Env<S>, spec: GraphSpec, current: NodeId, state: S): Choice {
    var matched := FirstMatch(env, EdgesFrom(spec.edges, current, true), state);
    var unconditional := EdgesFrom(spec.edges, current, false);
    if matched != NoEdge then matched
    else if unconditional != [] then Next(unconditional[0].toNode)
    else NoEdge
  }

  // ----- the compiled graph -----

  datatype Router<!S> =
    | Branch(tests: seq<(NodeId, S -> Truth)>, fallback: Option<NodeId>)
    | Direct(targets: set<NodeId>)

  type Compiled<!S> = map<NodeId, Router<S>>

  ghost predicate Parses<S>(env: Env<S>, edges: seq<WorkflowEdge>) {
    forall e :: e in edges && IsConditional(e) ==> env.parse(e.condition.value).Some?
  }

  /** A target with its parsed condition. */
  ghost predicate TestFor<S>(env: Env<S>, e: WorkflowEdge, test: (NodeId, S -> Truth)) {
    IsConditional(e) && test.0 == e.toNode && env.parse(e.condition.value) == Some(test.1)
  }

  /** The predicate list `_route_factory` builds before any state is seen. */
  function Tests<S>(env: Env<S>, edges: seq<WorkflowEdge>): (out: seq<(NodeId, S -> Truth)>)
    requires forall e :: e in edges ==> IsConditional(e)
    requires Parses(env, edges)
    ensures |out| == |edges|
    ensures forall i :: 0 <= i < |edges| ==> TestFor(env, edges[i], out[i])
  {
    if edges == [] then []
    else
      assert edges[0] in edges;
      [(edges[0].toNode, env.parse(edges[0].condition.value).value)] + Tests(env, edges[1..])
  }

  function RouterFor<S>(env: Env<S>, edges: seq<WorkflowEdge>, n: NodeId): Router<S>
    requires Parses(env, edges)
  {
    var conditional := EdgesFrom(edges, n, true);
    var unconditional := EdgesFrom(edges, n, false);
    if conditional != [] then
      Branch(Tests(env, conditional), if unconditional != [] then Some(unconditional[0].toNode) else None)
    else
      Direct(set e | e in unconditional :: e.toNode)
  }

  function Sources(edges: seq<WorkflowEdge>): set<NodeId> {
    set e | e in edges :: e.fromNode
  }

  /** The routing table `build_graph` hands over; a node without an entry only leads to the end. */
  function CompiledGraph<S>(env: Env<S>, edges: seq<WorkflowEdge>): Compiled<S>
    requires Parses(env, edges)
  {
    map n | n in Sources(edges) :: RouterFor(env, edges, n)
  }

  /** Parsing every predicate of one branch, stopping at the first malformed condition. */
  method RouteFactory<S>(env: Env<S>, conditional: seq<WorkflowEdge>) returns (tests: Option<seq<(NodeId, S -> Truth)>>)
    requires forall e :: e in conditional ==> IsConditional(e)
    ensures tests.Some? <==> Parses(env, conditional)
    ensures tests.Some? ==> tests.value == Tests(env, conditional)
  {
    var built: seq<(NodeId, S -> Truth)> := [];
    for i := 0 to |conditional|
      invariant Parses(env, conditional[..i])
      invariant built == Tests(env, conditional[..i])
    {
      var edge := conditional[i];
      assert edge in conditional;
      match env.parse(edge.condition.value) {
        case None =>
          return None;
        case Some(test) =>
          assert conditional[..i + 1] == conditional[..i] + [edge];
          built := built + [(edge.toNode, test)];
      }
    }
    assert conditional[..|conditional|] == conditional;
    tests := Some(built);
  }

  ghost predicate ParsesFrom<S>(env: Env<S>, edges: seq<WorkflowEdge>, n: NodeId) {
    forall e :: e in edges && e.fromNode == n && IsConditional(e) ==> env.parse(e.condition.value).Some?
  }

  /** What `build_graph` sets up for one node that edges leave from. */
  method RouterOf<S>(env: Env<S>, edges: seq<WorkflowEdge>, n: NodeId) returns (router: Option<Router<S>>)
    ensures router.Some? <==> ParsesFrom(env, edges, n)
    ensures router.Some? && Parses(env, edges) ==> router.value == RouterFor(env, edges, n)
  {
    var conditional := EdgesFrom(edges, n, true);
    var unconditional := EdgesFrom(edges, n, false);
    assert forall e :: e in conditional <==> e in edges && e.fromNode == n && IsConditional(e);
    if conditional != [] {
      var tests := RouteFactory(env, conditional);
      if tests.None? {
        return None;
      }
      return Some(Branch(tests.value, if unconditional != [] then Some(unconditional[0].toNode) else None));
    }
    return Some(Direct(set e | e in unconditional :: e.toNode));
  }

  lemma ParsesEverywhere<S>(env: Env<S>, edges: seq<WorkflowEdge>)
    ensures Parses(env, edges) <==> forall n :: n in Sources(edges) ==> ParsesFrom(env, edges, n)
  {
    assert forall e :: e in edges ==> e.fromNode in Sources(edges);
  }

  lemma TableIsCompiled<S>(env: Env<S>, edges: seq<WorkflowEdge>, table: Compiled<S>)
    requires Parses(env, edges) && table.Keys == Sources(edges)
    requires forall n :: n in Sources(edges) ==> table[n] == RouterFor(env, edges, n)
    ensures table == CompiledGraph(env, edges)
  {
  }

  /** `build_graph` fails exactly when some condition, on whatever edge, is malformed. */
  method BuildGraph<S>(env: Env<S>, spec: GraphSpec) returns (graph: Option<Compiled<S>>)
    ensures graph.Some? <==> Parses(env, spec.edges)
    ensures graph.Some? ==> graph.value == CompiledGraph(env, spec.edges)
  {
    var table: Compiled<S> := map[];
    var pending := Sources(spec.edges);
    ghost var done: set<NodeId> := {};
    while pending != {}
      invariant done + pending == Sources(spec.edges) && done !! pending
      invariant table.Keys == done
      invariant forall n :: n in done ==> ParsesFrom(env, spec.edges, n)
      invariant Parses(env, spec.edges) ==> forall n :: n in done ==> table[n] == RouterFor(env, spec.edges, n)
      decreases pending
    {
      var n :| n in pending;
      pending := pending - {n};
      done := done + {n};
      var router := RouterOf(env, spec.edges, n);
      if router.None? {
        return None;
      }
      table := table[n := router.value];
    }
    ParsesEverywhere(env, spec.edges);
    TableIsCompiled(env, spec.edges, table);
    graph := Some(table);
  }

  datatype RouteResult = Routed(node: NodeId) | NothingMatched | RouteRaised

  /** The `route` closure of `_route_factory`. */
  function Route<S>(tests: seq<(NodeId, S -> Truth)>, fallback: Option<NodeId>, state: S): RouteResult {
    if tests == [] then
      if fallback.Some? then Routed(fallback.value) else NothingMatched
    else match tests[0].1(state)
      case Raises => RouteRaised
      case Holds => Routed(tests[0].0)
      case Fails => Route(tests[1..], fallback, state)
  }

  // ----- one step of each executor -----

  /** What happens after a node has run. `Fork` is a fan-out to several nodes at once. */
  datatype Move = Goto(node: NodeId) | Finish | Fork(targets: set<NodeId>) | Broken

  function StreamMove<S>(env: Env<S>, spec: GraphSpec, current: NodeId, state: S): Move {
    match NextNode(env, spec, current, state)
    case Next(n) => if n == "" then Finish else Goto(n)
    case NoEdge => Finish
    case Malformed => Broken
    case TestRaised => Broken
  }

  function CompiledMove<S>(graph: Compiled<S>, current: NodeId, state: S): Move {
    if current !in graph then Finish
    else match graph[current]
      case Branch(tests, fallback) =>
        (match Route(tests, fallback, state)
         case Routed(n) => Goto(n)
         case NothingMatched => Broken
         case RouteRaised => Broken)
      case Direct(targets) =>
        if exists t :: t in targets && targets == {t} then
          var t :| t in targets && targets == {t};
          Goto(t)
        else Fork(targets)
  }

  /** Every condition on an edge out of `n` is evaluated and false. */
  ghost predicate AllFail<S>(env: Env<S>, edges: seq<WorkflowEdge>, state: S)
    requires forall e :: e in edges ==> IsConditional(e)
    requires Parses(env, edges)
  {
    forall e :: e in edges ==> env.parse(e.condition.value).value(state) == Fails
  }

  /** How the compiled `route` answers when the lazy scan of the same edges gives `choice`. */
  function Answer(choice: Choice, fallback: Option<NodeId>): RouteResult {
    match choice
    case Next(n) => Routed(n)
    case TestRaised => RouteRaised
    case _ => if fallback.Some? then Routed(fallback.value) else NothingMatched
  }

  lemma {:induction false} FirstMatchIsRoute<S>(env: Env<S>, edges: seq<WorkflowEdge>, fallback: Option<NodeId>, state: S)
    requires forall e :: e in edges ==> IsConditional(e)
    requires Parses(env, edges)
    ensures FirstMatch(env, edges, state) != Malformed
    ensures FirstMatch(env, edges, state) == NoEdge <==> AllFail(env, edges, state)
    ensures Route(Tests(env, edges), fallback, state) == Answer(FirstMatch(env, edges, state), fallback)
  {
    if edges != [] {
      var first, rest := edges[0], edges[1..];
      assert edges == [first] + rest;
      assert first in edges;
      var tests := Tests(env, edges);
      assert tests[1..] == Tests(env, rest);
      if env.parse(first.condition.value).value(state) == Fails {
        FirstMatchIsRoute(env, rest, fallback, state);
      }
    }
  }

  /**
   At a node with a conditional edge, `_next_node` picks the target `route` picks, on every
   state; the only difference is that it gives no node where `route` raises for lack of a match.
   */
  lemma ConditionalNodesAgree<S>(env: Env<S>, spec: GraphSpec, n: NodeId, state: S)
    requires Parses(env, spec.edges) && EdgesFrom(spec.edges, n, true) != []
    ensures n in CompiledGraph(env, spec.edges)
    ensures CompiledGraph(env, spec.edges)[n].Branch?
    ensures var Branch(tests, fallback) := CompiledGraph(env, spec.edges)[n];
            NextNode(env, spec, n, state)
            == match Route(tests, fallback, state)
               case Routed(t) => Next(t)
               case NothingMatched => NoEdge
               case RouteRaised => TestRaised
  {
    var conditional := EdgesFrom(spec.edges, n, true);
    var unconditional := EdgesFrom(spec.edges, n, false);
    assert conditional[0] in spec.edges;
    FirstMatchIsRoute(env, conditional, if unconditional != [] then Some(unconditional[0].toNode) else None, state);
  }

  // ----- which edge is taken, by its place in the specification -----

  predicate LeavesTested(e: WorkflowEdge, n: NodeId) {
    e.fromNode == n && e.condition.Some? && e.condition.value != ""
  }

  predicate LeavesPlain(e: WorkflowEdge, n: NodeId) {
    e.fromNode == n && (e.condition.None? || e.condition.value == "")
  }

  /** The condition of the edge parses, and gives this answer on the state. */
  predicate Says<S>(env: Env<S>, e: WorkflowEdge, state: S, answer: Truth) {
    e.condition.Some? && env.parse(e.condition.value).Some? && env.parse(e.condition.value).value(state) == answer
  }

  /** Every conditional edge out of `n` before place `k` parses and fails. */
  ghost predicate FailUpTo<S>(env: Env<S>, edges: seq<WorkflowEdge>, n: NodeId, state: S, k: nat)
    requires k <= |edges|
  {
    forall j :: 0 <= j < k && LeavesTested(edges[j], n) ==> Says(env, edges[j], state, Fails)
  }

  /** The edge at place `k` is the first unconditional one out of `n`. */
  ghost predicate FirstPlain(edges: seq<WorkflowEdge>, n: NodeId, k: nat) {
    k < |edges| && LeavesPlain(edges[k], n) && forall j :: 0 <= j < k ==> !LeavesPlain(edges[j], n)
  }

  lemma {:induction false} ScanByPlace<S>(env: Env<S>, edges: seq<WorkflowEdge>, n: NodeId, state: S, k: nat)
    requires k <= |edges| && FailUpTo(env, edges, n, state, k)
    requires k < |edges| ==> LeavesTested(edges[k], n) && !Says(env, edges[k], state, Fails)
    ensures FirstMatch(env, EdgesFrom(edges, n, true), state)
            == if k == |edges| then NoEdge
               else if Says(env, edges[k], state, Holds) then Next(edges[k].toNode)
               else if Says(env, edges[k], state, Raises) then TestRaised
               else Malformed
  {
    if edges != [] {
      var conditional := EdgesFrom(edges, n, true);
      if k == 0 {
        assert conditional[0] == edges[0];
      } else {
        var rest := edges[1..];
        assert FailUpTo(env, rest, n, state, k - 1) by {
          assert forall j :: 0 <= j < k - 1 ==> rest[j] == edges[j + 1];
        }
        ScanByPlace(env, rest, n, state, k - 1);
        if LeavesTested(edges[0], n) {
          assert conditional[0] == edges[0] && conditional[1..] == EdgesFrom(rest, n, true);
        }
      }
    }
  }

  lemma {:induction false} PlainByPlace(edges: seq<WorkflowEdge>, n: NodeId)
    ensures EdgesFrom(edges, n, false) == [] <==> forall k: nat :: !FirstPlain(edges, n, k)
    ensures forall k: nat :: FirstPlain(edges, n, k) ==> EdgesFrom(edges, n, false) != [] && EdgesFrom(edges, n, false)[0] == edges[k]
  {
    if edges != [] {
      var rest := edges[1..];
      PlainByPlace(rest, n);
      if LeavesPlain(edges[0], n) {
        assert FirstPlain(edges, n, 0);
      } else {
        forall k: nat ensures FirstPlain(edges, n, k + 1) <==> FirstPlain(rest, n, k) {
          assert forall j :: 0 <= j < |rest| ==> rest[j] == edges[j + 1];
        }
        assert !FirstPlain(edges, n, 0);
        forall k: nat | FirstPlain(edges, n, k) ensures FirstPlain(rest, n, k - 1) {
          assert FirstPlain(edges, n, (k - 1) + 1);
        }
      }
    }
  }

  /**
   `_next_node` follows the conditional edge out of the node that stands first in the
   specification and does not fail; if all fail, the unconditional edge that stands first.
   */
  lemma NextNodeByPlace<S>(env: Env<S>, spec: GraphSpec, n: NodeId, state: S, k: nat)
    ensures k < |spec.edges| && LeavesTested(spec.edges[k], n) && FailUpTo(env, spec.edges, n, state, k)
            && Says(env, spec.edges[k], state, Holds)
            ==> NextNode(env, spec, n, state) == Next(spec.edges[k].toNode)
    ensures k < |spec.edges| && LeavesTested(spec.edges[k], n) && FailUpTo(env, spec.edges, n, state, k)
            && Says(env, spec.edges[k], state, Raises)
            ==> NextNode(env, spec, n, state) == TestRaised
    ensures FailUpTo(env, spec.edges, n, state, |spec.edges|) && FirstPlain(spec.edges, n, k)
            ==> NextNode(env, spec, n, state) == Next(spec.edges[k].toNode)
    ensures FailUpTo(env, spec.edges, n, state, |spec.edges|) && (forall i: nat :: !FirstPlain(spec.edges, n, i))
            ==> NextNode(env, spec, n, state) == NoEdge
  {
    PlainByPlace(spec.edges, n);
    if k < |spec.edges| && LeavesTested(spec.edges[k], n) && FailUpTo(env, spec.edges, n, state, k)
       && !Says(env, spec.edges[k], state, Fails) {
      ScanByPlace(env, spec.edges, n, state, k);
    }
    if FailUpTo(env, spec.edges, n, state, |spec.edges|) {
      ScanByPlace(env, spec.edges, n, state, |spec.edges|);
    }
  }

  /** The compiled graph takes the same edge; where all conditions fail and no edge is unconditional, it raises. */
  lemma CompiledMoveByPlace<S>(env: Env<S>, spec: GraphSpec, n: NodeId, state: S, first: nat, k: nat)
    requires Parses(env, spec.edges) && first < |spec.edges| && LeavesTested(spec.edges[first], n)
    ensures var move := CompiledMove(CompiledGraph(env, spec.edges), n, state);
            && (k < |spec.edges| && LeavesTested(spec.edges[k], n) && FailUpTo(env, spec.edges, n, state, k)
                && Says(env, spec.edges[k], state, Holds)
                ==> move == Goto(spec.edges[k].toNode))
            && (k < |spec.edges| && LeavesTested(spec.edges[k], n) && FailUpTo(env, spec.edges, n, state, k)
                && Says(env, spec.edges[k], state, Raises)
                ==> move == Broken)
            && (FailUpTo(env, spec.edges, n, state, |spec.edges|) && FirstPlain(spec.edges, n, k)
                ==> move == Goto(spec.edges[k].toNode))
            && (FailUpTo(env, spec.edges, n, state, |spec.edges|) && (forall i: nat :: !FirstPlain(spec.edges, n, i))
                ==> move == Broken)
  {
    assert spec.edges[first] in EdgesFrom(spec.edges, n, true);
    ConditionalNodesAgree(env, spec, n, state);
    NextNodeByPlace(env, spec, n, state, k);
  }

  lemma {:induction false} NoTestedEdges(edges: seq<WorkflowEdge>, n: NodeId)
    requires forall j :: 0 <= j < |edges| ==> !LeavesTested(edges[j], n)
    ensures EdgesFrom(edges, n, true) == []
  {
    if edges != [] {
      NoTestedEdges(edges[1..], n);
    }
  }

  /** The targets of the edges out of a node, by their places. */
  lemma TargetsByPlace(edges: seq<WorkflowEdge>, n: NodeId)
    requires forall j :: 0 <= j < |edges| ==> !LeavesTested(edges[j], n)
    ensures var targets := set e | e in EdgesFrom(edges, n, false) :: e.toNode;
            && (forall i :: 0 <= i < |edges| && edges[i].fromNode == n ==> edges[i].toNode in targets)
            && (forall t :: t in targets ==> exists i :: 0 <= i < |edges| && edges[i].fromNode == n && edges[i].toNode == t)
  {
    var unconditional := EdgesFrom(edges, n, false);
    forall i | 0 <= i < |edges| && edges[i].fromNode == n ensures edges[i] in unconditional {
    }
    forall e | e in unconditional ensures exists i :: 0 <= i < |edges| && edges[i].fromNode == n && edges[i].toNode == e.toNode {
      var i :| 0 <= i < |edges| && edges[i] == e;
    }
  }

  lemma PlainRouter<S>(env: Env<S>, edges: seq<WorkflowEdge>, n: NodeId, k: nat)
    requires Parses(env, edges) && FirstPlain(edges, n, k)
    requires forall j :: 0 <= j < |edges| ==> !LeavesTested(edges[j], n)
    ensures n in CompiledGraph(env, edges)
    ensures CompiledGraph(env, edges)[n] == Direct(set e | e in EdgesFrom(edges, n, false) :: e.toNode)
  {
    assert edges[k] in edges;
    NoTestedEdges(edges, n);
  }

  /** Without conditional edges the compiled graph goes to every target of an edge out of the node. */
  lemma PlainMoveByPlace<S>(env: Env<S>, spec: GraphSpec, n: NodeId, state: S, k: nat)
    requires Parses(env, spec.edges) && FirstPlain(spec.edges, n, k)
    requires forall j :: 0 <= j < |spec.edges| ==> !LeavesTested(spec.edges[j], n)
    ensures var targets := set i | 0 <= i < |spec.edges| && spec.edges[i].fromNode == n :: spec.edges[i].toNode;
            CompiledMove(CompiledGraph(env, spec.edges), n, state)
            == if targets == {spec.edges[k].toNode} then Goto(spec.edges[k].toNode) else Fork(targets)
  {
    var targets := set i | 0 <= i < |spec.edges| && spec.edges[i].fromNode == n :: spec.edges[i].toNode;
    var found := set e | e in EdgesFrom(spec.edges, n, false) :: e.toNode;
    TargetsByPlace(spec.edges, n);
    assert targets == found;
    PlainRouter(env, spec.edges, n, k);
    DirectMove(CompiledGraph(env, spec.edges), n, found, spec.edges[k].toNode, state);
  }

  /** And from a node that no edge leaves, it goes nowhere. */
  lemma NoEdgeFinishes<S>(env: Env<S>, spec: GraphSpec, n: NodeId, state: S)
    requires Parses(env, spec.edges) && forall j :: 0 <= j < |spec.edges| ==> spec.edges[j].fromNode != n
    ensures CompiledMove(CompiledGraph(env, spec.edges), n, state) == Finish
  {
    assert n !in Sources(spec.edges);
  }

  /** The shape of the edges at `n` under which the two executors cannot part on `state`. */
  ghost predicate AgreesAt<S>(env: Env<S>, spec: GraphSpec, n: NodeId, state: S)
    requires Parses(env, spec.edges)
  {
    var conditional := EdgesFrom(spec.edges, n, true);
    var unconditional := EdgesFrom(spec.edges, n, false);
    if conditional != [] then unconditional != [] || !AllFail(env, conditional, state)
    else forall e, f :: e in unconditional && f in unconditional ==> e.toNode == f.toNode
  }

  /**
   One step: the executors make the same move exactly when the edges at the node agree and the
   node chosen has a name; the empty one ends a streamed run.
   */
  lemma MovesAgree<S>(env: Env<S>, spec: GraphSpec, n: NodeId, state: S)
    requires Parses(env, spec.edges)
    ensures StreamMove(env, spec, n, state) == CompiledMove(CompiledGraph(env, spec.edges), n, state)
            <==> AgreesAt(env, spec, n, state) && NextNode(env, spec, n, state) != Next("")
  {
    var conditional := EdgesFrom(spec.edges, n, true);
    if conditional != [] {
      var graph := CompiledGraph(env, spec.edges);
      ConditionalNodesAgree(env, spec, n, state);
      FirstMatchIsRoute(env, conditional, graph[n].fallback, state);
    } else {
      DirectMovesAgree(env, spec, n, state);
    }
  }

  lemma SingleTarget(edges: seq<WorkflowEdge>)
    requires edges != []
    ensures var targets := set e | e in edges :: e.toNode;
            && edges[0].toNode in targets
            && (targets == {edges[0].toNode} <==> forall e, f :: e in edges && f in edges ==> e.toNode == f.toNode)
  {
    var targets := set e | e in edges :: e.toNode;
    assert edges[0] in edges;
    if targets == {edges[0].toNode} {
      forall e | e in edges ensures e.toNode == edges[0].toNode {
        assert e.toNode in targets;
      }
    }
  }

  lemma DirectMove<S>(graph: Compiled<S>, n: NodeId, targets: set<NodeId>, first: NodeId, state: S)
    requires n in graph && graph[n] == Direct(targets) && first in targets
    ensures CompiledMove(graph, n, state) == if targets == {first} then Goto(first) else Fork(targets)
  {
  }

  lemma DirectMovesAgree<S>(env: Env<S>, spec: GraphSpec, n: NodeId, state: S)
    requires Parses(env, spec.edges) && EdgesFrom(spec.edges, n, true) == []
    ensures StreamMove(env, spec, n, state) == CompiledMove(CompiledGraph(env, spec.edges), n, state)
            <==> AgreesAt(env, spec, n, state) && NextNode(env, spec, n, state) != Next("")
  {
    var graph := CompiledGraph(env, spec.edges);
    var unconditional := EdgesFrom(spec.edges, n, false);
    if unconditional == [] {
      assert n !in Sources(spec.edges);
    } else {
      assert unconditional[0] in spec.edges;
      SingleTarget(unconditional);
      DirectMove(graph, n, set e | e in unconditional :: e.toNode, unconditional[0].toNode, state);
    }
  }

  /** Whatever node is chosen next is the target of an edge out of the current node. */
  lemma NextIsEdgeTarget<S>(env: Env<S>, spec: GraphSpec, n: NodeId, state: S)
    ensures match NextNode(env, spec, n, state)
            case Next(m) => exists e :: e in spec.edges && e.fromNode == n && e.toNode == m
            case _ => true
  {
    var conditional := EdgesFrom(spec.edges, n, true);
    FirstMatchTarget(env, conditional, state);
    var unconditional := EdgesFrom(spec.edges, n, false);
    if unconditional != [] {
      assert unconditional[0] in spec.edges;
    }
  }

  lemma {:induction false} FirstMatchTarget<S>(env: Env<S>, edges: seq<WorkflowEdge>, state: S)
    requires forall e :: e in edges ==> IsConditional(e)
    ensures match FirstMatch(env, edges, state)
            case Next(m) => exists e :: e in edges && e.toNode == m
            case _ => true
  {
    if edges != [] && FirstMatch(env, edges, state) == FirstMatch(env, edges[1..], state) {
      FirstMatchTarget(env, edges[1..], state);
    }
  }

  // ----- whole runs -----

  datatype Event<S> = Started(node: NodeId) | Done(node: NodeId, state: S) | Complete(state: S)

  datatype Ending = Completed | BudgetExceeded | UnknownNode | HandlerRaised | RoutingFailed

  datatype Stream<S> = Stream(events: seq<Event<S>>, ending: Ending)

  /** One iteration of the streaming loop: the run stops, or goes on at another node. */
  datatype Hop<S> = Stop(events: seq<Event<S>>, ending: Ending) | On(events: seq<Event<S>>, node: NodeId, state: S)

  function StreamHop<S>(env: Env<S>, spec: GraphSpec, current: NodeId, used: nat, state: S): Hop<S> {
    if used >= STEP_BUDGET then Stop([], BudgetExceeded)
    else if current !in spec.nodes then Stop([Started(current)], UnknownNode)
    else match env.run(used, current, state)
      case None => Stop([Started(current)], HandlerRaised)
      case Some(after) =>
        match StreamMove(env, spec, current, after)
        case Goto(next) => On([Started(current), Done(current, after)], next, after)
        case Finish => Stop([Started(current), Done(current, after), Complete(after)], Completed)
        case _ => Stop([Started(current), Done(current, after)], RoutingFailed)
  }

  /** The events of a streamed run from `current`, when `used` steps of the budget are gone. */
  function StreamFrom<S>(env: Env<S>, spec: GraphSpec, current: NodeId, used: nat, state: S): Stream<S>
    decreases STEP_BUDGET - used
  {
    if current == "" then Stream([Complete(state)], Completed)
    else match StreamHop(env, spec, current, used, state)
      case Stop(events, ending) => Stream(events, ending)
      case On(events, node, after) => Prepend(events, StreamFrom(env, spec, node, used + 1, after))
  }

  function Prepend<S>(events: seq<Event<S>>, rest: Stream<S>): Stream<S> {
    Stream(events + rest.events, rest.ending)
  }

  lemma PrependTwice<S>(a: seq<Event<S>>, b: seq<Event<S>>, rest: Stream<S>)
    ensures Prepend(a, Prepend(b, rest)) == Prepend(a + b, rest)
  {
    assert a + (b + rest.events) == (a + b) + rest.events;
  }

  lemma StreamStep<S>(env: Env<S>, spec: GraphSpec, current: NodeId, used: nat, state: S)
    requires current != ""
    ensures StreamFrom(env, spec, current, used, state) ==
            match StreamHop(env, spec, current, used, state)
            case Stop(events, ending) => Stream(events, ending)
            case On(events, node, after) => Prepend(events, StreamFrom(env, spec, node, used + 1, after))
    ensures used >= STEP_BUDGET ==> StreamHop(env, spec, current, used, state) == Stop([], BudgetExceeded)
  {
  }

  /** The run of the loop from here on, after events already sent. */
  function Streamed<S>(events: seq<Event<S>>, env: Env<S>, spec: GraphSpec, current: NodeId, used: nat, state: S): Stream<S>
    decreases STEP_BUDGET - used
  {
    if current == "" then Stream(events + [Complete(state)], Completed)
    else match StreamHop(env, spec, current, used, state)
      case Stop(more, ending) => Stream(events + more, ending)
      case On(more, node, after) => Streamed(events + more, env, spec, node, used + 1, after)
  }

  lemma {:induction false} StreamedIsPrepended<S>(events: seq<Event<S>>, env: Env<S>, spec: GraphSpec, current: NodeId,
                                                  used: nat, state: S)
    ensures Streamed(events, env, spec, current, used, state) == Prepend(events, StreamFrom(env, spec, current, used, state))
    decreases STEP_BUDGET - used
  {
    if current != "" {
      var hop := StreamHop(env, spec, current, used, state);
      if hop.On? {
        StreamedIsPrepended(events + hop.events, env, spec, hop.node, used + 1, hop.state);
        PrependTwice(events, hop.events, StreamFrom(env, spec, hop.node, used + 1, hop.state));
      }
    }
  }

  lemma StreamedWhole<S>(env: Env<S>, spec: GraphSpec, initial: S) returns (whole: Stream<S>)
    ensures whole == StreamFrom(env, spec, spec.entry, 0, initial) == Streamed([], env, spec, spec.entry, 0, initial)
  {
    whole := StreamFrom(env, spec, spec.entry, 0, initial);
    StreamedIsPrepended([], env, spec, spec.entry, 0, initial);
    assert [] + whole.events == whole.events;
  }

  /** The body of the streaming loop once the budget check has passed. */
  method RunNode<S>(env: Env<S>, spec: GraphSpec, current: NodeId, used: nat, state: S) returns (hop: Hop<S>)
    requires used < STEP_BUDGET
    ensures hop == StreamHop(env, spec, current, used, state)
  {
    var events: seq<Event<S>> := [Started(current)];
    if current !in spec.nodes {
      return Stop(events, UnknownNode);
    }
    var after := env.run(used, current, state);
    if after.None? {
      return Stop(events, HandlerRaised);
    }
    events := events + [Done(current, after.value)];
    var next := NextNode(env, spec, current, after.value);
    if next == Malformed || next == TestRaised {
      return Stop(events, RoutingFailed);
    }
    if next.Next? && next.node != "" {
      return On(events, next.node, after.value);
    }
    hop := Stop(events + [Complete(after.value)], Completed);
  }

  /** `run_streaming`, with the yielded events collected in order. */
  method RunStreaming<S>(env: Env<S>, spec: GraphSpec, initial: S) returns (run: Stream<S>)
    ensures run == StreamFrom(env, spec, spec.entry, 0, initial)
  {
    var state := initial;
    var current := spec.entry;
    var visitedGuard: nat := 0;
    var events: seq<Event<S>> := [];
    ghost var whole := StreamedWhole(env, spec, initial);
    while current != ""
      invariant visitedGuard <= STEP_BUDGET
      invariant whole == Streamed(events, env, spec, current, visitedGuard, state)
      decreases STEP_BUDGET - visitedGuard
    {
      visitedGuard := visitedGuard + 1;
      if visitedGuard > STEP_BUDGET {
        AppendNothing(events);
        return Stream(events, BudgetExceeded);
      }
      var hop := RunNode(env, spec, current, visitedGuard - 1, state);
      if hop.Stop? {
        return Stream(events + hop.events, hop.ending);
      }
      events := events + hop.events;
      current, state := hop.node, hop.state;
    }
    run := Stream(events + [Complete(state)], Completed);
  }

  /** A run of the compiled graph, cut off after `limit` nodes. */
  function CompiledFrom<S>(env: Env<S>, graph: Compiled<S>, current: NodeId, used: nat, limit: nat, state: S): Stream<S>
    decreases limit - used
  {
    if used >= limit then Stream([], BudgetExceeded)
    else match env.run(used, current, state)
      case None => Stream([Started(current)], HandlerRaised)
      case Some(after) =>
        match CompiledMove(graph, current, after)
        case Goto(next) =>
          Prepend([Started(current), Done(current, after)], CompiledFrom(env, graph, next, used + 1, limit, after))
        case Finish => Stream([Started(current), Done(current, after), Complete(after)], Completed)
        case _ => Stream([Started(current), Done(current, after)], RoutingFailed)
  }

  /** Every branch has a fallback and no node fans out: what a caller can check on the specification. */
  ghost predicate SinglePath(spec: GraphSpec) {
    forall n :: n in spec.nodes ==>
      var unconditional := EdgesFrom(spec.edges, n, false);
      if EdgesFrom(spec.edges, n, true) != [] then unconditional != []
      else forall e, f :: e in unconditional && f in unconditional ==> e.toNode == f.toNode
  }

  /** No edge leads to the empty id, with which the streaming loop ends. */
  ghost predicate NamedTargets(spec: GraphSpec) {
    forall e :: e in spec.edges ==> e.toNode != ""
  }

  lemma SingleMovesAgree<S>(env: Env<S>, spec: GraphSpec, n: NodeId, state: S)
    requires EdgesKnown(spec) && NamedTargets(spec) && SinglePath(spec) && Parses(env, spec.edges) && n in spec.nodes
    ensures var move := StreamMove(env, spec, n, state);
            && move == CompiledMove(CompiledGraph(env, spec.edges), n, state)
            && (move.Goto? ==> move.node in spec.nodes && move.node != "")
  {
    NextIsEdgeTarget(env, spec, n, state);
    assert AgreesAt(env, spec, n, state);
    MovesAgree(env, spec, n, state);
  }

  /**
   On a well-formed single-path specification, a streamed run is the run of the compiled graph,
   event for event, for every condition language, handler and state.
   */
  lemma {:induction false} StreamRefinesCompiled<S>(env: Env<S>, spec: GraphSpec, current: NodeId, used: nat, state: S)
    requires EdgesKnown(spec) && NamedTargets(spec) && SinglePath(spec)
    requires Parses(env, spec.edges) && current in spec.nodes && current != ""
    ensures StreamFrom(env, spec, current, used, state)
            == CompiledFrom(env, CompiledGraph(env, spec.edges), current, used, STEP_BUDGET, state)
    decreases STEP_BUDGET - used
  {
    if used < STEP_BUDGET && env.run(used, current, state).Some? {
      var after := env.run(used, current, state).value;
      SingleMovesAgree(env, spec, current, after);
      var move := StreamMove(env, spec, current, after);
      if move.Goto? {
        StreamRefinesCompiled(env, spec, move.node, used + 1, after);
      }
    }
  }

  /** With every condition well formed, the lazy parser never meets a malformed one. */
  lemma LazyParsingIsSafe<S>(env: Env<S>, spec: GraphSpec, n: NodeId, state: S)
    requires Parses(env, spec.edges)
    ensures NextNode(env, spec, n, state) != Malformed
  {
    FirstMatchIsRoute(env, EdgesFrom(spec.edges, n, true), None, state);
  }

  predicate Unparsed<S>(env: Env<S>, e: WorkflowEdge) {
    IsConditional(e) && env.parse(e.condition.value).None?
  }

  predicate FailsOn<S>(env: Env<S>, e: WorkflowEdge, state: S) {
    IsConditional(e) && env.parse(e.condition.value).Some? && env.parse(e.condition.value).value(state) == Fails
  }

  /** Edge `i` does not parse, and every edge before it parses and fails on the state. */
  ghost predicate MalformedAt<S>(env: Env<S>, edges: seq<WorkflowEdge>, state: S, i: nat) {
    i < |edges| && Unparsed(env, edges[i]) && forall j :: 0 <= j < i ==> FailsOn(env, edges[j], state)
  }

  ghost predicate ReachesMalformed<S>(env: Env<S>, edges: seq<WorkflowEdge>, state: S) {
    exists i: nat :: MalformedAt(env, edges, state, i)
  }

  /** The lazy scan meets a malformed condition exactly when one stands behind nothing but failing ones. */
  lemma {:induction false} FirstMatchMalformedIff<S>(env: Env<S>, edges: seq<WorkflowEdge>, state: S)
    requires forall e :: e in edges ==> IsConditional(e)
    ensures FirstMatch(env, edges, state) == Malformed <==> ReachesMalformed(env, edges, state)
  {
    if edges != [] {
      var first, rest := edges[0], edges[1..];
      assert first in edges && forall e :: e in rest ==> e in edges;
      FirstMatchMalformedIff(env, rest, state);
      if Unparsed(env, first) {
        assert MalformedAt(env, edges, state, 0);
      } else if FailsOn(env, first, state) {
        if i: nat :| MalformedAt(env, rest, state, i) {
          assert MalformedAt(env, edges, state, i + 1);
        }
        if i: nat :| MalformedAt(env, edges, state, i) {
          assert MalformedAt(env, rest, state, i - 1);
        }
      } else {
        assert forall i: nat :: MalformedAt(env, edges, state, i) ==> FailsOn(env, edges[0], state);
      }
    }
  }

  /** So a streamed step fails on a condition that `build_graph` refuses exactly when the scan gets that far. */
  lemma LazyParsingFailsIff<S>(env: Env<S>, spec: GraphSpec, n: NodeId, state: S)
    ensures NextNode(env, spec, n, state) == Malformed <==> ReachesMalformed(env, EdgesFrom(spec.edges, n, true), state)
  {
    FirstMatchMalformedIff(env, EdgesFrom(spec.edges, n, true), state);
  }

  const GOOD_EDGE := WorkflowEdge("a", "b", Some("ok"))
  const BAD_EDGE := WorkflowEdge("a", "b", Some("?"))
  const SHADOWED := GraphSpec(["a", "b"], [GOOD_EDGE, BAD_EDGE], "a", ["b"])

  /**
   The converse fails: where a matching condition comes first, the streamed run completes on a
   well-formed specification that `build_graph` refuses.
   */
  lemma LazyParsingAcceptsMore(env: Env<int>)
    requires env.parse("ok").Some? && (forall s :: env.parse("ok").value(s) == Holds) && env.parse("?").None?
    requires forall i, n, s :: env.run(i, n, s) == Some(s)
    ensures WellFormed(SHADOWED) && !Parses(env, SHADOWED.edges)
    ensures StreamFrom(env, SHADOWED, SHADOWED.entry, 0, 0).ending == Completed
  {
    var adj := SpecAdjacency(SHADOWED);
    assert BAD_EDGE in SHADOWED.edges && GOOD_EDGE in SHADOWED.edges;
    assert "b" in Successors(SHADOWED.edges, "a");
    ReachableSelf(adj, "a");
    ReachableStep(adj, "a", "a", "b");
    assert EdgesFrom(SHADOWED.edges, "a", true)[0] == GOOD_EDGE;
    NoEdgesFrom(SHADOWED.edges, "b", true);
    NoEdgesFrom(SHADOWED.edges, "b", false);
    assert StreamMove(env, SHADOWED, "a", 0) == Goto("b");
    assert StreamMove(env, SHADOWED, "b", 0) == Finish;
    assert StreamFrom(env, SHADOWED, "b", 1, 0).ending == Completed;
  }

  lemma {:induction false} NoEdgesFrom(edges: seq<WorkflowEdge>, n: NodeId, conditional: bool)
    requires forall e :: e in edges ==> e.fromNode != n
    ensures EdgesFrom(edges, n, conditional) == []
  {
    if edges != [] {
      NoEdgesFrom(edges[1..], n, conditional);
    }
  }

  // ----- length and termination of streamed runs -----

  function StartedNodes<S>(events: seq<Event<S>>): seq<NodeId> {
    if events == [] then []
    else if events[0].Started? then [events[0].node] + StartedNodes(events[1..])
    else StartedNodes(events[1..])
  }

  lemma {:induction false} StartedAppend<S>(a: seq<Event<S>>, b: seq<Event<S>>)
    ensures StartedNodes(a + b) == StartedNodes(a) + StartedNodes(b)
  {
    if a == [] {
      assert a + b == b;
    } else {
      StartedAppend(a[1..], b);
      assert (a + b)[1..] == a[1..] + b;
    }
  }

  lemma StartedOfStep<S>(n: NodeId, after: S, rest: seq<Event<S>>)
    ensures StartedNodes([Started(n), Done(n, after)] + rest) == [n] + StartedNodes(rest)
  {
    var events := [Started(n), Done(n, after)] + rest;
    assert events[1..] == [Done(n, after)] + rest;
    assert events[1..][1..] == rest;
  }

  /** What one iteration contributes: the node it starts, and a successor along an edge. */
  lemma HopIsStep<S>(env: Env<S>, spec: GraphSpec, current: NodeId, used: nat, state: S)
    requires EdgesKnown(spec) && current in spec.nodes && used < STEP_BUDGET
    ensures var hop := StreamHop(env, spec, current, used, state);
            && StartedNodes(hop.events) == [current]
            && (hop.Stop? ==> hop.ending in {Completed, HandlerRaised, RoutingFailed})
            && (hop.Stop? ==> hop.events != [] && (hop.ending == Completed <==> hop.events[|hop.events| - 1].Complete?))
            && (hop.On? ==>
                  && hop.node in spec.nodes && hop.node != ""
                  && hop.node in SpecAdjacency(spec)[current]
                  && hop.events == [Started(current), Done(current, hop.state)])
  {
    var hop := StreamHop(env, spec, current, used, state);
    if env.run(used, current, state).Some? {
      var after := env.run(used, current, state).value;
      NextIsEdgeTarget(env, spec, current, after);
      StartedOfStep(current, after, hop.events[2..]);
      assert hop.events == [Started(current), Done(current, after)] + hop.events[2..];
      if hop.On? {
        var e :| e in spec.edges && e.fromNode == current && e.toNode == hop.node;
      }
    }
  }

  /** The nodes started make up a walk from `current` that fits the budget. */
  ghost predicate WalksFrom<S>(adj: Adjacency, events: seq<Event<S>>, current: NodeId, budget: int) {
    var visited := StartedNodes(events);
    IsWalk(adj, visited) && visited[0] == current && |visited| <= budget
  }

  lemma HopThenWalk<S>(adj: Adjacency, hop: seq<Event<S>>, rest: seq<Event<S>>, current: NodeId, next: NodeId, budget: int)
    requires StartedNodes(hop) == [current] && current in adj && next in adj[current]
    requires (rest == [] && budget > 0) || WalksFrom(adj, rest, next, budget - 1)
    ensures WalksFrom(adj, hop + rest, current, budget)
  {
    StartedAppend(hop, rest);
    if rest == [] {
      assert StartedNodes(rest) == [];
      assert [current] + [] == [current];
    } else {
      WalkExtendsBack(adj, current, StartedNodes(rest));
    }
  }

  /** With steps left the events make up a walk, and without there are none. */
  ghost predicate WalksOrStops<S>(adj: Adjacency, events: seq<Event<S>>, current: NodeId, budget: int) {
    if budget > 0 then WalksFrom(adj, events, current, budget) else events == []
  }

  lemma StopIsWalk<S>(env: Env<S>, spec: GraphSpec, current: NodeId, used: nat, state: S)
    requires EdgesKnown(spec) && current in spec.nodes && used < STEP_BUDGET
    requires StreamHop(env, spec, current, used, state).Stop?
    ensures WalksFrom(SpecAdjacency(spec), StreamHop(env, spec, current, used, state).events, current, STEP_BUDGET - used)
  {
    HopIsStep(env, spec, current, used, state);
  }

  lemma HopStaysInside<S>(env: Env<S>, spec: GraphSpec, current: NodeId, used: nat, state: S)
    requires EdgesKnown(spec) && current in spec.nodes && StreamHop(env, spec, current, used, state).On?
    ensures used < STEP_BUDGET
    ensures var next := StreamHop(env, spec, current, used, state).node;
            next in spec.nodes && next != ""
  {
    HopIsStep(env, spec, current, used, state);
  }

  lemma HopOnIsWalk<S>(env: Env<S>, spec: GraphSpec, current: NodeId, used: nat, state: S, rest: seq<Event<S>>)
    requires EdgesKnown(spec) && current in spec.nodes && used < STEP_BUDGET
    requires var hop := StreamHop(env, spec, current, used, state);
             hop.On? && WalksOrStops(SpecAdjacency(spec), rest, hop.node, STEP_BUDGET - used - 1)
    ensures WalksFrom(SpecAdjacency(spec), StreamHop(env, spec, current, used, state).events + rest, current, STEP_BUDGET - used)
  {
    HopIsStep(env, spec, current, used, state);
    var hop := StreamHop(env, spec, current, used, state);
    HopThenWalk(SpecAdjacency(spec), hop.events, rest, current, hop.node, STEP_BUDGET - used);
  }

  lemma {:induction false} StreamWalks<S>(env: Env<S>, spec: GraphSpec, current: NodeId, used: nat, state: S)
    requires EdgesKnown(spec) && current in spec.nodes && current != "" && used <= STEP_BUDGET
    ensures WalksOrStops(SpecAdjacency(spec), StreamFrom(env, spec, current, used, state).events, current, STEP_BUDGET - used)
    decreases STEP_BUDGET - used
  {
    StreamStep(env, spec, current, used, state);
    match StreamHop(env, spec, current, used, state)
    case Stop(_, _) =>
      if used < STEP_BUDGET {
        StopIsWalk(env, spec, current, used, state);
      }
    case On(_, node, after) =>
      HopStaysInside(env, spec, current, used, state);
      StreamWalks(env, spec, node, used + 1, after);
      HopOnIsWalk(env, spec, current, used, state, StreamFrom(env, spec, node, used + 1, after).events);
  }

  /** A streamed run visits a walk along the edges, at most as long as the budget left. */
  lemma StreamIsWalk<S>(env: Env<S>, spec: GraphSpec, current: NodeId, used: nat, state: S)
    requires EdgesKnown(spec) && current in spec.nodes && current != "" && used < STEP_BUDGET
    ensures WalksFrom(SpecAdjacency(spec), StreamFrom(env, spec, current, used, state).events, current, STEP_BUDGET - used)
  {
    StreamWalks(env, spec, current, used, state);
  }

  lemma WalkExtendsBack(adj: Adjacency, n: NodeId, p: seq<NodeId>)
    requires IsWalk(adj, p) && n in adj && p[0] in adj[n]
    ensures IsWalk(adj, [n] + p)
  {
  }

  lemma EndsWithRest<S>(first: seq<Event<S>>, rest: seq<Event<S>>)
    requires first != [] && !first[|first| - 1].Complete?
    ensures EndsComplete(first + rest) <==> EndsComplete(rest)
  {
  }

  ghost predicate EndsWell<S>(run: Stream<S>) {
    run.ending != UnknownNode && (run.ending == Completed <==> EndsComplete(run.events))
  }

  lemma HopEnds<S>(env: Env<S>, spec: GraphSpec, current: NodeId, used: nat, state: S)
    requires EdgesKnown(spec) && current in spec.nodes
    ensures var hop := StreamHop(env, spec, current, used, state);
            && (hop.Stop? ==> EndsWell(Stream(hop.events, hop.ending)))
            && (hop.On? ==> used < STEP_BUDGET && hop.node in spec.nodes && hop.events != [] && !EndsComplete(hop.events))
  {
    if used < STEP_BUDGET {
      HopIsStep(env, spec, current, used, state);
    }
  }

  lemma PrependEndsWell<S>(events: seq<Event<S>>, rest: Stream<S>)
    requires events != [] && !EndsComplete(events) && EndsWell(rest)
    ensures EndsWell(Prepend(events, rest))
  {
    EndsWithRest(events, rest.events);
  }

  /** Every node started is known, and the complete event comes last exactly in completed runs. */
  lemma {:induction false} StreamEnding<S>(env: Env<S>, spec: GraphSpec, current: NodeId, used: nat, state: S)
    requires EdgesKnown(spec) && current in spec.nodes
    ensures var run := StreamFrom(env, spec, current, used, state);
            && run.ending != UnknownNode
            && (run.ending == Completed <==> EndsComplete(run.events))
    decreases STEP_BUDGET - used
  {
    if current != "" {
      var hop := StreamHop(env, spec, current, used, state);
      StreamStep(env, spec, current, used, state);
      HopEnds(env, spec, current, used, state);
      if hop.On? {
        StreamEnding(env, spec, hop.node, used + 1, hop.state);
        PrependEndsWell(hop.events, StreamFrom(env, spec, hop.node, used + 1, hop.state));
      }
    }
  }

  /** The budget runs out only by way of a walk one node longer than what was left of it. */
  lemma {:induction false} ExhaustionNeedsLongWalk<S>(env: Env<S>, spec: GraphSpec, current: NodeId, used: nat, state: S)
    requires EdgesKnown(spec) && current in spec.nodes && used <= STEP_BUDGET
    requires StreamFrom(env, spec, current, used, state).ending == BudgetExceeded
    ensures LongWalk(spec, current, STEP_BUDGET + 1 - used)
    decreases STEP_BUDGET - used
  {
    var adj := SpecAdjacency(spec);
    if used == STEP_BUDGET {
      assert IsWalk(adj, [current]);
    } else {
      HopIsStep(env, spec, current, used, state);
      var hop := StreamHop(env, spec, current, used, state);
      ExhaustionNeedsLongWalk(env, spec, hop.node, used + 1, hop.state);
      var p :| IsWalk(adj, p) && p[0] == hop.node && |p| == STEP_BUDGET - used;
      assert IsWalk(adj, [current] + p);
    }
  }

  ghost predicate EndsComplete<S>(events: seq<Event<S>>) {
    events != [] && events[|events| - 1].Complete?
  }

  ghost predicate LongWalk(spec: GraphSpec, start: NodeId, length: nat) {
    exists p :: IsWalk(SpecAdjacency(spec), p) && p[0] == start && |p| == length
  }

  ghost predicate Acyclic(adj: Adjacency) {
    forall p, n :: |p| >= 2 ==> !Connects(adj, p, n, n)
  }

  lemma {:induction false} WalkStaysInside(adj: Adjacency, p: seq<NodeId>)
    requires Closed(adj) && IsWalk(adj, p)
    ensures forall x :: x in p ==> x in adj.Keys
  {
    forall i | 0 <= i < |p| ensures p[i] in adj.Keys {
      if i > 0 { assert p[i] in adj[p[i - 1]]; }
    }
  }

  lemma AcyclicWalkIsShort(adj: Adjacency, p: seq<NodeId>)
    requires Closed(adj) && Acyclic(adj) && IsWalk(adj, p)
    ensures |p| <= |adj.Keys|
  {
    if i, j :| 0 <= i < j < |p| && p[i] == p[j] {
      assert Connects(adj, p[i..j + 1], p[i], p[i]);
    }
    WalkStaysInside(adj, p);
    DistinctFits(p, adj.Keys);
  }

  /** No handler raises, and neither does any condition of these edges. */
  ghost predicate NeverRaises<S(!new)>(env: Env<S>, edges: seq<WorkflowEdge>) {
    && (forall i, n, s :: env.run(i, n, s).Some?)
    && (forall e, s :: e in edges && IsConditional(e) && env.parse(e.condition.value).Some? ==>
          env.parse(e.condition.value).value(s) != Raises)
  }

  /**
   On an acyclic specification with at most 50 nodes no state, condition or handler result can
   exhaust the step budget; and unless a handler or a condition raises, the run ends with its
   complete event.
   */
  lemma AcyclicRunsFinish<S(!new)>(env: Env<S>, spec: GraphSpec, state: S)
    requires WellFormed(spec)
    requires Acyclic(SpecAdjacency(spec)) && |spec.nodes| <= STEP_BUDGET
    ensures StreamFrom(env, spec, spec.entry, 0, state).ending != BudgetExceeded
    ensures NeverRaises(env, spec.edges) && Parses(env, spec.edges) ==>
              EndsComplete(StreamFrom(env, spec, spec.entry, 0, state).events)
  {
    if StreamFrom(env, spec, spec.entry, 0, state).ending == BudgetExceeded {
      ExhaustionNeedsLongWalk(env, spec, spec.entry, 0, state);
      AcyclicHasNoLongWalk(spec, spec.entry);
    }
    if NeverRaises(env, spec.edges) && Parses(env, spec.edges) {
      CalmRuns(env, spec, spec.entry, 0, state);
      StreamEnding(env, spec, spec.entry, 0, state);
    }
  }

  lemma AcyclicHasNoLongWalk(spec: GraphSpec, start: NodeId)
    requires WellFormed(spec)
    requires Acyclic(SpecAdjacency(spec)) && |spec.nodes| <= STEP_BUDGET
    ensures !LongWalk(spec, start, STEP_BUDGET + 1)
  {
    ShapedIsClosed(spec);
    SizeTestsDistinct(spec.nodes);
    assert SpecAdjacency(spec).Keys == Elements(spec.nodes);
    forall p | IsWalk(SpecAdjacency(spec), p) && p[0] == start
      ensures |p| <= STEP_BUDGET
    {
      AcyclicWalkIsShort(SpecAdjacency(spec), p);
    }
  }

  lemma CalmHop<S(!new)>(env: Env<S>, spec: GraphSpec, current: NodeId, used: nat, state: S)
    requires EdgesKnown(spec) && current in spec.nodes
    requires NeverRaises(env, spec.edges) && Parses(env, spec.edges)
    ensures match StreamHop(env, spec, current, used, state)
            case Stop(_, ending) => ending == Completed || ending == BudgetExceeded
            case On(_, node, _) => used < STEP_BUDGET && node in spec.nodes
  {
    if used < STEP_BUDGET {
      var after := env.run(used, current, state).value;
      NextIsEdgeTarget(env, spec, current, after);
      LazyParsingIsSafe(env, spec, current, after);
      CalmMatch(env, EdgesFrom(spec.edges, current, true), after);
    }
  }

  lemma {:induction false} CalmRuns<S(!new)>(env: Env<S>, spec: GraphSpec, current: NodeId, used: nat, state: S)
    requires EdgesKnown(spec) && current in spec.nodes
    requires NeverRaises(env, spec.edges) && Parses(env, spec.edges)
    ensures StreamFrom(env, spec, current, used, state).ending in {Completed, BudgetExceeded}
    decreases STEP_BUDGET - used
  {
    if current != "" {
      CalmHop(env, spec, current, used, state);
      StreamStep(env, spec, current, used, state);
      var hop := StreamHop(env, spec, current, used, state);
      if hop.On? {
        CalmRuns(env, spec, hop.node, used + 1, hop.state);
      }
    }
  }

  lemma {:induction false} CalmMatch<S(!new)>(env: Env<S>, edges: seq<WorkflowEdge>, state: S)
    requires forall e :: e in edges ==> IsConditional(e)
    requires NeverRaises(env, edges)
    ensures FirstMatch(env, edges, state) != TestRaised
  {
    if edges != [] {
      assert IsConditional(edges[0]);
      CalmMatch(env, edges[1..], state);
    }
  }

  // ----- the budget is the exact bound -----

  function ChainNode(i: nat): NodeId {
    seq(i + 1, _ => 'n')
  }

  /** `size` nodes in a row, joined by unconditional edges. */
  function Chain(size: nat): GraphSpec
    requires size > 0
  {
    GraphSpec(
      seq(size, i requires 0 <= i => ChainNode(i)),
      seq(size - 1, i requires 0 <= i => WorkflowEdge(ChainNode(i), ChainNode(i + 1), None)),
      ChainNode(0),
      [ChainNode(size - 1)])
  }

  lemma ChainMove<S>(env: Env<S>, size: nat, i: nat, state: S)
    requires i < size
    ensures StreamMove(env, Chain(size), ChainNode(i), state)
            == if i + 1 < size then Goto(ChainNode(i + 1)) else Finish
  {
    var edges, n := Chain(size).edges, ChainNode(i);
    assert EdgesFrom(edges, n, true) == [] by {
      NoConditionalEdges(edges, n);
    }
    var direct := EdgesFrom(edges, n, false);
    if i + 1 < size {
      assert edges[i] in direct;
      assert direct[0] in edges && direct[0].fromNode == n;
      var k :| 0 <= k < |edges| && edges[k] == direct[0];
      assert |ChainNode(k)| == k + 1 && |n| == i + 1;
    } else {
      forall e | e in edges ensures e.fromNode != n {
        var k :| 0 <= k < |edges| && edges[k] == e;
        assert |e.fromNode| == k + 1 && |n| == i + 1;
      }
      NoEdgesFrom(edges, n, false);
    }
  }

  lemma {:induction false} NoConditionalEdges(edges: seq<WorkflowEdge>, n: NodeId)
    requires forall e :: e in edges ==> !IsConditional(e)
    ensures EdgesFrom(edges, n, true) == []
  {
    if edges != [] {
      NoConditionalEdges(edges[1..], n);
    }
  }

  /**
   The bound of 50 is exact: whatever the handlers return, a chain of `size` nodes streams to
   its complete event if and only if `size <= 50`.
   */
  lemma {:induction false} ChainNeedsBudget<S(!new)>(env: Env<S>, size: nat, i: nat, state: S)
    requires i < size && i <= STEP_BUDGET && forall k, n, s :: env.run(k, n, s).Some?
    ensures StreamFrom(env, Chain(size), ChainNode(i), i, state).ending
            == if size <= STEP_BUDGET then Completed else BudgetExceeded
    decreases size - i
  {
    if i < STEP_BUDGET {
      var spec, n := Chain(size), ChainNode(i);
      assert spec.nodes[i] == n;
      var after := env.run(i, n, state).value;
      ChainMove(env, size, i, after);
      if i + 1 < size {
        assert StreamHop(env, spec, n, i, state) == On([Started(n), Done(n, after)], ChainNode(i + 1), after);
        ChainNeedsBudget(env, size, i + 1, after);
      } else {
        assert StreamHop(env, spec, n, i, state).ending == Completed;
      }
    }
  }
}
