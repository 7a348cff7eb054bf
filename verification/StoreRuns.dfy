// Whole runs of the store: the typed, counted store against a plain map of edges.
module StoreRuns {
  import opened MemoryGraph
  import opened Neo4jStore

  // An update is given by the value its closure produces in the state it runs in.
  datatype Op =
    | PutNodeOp(id: Id, node: Node)
    | UpdateNodeOp(id: Id, node: Node)
    | DeleteNodeOp(id: Id)
    | PutEdgeOp(from: Id, to: Id, edge: Edge)
    | UpdateEdgeOp(from: Id, to: Id, edge: Edge)
    | DeleteEdgeOp(from: Id, to: Id)
    | PutMessageOp(id: Id, message: Message)
    | DeleteMessageOp(id: Id)
    | InsertVectorOp(id: Id, vec: Vec)
    | DeleteVectorOp(id: Id)

  // What callers must see to: both ends of a new edge, and the node of a new vector, are stored.
  predicate Allowed(g: Graph, dim: nat, op: Op) {
    match op
    case PutEdgeOp(from, to, _) =>
      from == NoId || to == NoId || from == to || (from in g.nodes && to in g.nodes)
    case InsertVectorOp(id, vec) => |vec| != dim || id in g.nodes
    case _ => true
  }

  // The operation on a plain map keyed by ordered pairs. Against the callers' duty an edge is not
  // written and a vector makes a blank node.
  function Plain(g: Graph, dim: nat, op: Op): Graph {
    match op
    case PutNodeOp(id, n) => if id == NoId then g else g.(nodes := g.nodes[id := n])
    case UpdateNodeOp(id, n) => if id in g.nodes then g.(nodes := g.nodes[id := n]) else g
    case DeleteNodeOp(id) => Without(g, {id})
    case PutEdgeOp(from, to, e) =>
      if from == NoId || to == NoId || from == to || from !in g.nodes || to !in g.nodes then g
      else g.(edges := g.edges[(from, to) := e])
    case UpdateEdgeOp(from, to, e) => if (from, to) in g.edges then g.(edges := g.edges[(from, to) := e]) else g
    case DeleteEdgeOp(from, to) => g.(edges := g.edges - {(from, to)})
    case PutMessageOp(id, m) => if id == NoId then g else g.(messages := g.messages[id := m])
    case DeleteMessageOp(id) => g.(messages := g.messages - {id})
    case InsertVectorOp(id, vec) =>
      if |vec| != dim then g else if id in g.nodes then WithVector(g, id, vec) else WithBlankNode(g, id, vec)
    case DeleteVectorOp(id) => Tombstoned(g, id)
  }

  // The counters move without the store, or the store without the counters.
  function Miscount(d: Counters, g: Graph, dim: nat, op: Op): Counters {
    if Allowed(g, dim, op) then d
    else if op.PutEdgeOp? then EdgeMiscounted(d, op.edge)
    else NodeMiscounted(d)
  }

  ghost function PlainRun(g: Graph, dim: nat, ops: seq<Op>): Graph
    decreases |ops|
  {
    if ops == [] then g else PlainRun(Plain(g, dim, ops[0]), dim, ops[1..])
  }

  ghost predicate AllowedRun(g: Graph, dim: nat, ops: seq<Op>)
    decreases |ops|
  {
    ops == [] || (Allowed(g, dim, ops[0]) && AllowedRun(Plain(g, dim, ops[0]), dim, ops[1..]))
  }

  // How many edges of a run were put without an end, or vectors without their node.
  ghost function Misplaced(g: Graph, dim: nat, ops: seq<Op>, edges: bool): nat
    decreases |ops|
  {
    if ops == [] then 0
    else (if !Allowed(g, dim, ops[0]) && ops[0].PutEdgeOp? == edges then 1 else 0)
         + Misplaced(Plain(g, dim, ops[0]), dim, ops[1..], edges)
  }

  // What the edges put without an end weigh together.
  ghost function MisplacedWeight(g: Graph, dim: nat, ops: seq<Op>): real
    decreases |ops|
  {
    if ops == [] then 0.0
    else (if !Allowed(g, dim, ops[0]) && ops[0].PutEdgeOp? then ops[0].edge.weight else 0.0)
         + MisplacedWeight(Plain(g, dim, ops[0]), dim, ops[1..])
  }

  // What a run adds to the drift of the counters: edges only ahead, nodes only behind, node weight never.
  ghost function RunDrift(g: Graph, dim: nat, ops: seq<Op>): Counters {
    Counters(0 - Misplaced(g, dim, ops, false), Misplaced(g, dim, ops, true), 0.0, MisplacedWeight(g, dim, ops))
  }

  function Plus(c: Counters, d: Counters): Counters {
    Counters(c.nodeCount + d.nodeCount, c.edgeCount + d.edgeCount, c.sumNodeWeight + d.sumNodeWeight, c.sumEdgeWeight + d.sumEdgeWeight)
  }

  // A fresh fold over a graph.
  ghost function Fold(g: Graph): Counters {
    Counters(|g.nodes|, |g.edges|, NodeTotal(g.nodes), EdgeTotal(g.edges))
  }

  lemma {:induction false} AllowedMeansNoneMisplaced(g: Graph, dim: nat, ops: seq<Op>)
    ensures AllowedRun(g, dim, ops) <==> Misplaced(g, dim, ops, true) == 0 && Misplaced(g, dim, ops, false) == 0
    ensures AllowedRun(g, dim, ops) <==> RunDrift(g, dim, ops) == NoCounts
    decreases |ops|
  {
    hide Allowed, Plain;
    if ops != [] {
      AllowedMeansNoneMisplaced(Plain(g, dim, ops[0]), dim, ops[1..]);
    }
  }

  method Execute(st: Store, op: Op)
    requires st.Sound()
    modifies st
    ensures st.Sound() && st.View() == Plain(old(st.View()), st.dim, op)
    ensures st.Drift() == Miscount(old(st.Drift()), old(st.View()), st.dim, op)
    ensures old(st.Named()) && Allowed(old(st.View()), st.dim, op) ==> st.Named()
  {
    hide SoundDb, DriftOf;
    match op
    case PutNodeOp(id, n) =>
      var r := st.PutNode(id, n);
    case UpdateNodeOp(id, n) =>
      var r := st.UpdateNode(id, _ => n);
    case DeleteNodeOp(id) =>
      st.DeleteNode(id);
    case PutEdgeOp(from, to, e) =>
      var r := st.PutEdge(from, to, e);
    case UpdateEdgeOp(from, to, e) =>
      var r := st.UpdateEdge(from, to, _ => e);
    case DeleteEdgeOp(from, to) =>
      st.DeleteEdge(from, to);
    case PutMessageOp(id, m) =>
      var r := st.PutMessage(id, m);
    case DeleteMessageOp(id) =>
      st.DeleteMessage(id);
    case InsertVectorOp(id, vec) =>
      var r := st.InsertVector(id, vec);
    case DeleteVectorOp(id) =>
      st.DeleteVector(id);
  }

  lemma OneMiscount(d: Counters, g: Graph, dim: nat, ops: seq<Op>)
    requires ops != []
    ensures Plus(Miscount(d, g, dim, ops[0]), RunDrift(Plain(g, dim, ops[0]), dim, ops[1..])) == Plus(d, RunDrift(g, dim, ops))
    ensures AllowedRun(g, dim, ops) ==> Allowed(g, dim, ops[0]) && AllowedRun(Plain(g, dim, ops[0]), dim, ops[1..])
  {
    hide Allowed, Plain;
  }

  // From the empty store, after any run: one edge per ordered pair between distinct stored nodes, as in
  // the plain map; the counters are a fresh fold and the drift of the run, and equal the fold exactly when no
  // edge was put without an end and no vector without its node.
  method RunFromEmpty(dim: nat, ops: seq<Op>) returns (st: Store, stats: Counters, hnswSize: nat)
    ensures fresh(st) && st.Sound() && st.dim == dim
    ensures st.View() == PlainRun(EmptyGraph, dim, ops) && Tidy(st.View())
    ensures stats == Plus(Fold(st.View()), RunDrift(EmptyGraph, dim, ops))
    ensures stats == Fold(st.View()) <==> AllowedRun(EmptyGraph, dim, ops)
    ensures st.Valid() <==> AllowedRun(EmptyGraph, dim, ops)
    ensures hnswSize == |LiveVectors(st.View())|
  {
    hide SoundDb, DriftOf, Allowed, Plain, Miscount, RunDrift, Plus, Fold;
    PlusNothing(RunDrift(EmptyGraph, dim, ops));
    st := new Store(dim);
    assert ops[0..] == ops;
    var i := 0;
    while i < |ops|
      invariant 0 <= i <= |ops| && fresh(st) && st.Sound() && st.dim == dim
      invariant PlainRun(st.View(), dim, ops[i..]) == PlainRun(EmptyGraph, dim, ops)
      invariant Plus(st.Drift(), RunDrift(st.View(), dim, ops[i..])) == RunDrift(EmptyGraph, dim, ops)
      invariant AllowedRun(EmptyGraph, dim, ops) ==> st.Named() && AllowedRun(st.View(), dim, ops[i..])
    {
      assert ops[i..][0] == ops[i] && ops[i..][1..] == ops[i + 1..];
      OneMiscount(st.Drift(), st.View(), dim, ops[i..]);
      Execute(st, ops[i]);
      i := i + 1;
    }
    NoDriftLeft(st.View(), dim);
    PlusNothing(st.Drift());
    AllowedMeansNoneMisplaced(EmptyGraph, dim, ops);
    SoundTidy(st);
    stats, hnswSize := st.TenantStats();
    FoldAndDrift(stats, st.View(), st.Drift());
  }

  lemma PlusNothing(d: Counters)
    ensures Plus(d, NoCounts) == d == Plus(NoCounts, d)
  {
  }

  lemma FoldAndDrift(c: Counters, g: Graph, d: Counters)
    requires c == Counters(|g.nodes| + d.nodeCount, |g.edges| + d.edgeCount,
                           NodeTotal(g.nodes) + d.sumNodeWeight, EdgeTotal(g.edges) + d.sumEdgeWeight)
    ensures c == Plus(Fold(g), d) && (c == Fold(g) <==> d == NoCounts)
  {
    hide NodeTotal, EdgeTotal;
  }

  lemma NoDriftLeft(g: Graph, dim: nat)
    ensures RunDrift(g, dim, []) == NoCounts
  {
  }

  lemma SoundTidy(st: Store)
    requires st.Sound()
    ensures Tidy(st.View())
  {
  }
}
