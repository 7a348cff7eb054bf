// The memory graph as a value: what callers of the storage port may rely on,
// with one directed edge per ordered pair of nodes.
module MemoryGraph {
  import opened MapSum

  // Identifiers are ULIDs, whose string order is their numeric order; 0 is the empty string.
  type Id = nat
  const NoId: Id := 0

  type Vec = seq<real>

  datatype EdgeKind = Structural | CoRetrieval | CoTraversal

  datatype Node = Node(
    sourceMsg: Id,
    spanStart: nat,
    spanEnd: nat,
    text: string,
    embeddingDim: nat,
    createdAt: int,
    lastTouched: int,
    weight: real,
    accessCount: nat,
    tombstoned: bool)

  datatype Edge = Edge(
    kind: EdgeKind,
    weight: real,
    lastTouched: int,
    createdAt: int,
    accessCount: nat,
    traverseCount: nat)

  datatype Message = Message(text: string, metadata: map<string, string>, createdAt: int)

  datatype Graph = Graph(
    nodes: map<Id, Node>,
    edges: map<(Id, Id), Edge>,
    messages: map<Id, Message>,
    vectors: map<Id, Vec>)

  const EmptyGraph := Graph(map[], map[], map[], map[])

  // No self-loops, no dangling edges, no vector without its node.
  ghost predicate Tidy(g: Graph) {
    && (forall p :: p in g.edges ==> p.0 != p.1 && p.0 in g.nodes && p.1 in g.nodes)
    && g.vectors.Keys <= g.nodes.Keys
  }

  // Tidy, and no node under the empty identifier.
  ghost predicate WellFormed(g: Graph) {
    Tidy(g) && NoId !in g.nodes
  }

  // ----- aggregates -----

  function NodeWeight(n: Node): real { n.weight }

  function EdgeWeight(e: Edge): real { e.weight }

  ghost function NodeTotal(nodes: map<Id, Node>): real { Total(nodes, NodeWeight) }

  ghost function EdgeTotal(edges: map<(Id, Id), Edge>): real { Total(edges, EdgeWeight) }

  // ----- induced subgraphs -----

  // What is left when the nodes of d are gone: the subgraph induced by the survivors.
  function Without(g: Graph, d: set<Id>): Graph {
    Graph(g.nodes - d,
          map p | p in g.edges && p.0 !in d && p.1 !in d :: g.edges[p],
          g.messages,
          g.vectors - d)
  }

  lemma WithoutTwice(g: Graph, d: set<Id>, e: set<Id>)
    ensures Without(Without(g, d), e) == Without(g, d + e)
  {
    assert g.nodes - d - e == g.nodes - (d + e);
    assert g.vectors - d - e == g.vectors - (d + e);
  }

  // ----- unordered pairs -----

  function OrderedPair(a: Id, b: Id): (Id, Id) {
    if a < b then (a, b) else (b, a)
  }

  // The key names the unordered pair: equal keys mean the same two endpoints.
  lemma OrderedPairNamesUnordered(a: Id, b: Id, c: Id, d: Id)
    ensures OrderedPair(a, b) == OrderedPair(c, d) <==> {a, b} == {c, d}
  {
    if {a, b} == {c, d} {
      assert a in {c, d} && b in {c, d} && c in {a, b} && d in {a, b};
    }
    if OrderedPair(a, b) == OrderedPair(c, d) {
      assert (a == c && b == d) || (a == d && b == c);
    }
  }

  // The distinct unordered adjacent pairs with at least one end in d.
  function PairsTouching(edges: map<(Id, Id), Edge>, d: set<Id>): set<(Id, Id)> {
    set p | p in edges && (p.0 in d || p.1 in d) :: OrderedPair(p.0, p.1)
  }

  // A pair that touches d is not a pair of the graph without d.
  lemma TouchingPairsAreGone(g: Graph, d: set<Id>, q: (Id, Id), e: set<Id>)
    requires q in PairsTouching(g.edges, d)
    ensures q !in PairsTouching(Without(g, d).edges, e)
  {
    var p :| p in g.edges && (p.0 in d || p.1 in d) && q == OrderedPair(p.0, p.1);
    forall r | r in Without(g, d).edges
      ensures q != OrderedPair(r.0, r.1)
    {
      OrderedPairNamesUnordered(p.0, p.1, r.0, r.1);
      var gone := if p.0 in d then p.0 else p.1;
      assert gone in {p.0, p.1} && gone !in {r.0, r.1};
    }
  }

  lemma TouchingPairsUnion(g: Graph, d: set<Id>, e: set<Id>)
    ensures PairsTouching(g.edges, d + e)
         == PairsTouching(g.edges, d) + PairsTouching(Without(g, d).edges, e)
  {
    var both := PairsTouching(g.edges, d + e);
    var parts := PairsTouching(g.edges, d) + PairsTouching(Without(g, d).edges, e);
    forall p | p in g.edges && (p.0 in d + e || p.1 in d + e)
      ensures OrderedPair(p.0, p.1) in parts
    {
      if !(p.0 in d || p.1 in d) {
        assert p in Without(g, d).edges && (p.0 in e || p.1 in e);
      }
    }
    assert both <= parts;
    forall p | p in g.edges && (p.0 in d || p.1 in d)
      ensures OrderedPair(p.0, p.1) in both
    {
      assert p.0 in d + e || p.1 in d + e;
    }
    forall p | p in Without(g, d).edges && (p.0 in e || p.1 in e)
      ensures OrderedPair(p.0, p.1) in both
    {
      assert p in g.edges && (p.0 in d + e || p.1 in d + e);
    }
    assert parts <= both;
  }

  // Deleting e after d: the pairs counted then are exactly those not counted before.
  lemma PairsTouchingSplit(g: Graph, d: set<Id>, e: set<Id>)
    ensures |PairsTouching(g.edges, d + e)|
         == |PairsTouching(g.edges, d)| + |PairsTouching(Without(g, d).edges, e)|
  {
    TouchingPairsUnion(g, d, e);
    forall q | q in PairsTouching(g.edges, d)
      ensures q !in PairsTouching(Without(g, d).edges, e)
    {
      TouchingPairsAreGone(g, d, q, e);
    }
    assert PairsTouching(g.edges, d) !! PairsTouching(Without(g, d).edges, e);
  }
}
