// The storage adapter: relationships keyed by (from, to, type) and one running
// counter record per tenant, each method being the body of one transaction.
module Neo4jStore {
  import opened Wrappers
  import opened MapSum
  import opened MemoryGraph

  datatype RelType = STRUCTURAL | CORETRIEVAL | COTRAVERSAL

  datatype RelKey = RelKey(from: Id, to: Id, relType: RelType)

  // Relationship properties; the kind of an edge lives in the relationship's type.
  datatype Rel = Rel(weight: real, lastTouched: int, createdAt: int, accessCount: nat, traverseCount: nat)

  datatype StoreError = NotFound | InvalidNode | InvalidEdge | InvalidMessage | InvalidVector

  function EdgeKindRelType(k: EdgeKind): RelType {
    match k
    case Structural => STRUCTURAL
    case CoRetrieval => CORETRIEVAL
    case CoTraversal => COTRAVERSAL
  }

  function RelTypeEdgeKind(t: RelType): EdgeKind {
    match t
    case STRUCTURAL => Structural
    case CORETRIEVAL => CoRetrieval
    case COTRAVERSAL => CoTraversal
  }

  function EncodeEdge(e: Edge): Rel {
    Rel(e.weight, e.lastTouched, e.createdAt, e.accessCount, e.traverseCount)
  }

  function DecodeEdge(r: Rel, t: RelType): Edge {
    Edge(RelTypeEdgeKind(t), r.weight, r.lastTouched, r.createdAt, r.accessCount, r.traverseCount)
  }

  // rels holds exactly the given edges, each under the type of its kind and no other.
  ghost predicate Represents(rels: map<RelKey, Rel>, edges: map<(Id, Id), Edge>) {
    && (forall k :: k in rels ==>
          (k.from, k.to) in edges && edges[(k.from, k.to)] == DecodeEdge(rels[k], k.relType))
    && (forall p :: p in edges ==> RelKey(p.0, p.1, EdgeKindRelType(edges[p].kind)) in rels)
  }

  // The relationship types present between one ordered pair, as a typed MATCH returns them.
  function TypesBetween(rels: map<RelKey, Rel>, from: Id, to: Id): set<RelType> {
    set t: RelType | RelKey(from, to, t) in rels
  }

  function KeysBetween(rels: map<RelKey, Rel>, from: Id, to: Id): set<RelKey> {
    set k | k in rels && k.from == from && k.to == to
  }

  // One edge per ordered pair: a typed MATCH returns one row if the edge exists, none otherwise.
  lemma OneTypePerPair(rels: map<RelKey, Rel>, edges: map<(Id, Id), Edge>, from: Id, to: Id)
    requires Represents(rels, edges)
    ensures TypesBetween(rels, from, to)
         == if (from, to) in edges then {EdgeKindRelType(edges[(from, to)].kind)} else {}
    ensures forall k, j :: k in rels && j in rels && k.from == j.from && k.to == j.to ==> k == j
  {
    forall t | t in TypesBetween(rels, from, to)
      ensures (from, to) in edges && t == EdgeKindRelType(edges[(from, to)].kind)
    {
      var k := RelKey(from, to, t);
      assert k in rels;
      assert edges[(k.from, k.to)] == DecodeEdge(rels[k], t);
    }
    forall k, j | k in rels && j in rels && k.from == j.from && k.to == j.to
      ensures k == j
    {
      assert edges[(k.from, k.to)] == DecodeEdge(rels[k], k.relType);
      assert edges[(j.from, j.to)] == DecodeEdge(rels[j], j.relType);
    }
  }

  // Dropping every relationship of a pair and merging one back is a plain map update.
  lemma RepresentsPut(rels: map<RelKey, Rel>, edges: map<(Id, Id), Edge>, from: Id, to: Id, e: Edge)
    requires Represents(rels, edges)
    ensures Represents((rels - KeysBetween(rels, from, to))[RelKey(from, to, EdgeKindRelType(e.kind)) := EncodeEdge(e)],
                       edges[(from, to) := e])
  {
    var key := RelKey(from, to, EdgeKindRelType(e.kind));
    var rels' := (rels - KeysBetween(rels, from, to))[key := EncodeEdge(e)];
    forall k | k in rels'
      ensures (k.from, k.to) in edges[(from, to) := e]
           && edges[(from, to) := e][(k.from, k.to)] == DecodeEdge(rels'[k], k.relType)
    {
      if k != key {
        assert k in rels && k !in KeysBetween(rels, from, to);
      }
    }
  }

  lemma RepresentsDrop(rels: map<RelKey, Rel>, edges: map<(Id, Id), Edge>, from: Id, to: Id)
    requires Represents(rels, edges)
    ensures Represents(rels - KeysBetween(rels, from, to), edges - {(from, to)})
  {
  }

  lemma DropSingle(rels: map<RelKey, Rel>, edges: map<(Id, Id), Edge>, k: RelKey)
    requires Represents(rels, edges) && k in rels
    ensures Represents(rels - {k}, edges - {(k.from, k.to)})
    ensures (k.from, k.to) in edges && edges[(k.from, k.to)].weight == rels[k].weight
  {
    OneTypePerPair(rels, edges, k.from, k.to);
    assert KeysBetween(rels, k.from, k.to) == {k};
    RepresentsDrop(rels, edges, k.from, k.to);
  }

  // The relationships as a transaction leaves them before its MERGE: untouched when the one
  // present already has the wanted type or is absent, otherwise cleared for the pair.
  lemma RepresentsMerge(rels: map<RelKey, Rel>, cleared: map<RelKey, Rel>, edges: map<(Id, Id), Edge>,
                        from: Id, to: Id, e: Edge)
    requires Represents(rels, edges)
    requires || cleared == rels - KeysBetween(rels, from, to)
             || (cleared == rels && TypesBetween(rels, from, to) <= {EdgeKindRelType(e.kind)})
    ensures Represents(cleared[RelKey(from, to, EdgeKindRelType(e.kind)) := EncodeEdge(e)],
                       edges[(from, to) := e])
  {
    var key := RelKey(from, to, EdgeKindRelType(e.kind));
    RepresentsPut(rels, edges, from, to, e);
    forall k | k in KeysBetween(rels, from, to) && cleared == rels
      ensures k == key
    {
      assert k.relType in TypesBetween(rels, from, to);
    }
    assert cleared[key := EncodeEdge(e)] == (rels - KeysBetween(rels, from, to))[key := EncodeEdge(e)];
  }

  lemma RowsAreEdges(rels: map<RelKey, Rel>, edges: map<(Id, Id), Edge>)
    requires Represents(rels, edges)
    ensures forall p :: p in edges <==> exists k :: k in rels && p == (k.from, k.to)
    ensures forall k, j :: k in rels && j in rels && k.from == j.from && k.to == j.to ==> k == j
  {
    forall p | p in edges ensures exists k :: k in rels && p == (k.from, k.to) {
      var k := RelKey(p.0, p.1, EdgeKindRelType(edges[p].kind));
      assert k in rels && p == (k.from, k.to);
    }
    OneTypePerPair(rels, edges, 0, 0);
  }

  lemma WithoutAbsent(g: Graph, id: Id)
    requires Tidy(g) && id !in g.nodes
    ensures Without(g, {id}) == g
  {
  }

  // Part way through a node's relationships: what is left, and what was counted.
  ghost predicate Detaching(rels: map<RelKey, Rel>, done: set<RelKey>, edges: map<(Id, Id), Edge>,
                            left: map<(Id, Id), Edge>, id: Id, ec: int, esw: real)
  {
    && Represents(rels - done, left)
    && (forall p :: p in left ==> p in edges && left[p] == edges[p])
    && (forall p :: p in edges && p !in left ==> p.0 == id || p.1 == id)
    && |left| == |edges| - ec
    && EdgeTotal(left) == EdgeTotal(edges) - esw
  }

  lemma DetachStart(rels: map<RelKey, Rel>, edges: map<(Id, Id), Edge>, id: Id)
    requires Represents(rels, edges)
    ensures Detaching(rels, {}, edges, edges, id, 0, 0.0)
  {
    assert rels - {} == rels;
  }

  // Once the attached relationships are gone, what is left is the graph without the node.
  lemma DetachEnd(rels: map<RelKey, Rel>, attached: set<RelKey>, left: map<(Id, Id), Edge>, g: Graph, id: Id,
                  ec: int, esw: real)
    requires attached == set k | k in rels && (k.from == id || k.to == id)
    requires Detaching(rels, attached, g.edges, left, id, ec, esw)
    ensures left == Without(g, {id}).edges
    ensures Represents(rels - attached, left)
    ensures |left| == |g.edges| - ec && EdgeTotal(left) == EdgeTotal(g.edges) - esw
  {
    forall p | p in left ensures p.0 != id && p.1 != id {
      assert RelKey(p.0, p.1, EdgeKindRelType(left[p].kind)) in rels - attached;
    }
  }

  lemma DetachOne(rels: map<RelKey, Rel>, done: set<RelKey>, edges: map<(Id, Id), Edge>,
                  left: map<(Id, Id), Edge>, id: Id, ec: int, esw: real, k: RelKey)
    requires Detaching(rels, done, edges, left, id, ec, esw)
    requires k in rels && k !in done && (k.from == id || k.to == id)
    ensures Detaching(rels, done + {k}, edges, left - {(k.from, k.to)}, id, ec + 1, esw + rels[k].weight)
  {
    hide Represents;
    DropSingle(rels - done, left, k);
    DropEdgeTotals(left, (k.from, k.to));
    assert rels - done - {k} == rels - (done + {k});
  }

  // ----- how each change moves the totals -----

  lemma PutNodeTotals(nodes: map<Id, Node>, id: Id, n: Node)
    ensures |nodes[id := n]| == |nodes| + if id in nodes then 0 else 1
    ensures NodeTotal(nodes[id := n]) == NodeTotal(nodes) + n.weight - if id in nodes then nodes[id].weight else 0.0
  {
    TotalSet(nodes, NodeWeight, id, n);
  }

  lemma DropNodeTotals(nodes: map<Id, Node>, id: Id)
    requires id in nodes
    ensures |nodes - {id}| == |nodes| - 1
    ensures NodeTotal(nodes - {id}) == NodeTotal(nodes) - nodes[id].weight
  {
    TotalDrop(nodes, NodeWeight, id);
  }

  lemma PutEdgeTotals(edges: map<(Id, Id), Edge>, p: (Id, Id), e: Edge)
    ensures |edges[p := e]| == |edges| + if p in edges then 0 else 1
    ensures EdgeTotal(edges[p := e]) == EdgeTotal(edges) + e.weight - if p in edges then edges[p].weight else 0.0
  {
    TotalSet(edges, EdgeWeight, p, e);
  }

  lemma DropEdgeTotals(edges: map<(Id, Id), Edge>, p: (Id, Id))
    requires p in edges
    ensures |edges - {p}| == |edges| - 1
    ensures EdgeTotal(edges - {p}) == EdgeTotal(edges) - edges[p].weight
  {
    TotalDrop(edges, EdgeWeight, p);
  }

  // ----- the database -----

  datatype Counters = Counters(nodeCount: int, edgeCount: int, sumNodeWeight: real, sumEdgeWeight: real)

  // Everything stored for one tenant. A counter record not yet created reads as zeros.
  datatype Database = Database(
    nodes: map<Id, Node>,
    rels: map<RelKey, Rel>,
    messages: map<Id, Message>,
    embeddings: map<Id, Vec>,
    counters: Counters)

  const EmptyDatabase := Database(map[], map[], map[], map[], NoCounts)

  function ViewOf(db: Database, edges: map<(Id, Id), Edge>): Graph {
    Graph(db.nodes, edges, db.messages, db.embeddings)
  }

  ghost predicate SoundDb(db: Database, edges: map<(Id, Id), Edge>) {
    Represents(db.rels, edges) && Tidy(ViewOf(db, edges))
  }

  const NoCounts := Counters(0, 0, 0.0, 0.0)

  // What the running counters say beyond a fresh fold over the store.
  ghost function DriftOf(db: Database, edges: map<(Id, Id), Edge>): Counters {
    Counters(db.counters.nodeCount - |db.nodes|,
             db.counters.edgeCount - |edges|,
             db.counters.sumNodeWeight - NodeTotal(db.nodes),
             db.counters.sumEdgeWeight - EdgeTotal(edges))
  }

  // The running counters equal a fresh fold over the store.
  ghost predicate ExactDb(db: Database, edges: map<(Id, Id), Edge>) {
    DriftOf(db, edges) == NoCounts
  }

  // The transaction's last statement: add a delta to the counter record.
  function AdjustCounters(db: Database, dn: int, de: int, dnw: real, dew: real): Database {
    db.(counters := Counters(db.counters.nodeCount + dn, db.counters.edgeCount + de,
                             db.counters.sumNodeWeight + dnw, db.counters.sumEdgeWeight + dew))
  }

  // What a typed MATCH between two nodes returns: one row carrying the edge, or none.
  lemma MatchRow(db: Database, edges: map<(Id, Id), Edge>, from: Id, to: Id)
    requires SoundDb(db, edges)
    ensures (from, to) !in edges ==> TypesBetween(db.rels, from, to) == {}
    ensures (from, to) in edges ==>
              var t := EdgeKindRelType(edges[(from, to)].kind);
              && TypesBetween(db.rels, from, to) == {t}
              && RelKey(from, to, t) in db.rels
              && DecodeEdge(db.rels[RelKey(from, to, t)], t) == edges[(from, to)]
    ensures (from, to) in edges ==> from != to && from in db.nodes && to in db.nodes
  {
    OneTypePerPair(db.rels, edges, from, to);
  }

  lemma TidyPut(g: Graph, p: (Id, Id), e: Edge)
    requires Tidy(g) && p.0 != p.1 && p.0 in g.nodes && p.1 in g.nodes
    ensures Tidy(g.(edges := g.edges[p := e]))
  {
  }

  lemma TidyWithout(g: Graph, d: set<Id>)
    requires Tidy(g)
    ensures Tidy(Without(g, d))
  {
  }

  // The committed copy after one edge was written between two present nodes.
  lemma EdgeWritten(db: Database, tx: Database, edges: map<(Id, Id), Edge>, from: Id, to: Id, e: Edge, tx': Database)
    requires SoundDb(db, edges)
    requires from != to && from in db.nodes && to in db.nodes
    requires || tx == db.(rels := db.rels - KeysBetween(db.rels, from, to))
             || (tx == db && TypesBetween(db.rels, from, to) <= {EdgeKindRelType(e.kind)})
    requires tx' == AdjustCounters(
                      tx.(rels := tx.rels[RelKey(from, to, EdgeKindRelType(e.kind)) := EncodeEdge(e)]),
                      0, if (from, to) in edges then 0 else 1,
                      0.0, e.weight - if (from, to) in edges then edges[(from, to)].weight else 0.0)
    ensures SoundDb(tx', edges[(from, to) := e]) && DriftOf(tx', edges[(from, to) := e]) == DriftOf(db, edges)
  {
    hide Represents, Tidy;
    TidyPut(ViewOf(db, edges), (from, to), e);
    PutEdgeTotals(edges, (from, to), e);
    RepresentsMerge(db.rels, tx.rels, edges, from, to, e);
  }

  // The committed copy after the one edge of a pair was deleted.
  lemma EdgeDeleted(db: Database, edges: map<(Id, Id), Edge>, from: Id, to: Id, tx': Database)
    requires SoundDb(db, edges) && (from, to) in edges
    requires tx' == AdjustCounters(db.(rels := db.rels - KeysBetween(db.rels, from, to)),
                                   0, -1, 0.0, -edges[(from, to)].weight)
    ensures SoundDb(tx', edges - {(from, to)}) && DriftOf(tx', edges - {(from, to)}) == DriftOf(db, edges)
  {
    hide Represents, Tidy, KeysBetween, EdgeTotal, NodeTotal;
    DropEdgeTotals(edges, (from, to));
    RepresentsDrop(db.rels, edges, from, to);
    TidyDrop(ViewOf(db, edges), (from, to));
  }

  lemma TidyDrop(g: Graph, p: (Id, Id))
    requires Tidy(g)
    ensures Tidy(g.(edges := g.edges - {p}))
  {
  }

  lemma SoundRels(db: Database, edges: map<(Id, Id), Edge>)
    requires SoundDb(db, edges)
    ensures Represents(db.rels, edges) && Tidy(ViewOf(db, edges))
  {
  }

  // The committed copy after a node and everything attached to it was deleted.
  lemma NodeDeleted(db: Database, g: Graph, id: Id, attached: set<RelKey>, ec: int, esw: real, w: real, tx': Database)
    requires SoundDb(db, g.edges) && g == ViewOf(db, g.edges) && id in db.nodes
    requires Represents(db.rels - attached, Without(g, {id}).edges)
    requires |Without(g, {id}).edges| == |g.edges| - ec && w == db.nodes[id].weight
    requires EdgeTotal(Without(g, {id}).edges) == EdgeTotal(g.edges) - esw
    requires tx' == AdjustCounters(
                      db.(nodes := db.nodes - {id}, embeddings := db.embeddings - {id}, rels := db.rels - attached),
                      -1, -ec, -w, -esw)
    ensures SoundDb(tx', Without(g, {id}).edges) && DriftOf(tx', Without(g, {id}).edges) == DriftOf(db, g.edges)
    ensures ViewOf(tx', Without(g, {id}).edges) == Without(g, {id}) && tx'.nodes.Keys <= db.nodes.Keys
  {
    hide Represents, Tidy, EdgeTotal, NodeTotal;
    var h := Without(g, {id});
    TidyWithout(g, {id});
    DropNodeTotals(db.nodes, id);
    ViewAfterDelete(db, g, id, tx');
    assert SoundDb(tx', h.edges);
    DriftAfterDelete(db, g, id, ec, esw, w, tx');
  }

  lemma ViewAfterDelete(db: Database, g: Graph, id: Id, tx': Database)
    requires g == ViewOf(db, g.edges)
    requires tx'.nodes == db.nodes - {id} && tx'.embeddings == db.embeddings - {id} && tx'.messages == db.messages
    ensures ViewOf(tx', Without(g, {id}).edges) == Without(g, {id})
  {
  }

  lemma DriftAfterDelete(db: Database, g: Graph, id: Id, ec: int, esw: real, w: real, tx': Database)
    requires |tx'.nodes| == |db.nodes| - 1 && NodeTotal(tx'.nodes) == NodeTotal(db.nodes) - w
    requires |Without(g, {id}).edges| == |g.edges| - ec && EdgeTotal(Without(g, {id}).edges) == EdgeTotal(g.edges) - esw
    requires tx'.counters == Counters(db.counters.nodeCount - 1, db.counters.edgeCount - ec,
                                      db.counters.sumNodeWeight - w, db.counters.sumEdgeWeight - esw)
    ensures DriftOf(tx', Without(g, {id}).edges) == DriftOf(db, g.edges)
  {
    hide NodeTotal, EdgeTotal, Without;
  }

  // ----- the adapter: one method per transaction, committing its copy at the end -----

  class Store {
    const dim: nat
    var db: Database

    // The one-edge-per-pair reading of db.rels.
    ghost var edges: map<(Id, Id), Edge>

    ghost function View(): Graph
      reads this
    {
      ViewOf(db, edges)
    }

    ghost predicate Sound()
      reads this
    {
      SoundDb(db, edges)
    }

    ghost function Drift(): Counters
      reads this
    {
      DriftOf(db, edges)
    }

    ghost predicate Exact()
      reads this
    {
      ExactDb(db, edges)
    }

    // No node under the empty identifier.
    ghost predicate Named()
      reads this
    {
      NoId !in db.nodes
    }

    ghost predicate Valid()
      reads this
    {
      Sound() && Exact() && Named()
    }

    constructor (dim: nat)
      ensures Valid() && View() == EmptyGraph && this.dim == dim
    {
      this.dim := dim;
      db, edges := EmptyDatabase, map[];
    }

    // ----- nodes -----

    method PutNode(id: Id, n: Node) returns (r: Result<(), StoreError>)
      requires Sound()
      modifies this
      ensures Sound() && Drift() == old(Drift()) && (old(Named()) ==> Named())
      ensures r == if id == NoId then Failure(InvalidNode) else Success(())
      ensures View() == if id == NoId then old(View()) else old(View()).(nodes := old(View()).nodes[id := n])
    {
      hide Represents, EdgeTotal;
      if id == NoId {
        return Failure(InvalidNode);
      }
      var tx := db;
      PutNodeTotals(tx.nodes, id, n);
      var isNew := id !in tx.nodes;
      var oldWeight := if isNew then 0.0 else tx.nodes[id].weight;
      tx := tx.(nodes := tx.nodes[id := n]);
      db := AdjustCounters(tx, if isNew then 1 else 0, 0, n.weight - oldWeight, 0.0);
      return Success(());
    }

    method GetNode(id: Id) returns (r: Result<Node, StoreError>)
      ensures r == if id in View().nodes then Success(View().nodes[id]) else Failure(NotFound)
    {
      r := if id in db.nodes then Success(db.nodes[id]) else Failure(NotFound);
    }

    // Returns what the closure captured: the node as written.
    method UpdateNode(id: Id, fn: Node -> Node) returns (r: Result<Node, StoreError>)
      requires Sound()
      modifies this
      ensures Sound() && Drift() == old(Drift()) && (old(Named()) ==> Named())
      ensures r == if id in old(View()).nodes then Success(fn(old(View()).nodes[id])) else Failure(NotFound)
      ensures View() == if r.Success? then old(View()).(nodes := old(View()).nodes[id := r.value]) else old(View())
    {
      var tx := db;
      if id !in tx.nodes {
        return Failure(NotFound);
      }
      var oldWeight := tx.nodes[id].weight;
      var current := fn(tx.nodes[id]);
      PutNodeTotals(tx.nodes, id, current);
      tx := tx.(nodes := tx.nodes[id := current]);
      db := AdjustCounters(tx, 0, 0, current.weight - oldWeight, 0.0);
      return Success(current);
    }

    // DETACH DELETE: every attached edge goes with the node, in both directions.
    method DeleteNode(id: Id)
      requires Sound()
      modifies this
      ensures Sound() && Drift() == old(Drift()) && (old(Named()) ==> Named())
      ensures View() == Without(old(View()), {id})
    {
      hide Represents, Tidy, SoundDb, DriftOf, Without, AdjustCounters;
      ghost var g := View();
      SoundRels(db, edges);
      var tx := db;
      if id !in tx.nodes {
        WithoutAbsent(g, id);
        return;
      }
      var attached := set k | k in tx.rels && (k.from == id || k.to == id);
      var ec, esw := CountAttached(tx.rels, attached, g, id);
      var w := tx.nodes[id].weight;
      tx := tx.(nodes := tx.nodes - {id}, embeddings := tx.embeddings - {id}, rels := tx.rels - attached);
      tx := AdjustCounters(tx, -1, -ec, -w, -esw);
      NodeDeleted(db, g, id, attached, ec, esw, w, tx);
      edges := Without(g, {id}).edges;
      db := tx;
    }

    // The count and weight sum of a node's edges.
    static method CountAttached(rels: map<RelKey, Rel>, attached: set<RelKey>, ghost g: Graph, id: Id)
      returns (ec: int, esw: real)
      requires Represents(rels, g.edges)
      requires attached == set k | k in rels && (k.from == id || k.to == id)
      ensures Represents(rels - attached, Without(g, {id}).edges)
      ensures |Without(g, {id}).edges| == |g.edges| - ec
      ensures EdgeTotal(Without(g, {id}).edges) == EdgeTotal(g.edges) - esw
    {
      hide Detaching, Represents;
      ec, esw := 0, 0.0;
      ghost var left := g.edges;
      var done: set<RelKey> := {};
      DetachStart(rels, g.edges, id);
      while attached - done != {}
        invariant done <= attached
        invariant Detaching(rels, done, g.edges, left, id, ec, esw)
        decreases attached - done
      {
        var k :| k in attached - done;
        DetachOne(rels, done, g.edges, left, id, ec, esw, k);
        ec, esw := ec + 1, esw + rels[k].weight;
        left := left - {(k.from, k.to)};
        done := done + {k};
      }
      assert forall k :: k in attached && k !in done ==> k in attached - done;
      assert done == attached;
      DetachEnd(rels, attached, left, g, id, ec, esw);
    }

    // ----- messages -----

    method PutMessage(id: Id, m: Message) returns (r: Result<(), StoreError>)
      requires Sound()
      modifies this
      ensures Sound() && Drift() == old(Drift()) && (old(Named()) ==> Named())
      ensures r == if id == NoId then Failure(InvalidMessage) else Success(())
      ensures View() == if id == NoId then old(View())
                        else old(View()).(messages := old(View()).messages[id := m])
    {
      if id == NoId {
        return Failure(InvalidMessage);
      }
      db := db.(messages := db.messages[id := m]);
      return Success(());
    }

    method GetMessage(id: Id) returns (r: Result<Message, StoreError>)
      ensures r == if id in View().messages then Success(View().messages[id]) else Failure(NotFound)
    {
      r := if id in db.messages then Success(db.messages[id]) else Failure(NotFound);
    }

    method DeleteMessage(id: Id)
      requires Sound()
      modifies this
      ensures Sound() && Drift() == old(Drift()) && (old(Named()) ==> Named())
      ensures View() == old(View()).(messages := old(View()).messages - {id})
    {
      hide Represents, NodeTotal, EdgeTotal;
      db := db.(messages := db.messages - {id});
    }

    // ----- edges -----

    // With an endpoint missing the merge does nothing and the counters still move.
    method PutEdge(from: Id, to: Id, e: Edge) returns (r: Result<(), StoreError>)
      requires Sound()
      modifies this
      ensures r == if from == NoId || to == NoId || from == to then Failure(InvalidEdge) else Success(())
      ensures View() == if r.Success? && from in old(View()).nodes && to in old(View()).nodes
                        then old(View()).(edges := old(View()).edges[(from, to) := e]) else old(View())
      ensures Sound() && (old(Named()) ==> Named())
      ensures Drift() == if r.Failure? || (from in old(View()).nodes && to in old(View()).nodes) then old(Drift())
                         else EdgeMiscounted(old(Drift()), e)
    {
      hide Represents, Tidy;
      if from == NoId || to == NoId || from == to {
        return Failure(InvalidEdge);
      }
      var tx := db;
      var relType := EdgeKindRelType(e.kind);
      MatchRow(db, edges, from, to);
      var types := TypesBetween(tx.rels, from, to);
      var isNew := types == {};
      var oldWeight := 0.0;
      if !isNew {
        var t :| t in types;
        oldWeight := tx.rels[RelKey(from, to, t)].weight;
        if t != relType {
          tx := tx.(rels := tx.rels - KeysBetween(tx.rels, from, to));
        }
      }
      ghost var cleared := tx;
      if from in tx.nodes && to in tx.nodes {
        tx := tx.(rels := tx.rels[RelKey(from, to, relType) := EncodeEdge(e)]);
      }
      tx := AdjustCounters(tx, 0, if isNew then 1 else 0, 0.0, e.weight - oldWeight);
      if from in tx.nodes && to in tx.nodes {
        EdgeWritten(db, cleared, edges, from, to, e, tx);
        edges := edges[(from, to) := e];
      }
      db := tx;
      return Success(());
    }

    method GetEdge(from: Id, to: Id) returns (r: Option<Edge>)
      requires Sound()
      ensures r == if (from, to) in View().edges then Some(View().edges[(from, to)]) else None
    {
      MatchRow(db, edges, from, to);
      var types := TypesBetween(db.rels, from, to);
      if types == {} {
        return None;
      }
      var t :| t in types;
      return Some(DecodeEdge(db.rels[RelKey(from, to, t)], t));
    }

    // Returns what the closure captured: the edge as written.
    method UpdateEdge(from: Id, to: Id, fn: Edge -> Edge) returns (r: Result<Edge, StoreError>)
      requires Sound()
      modifies this
      ensures Sound() && Drift() == old(Drift()) && (old(Named()) ==> Named())
      ensures r == if (from, to) in old(View()).edges then Success(fn(old(View()).edges[(from, to)])) else Failure(NotFound)
      ensures View() == if r.Success? then old(View()).(edges := old(View()).edges[(from, to) := r.value])
                        else old(View())
    {
      hide Represents, Tidy;
      var tx := db;
      MatchRow(db, edges, from, to);
      var types := TypesBetween(tx.rels, from, to);
      if types == {} {
        return Failure(NotFound);
      }
      var oldRelType :| oldRelType in types;
      var key := RelKey(from, to, oldRelType);
      var current := fn(DecodeEdge(tx.rels[key], oldRelType));
      var oldWeight := tx.rels[key].weight;
      var newRelType := EdgeKindRelType(current.kind);
      if newRelType != oldRelType {
        tx := tx.(rels := tx.rels - KeysBetween(tx.rels, from, to));
      }
      ghost var cleared := tx;
      tx := tx.(rels := tx.rels[RelKey(from, to, newRelType) := EncodeEdge(current)]);
      tx := AdjustCounters(tx, 0, 0, 0.0, current.weight - oldWeight);
      EdgeWritten(db, cleared, edges, from, to, current, tx);
      edges := edges[(from, to) := current];
      db := tx;
      return Success(current);
    }

    // Only a single matching row is deleted: none, or several, would be left silently.
    method DeleteEdge(from: Id, to: Id)
      requires Sound()
      modifies this
      ensures Sound() && Drift() == old(Drift()) && (old(Named()) ==> Named())
      ensures View() == old(View()).(edges := old(View()).edges - {(from, to)})
    {
      hide Represents, Tidy;
      var tx := db;
      MatchRow(db, edges, from, to);
      var types := TypesBetween(tx.rels, from, to);
      if |types| != 1 {
        return;
      }
      var t :| t in types;
      var w := tx.rels[RelKey(from, to, t)].weight;
      tx := tx.(rels := tx.rels - KeysBetween(tx.rels, from, to));
      tx := AdjustCounters(tx, 0, -1, 0.0, -w);
      EdgeDeleted(db, edges, from, to, tx);
      edges := edges - {(from, to)};
      db := tx;
    }

    // ----- queries -----

    // The edges leaving id, in no particular order.
    method Neighbors(id: Id) returns (out: seq<(Id, Id)>)
      requires Sound()
      ensures forall p :: p in out <==> p in View().edges && p.0 == id
      ensures forall i, j :: 0 <= i < j < |out| ==> out[i] != out[j]
    {
      RowsAreEdges(db.rels, edges);
      out := Rows(set k | k in db.rels && k.from == id);
    }

    method InboundNeighbors(id: Id) returns (out: seq<(Id, Id)>)
      requires Sound()
      ensures forall p :: p in out <==> p in View().edges && p.1 == id
      ensures forall i, j :: 0 <= i < j < |out| ==> out[i] != out[j]
    {
      RowsAreEdges(db.rels, edges);
      out := Rows(set k | k in db.rels && k.to == id);
    }

    static method Rows(keys: set<RelKey>) returns (out: seq<(Id, Id)>)
      requires forall k, j :: k in keys && j in keys && k.from == j.from && k.to == j.to ==> k == j
      ensures forall p :: p in out <==> exists k :: k in keys && p == (k.from, k.to)
      ensures forall i, j :: 0 <= i < j < |out| ==> out[i] != out[j]
    {
      var todo := keys;
      out := [];
      while todo != {}
        invariant todo <= keys
        invariant forall p :: p in out <==> exists k :: k in keys - todo && p == (k.from, k.to)
        invariant forall i, j :: 0 <= i < j < |out| ==> out[i] != out[j]
      {
        var k :| k in todo;
        assert (k.from, k.to) !in out;
        out := out + [(k.from, k.to)];
        assert keys - (todo - {k}) == (keys - todo) + {k};
        todo := todo - {k};
      }
      assert keys - todo == keys;
    }

    // Every node whose source message is msg, in no particular order.
    method NodesForMessage(msg: Id) returns (out: seq<Id>)
      ensures forall id :: id in out <==> id in View().nodes && View().nodes[id].sourceMsg == msg
      ensures forall i, j :: 0 <= i < j < |out| ==> out[i] != out[j]
    {
      out := Enumerate(set id | id in db.nodes && db.nodes[id].sourceMsg == msg);
    }

    method MessageIDsBefore(before: int) returns (out: seq<Id>)
      ensures forall id :: id in out <==> id in View().messages && View().messages[id].createdAt < before
      ensures forall i, j :: 0 <= i < j < |out| ==> out[i] != out[j]
    {
      out := Enumerate(set id | id in db.messages && db.messages[id].createdAt < before);
    }

    static method Enumerate(s: set<Id>) returns (out: seq<Id>)
      ensures forall id :: id in out <==> id in s
      ensures forall i, j :: 0 <= i < j < |out| ==> out[i] != out[j]
    {
      var todo := s;
      out := [];
      while todo != {}
        invariant todo <= s
        invariant forall id :: id in out <==> id in s && id !in todo
        invariant forall i, j :: 0 <= i < j < |out| ==> out[i] != out[j]
      {
        var id :| id in todo;
        out, todo := out + [id], todo - {id};
      }
    }

    // Up to maxN nodes created at or after since and not from message exclude, newest first.
    method RecentNodeIDs(since: int, exclude: Id, maxN: int) returns (out: seq<Id>)
      ensures IsRecentList(View().nodes, since, exclude, maxN, out) && NewestFirst(View().nodes, since, exclude, maxN, out)
    {
      hide NewestFirst;
      out := [];
      if maxN <= 0 {
        RecentListIsNewestFirst(db.nodes, since, exclude, maxN, out);
        return;
      }
      var nodes := db.nodes;
      var rest := set id | id in nodes && nodes[id].createdAt >= since && nodes[id].sourceMsg != exclude;
      while |out| < maxN && rest != {}
        invariant |out| <= maxN
        invariant forall id :: id in rest <==> IsRecent(nodes, since, exclude, id) && id !in out
        invariant forall id :: id in out ==> IsRecent(nodes, since, exclude, id)
        invariant forall i, j :: 0 <= i < j < |out| ==> Newer(nodes, out[i], out[j])
        invariant forall i, id :: 0 <= i < |out| && id in rest ==> Newer(nodes, out[i], id)
        decreases rest
      {
        var id := Newest(nodes, rest);
        out, rest := out + [id], rest - {id};
      }
      RecentListIsNewestFirst(nodes, since, exclude, maxN, out);
    }

    static method Newest(nodes: map<Id, Node>, s: set<Id>) returns (best: Id)
      requires s != {} && s <= nodes.Keys
      ensures best in s && forall id :: id in s && id != best ==> Newer(nodes, best, id)
    {
      best :| best in s;
      var todo := s - {best};
      while todo != {}
        invariant todo <= s && best in s
        invariant forall id :: id in s && id !in todo && id != best ==> Newer(nodes, best, id)
      {
        var id :| id in todo;
        if Newer(nodes, id, best) {
          best := id;
        }
        todo := todo - {id};
      }
    }

    // Reads the running counters; only the live vectors are counted on the spot.
    method TenantStats() returns (c: Counters, hnswSize: nat)
      ensures c == Counters(|View().nodes| + Drift().nodeCount, |View().edges| + Drift().edgeCount,
                            NodeTotal(View().nodes) + Drift().sumNodeWeight, EdgeTotal(View().edges) + Drift().sumEdgeWeight)
      ensures Exact() ==> c == Counters(|View().nodes|, |View().edges|, NodeTotal(View().nodes), EdgeTotal(View().edges))
      ensures hnswSize == |LiveVectors(View())|
    {
      c := db.counters;
      var live := set id | id in db.nodes && !db.nodes[id].tombstoned && id in db.embeddings;
      assert live == LiveVectors(View());
      hnswSize := |live|;
    }

    // ----- the vector index -----

    // The merge creates a missing node without counting it.
    method InsertVector(id: Id, vec: Vec) returns (r: Result<(), StoreError>)
      requires Sound()
      modifies this
      ensures r == if |vec| != dim then Failure(InvalidVector) else Success(())
      ensures View() == if r.Failure? then old(View())
                        else if id in old(View()).nodes then WithVector(old(View()), id, vec)
                        else WithBlankNode(old(View()), id, vec)
      ensures Drift() == if r.Failure? || id in old(View()).nodes then old(Drift()) else NodeMiscounted(old(Drift()))
      ensures Sound() && (old(Named()) && (r.Failure? || id in old(View()).nodes || id != NoId) ==> Named())
    {
      if |vec| != dim {
        return Failure(InvalidVector);
      }
      var row := if id in db.nodes then db.nodes[id] else BlankNode;
      row := row.(embeddingDim := dim);
      PutNodeTotals(db.nodes, id, row);
      db := db.(nodes := db.nodes[id := row], embeddings := db.embeddings[id := vec]);
      return Success(());
    }

    // Tombstones the node; search skips it from then on.
    method DeleteVector(id: Id)
      requires Sound()
      modifies this
      ensures Sound() && Drift() == old(Drift()) && (old(Named()) ==> Named())
      ensures View() == Tombstoned(old(View()), id)
    {
      if id in db.nodes {
        PutNodeTotals(db.nodes, id, db.nodes[id].(tombstoned := true));
        db := db.(nodes := db.nodes[id := db.nodes[id].(tombstoned := true)]);
      }
    }
  }

  // A stored edge joins two distinct, present nodes.
  lemma StoredEdge(st: Store, p: (Id, Id))
    requires st.Valid() && p in st.View().edges
    ensures p.0 != p.1 && p.0 in st.View().nodes && p.1 in st.View().nodes
  {
  }

  lemma StoredNode(st: Store, id: Id)
    requires st.Valid() && id in st.View().nodes
    ensures id != NoId
  {
  }

  // A node created by a merge on its key alone: every other property reads as zero.
  const BlankNode := Node(NoId, 0, 0, "", 0, 0, 0, 0.0, 0, false)

  function WithVector(g: Graph, id: Id, vec: Vec): Graph
    requires id in g.nodes
  {
    g.(nodes := g.nodes[id := g.nodes[id].(embeddingDim := |vec|)], vectors := g.vectors[id := vec])
  }

  function WithBlankNode(g: Graph, id: Id, vec: Vec): Graph {
    g.(nodes := g.nodes[id := Node(NoId, 0, 0, "", |vec|, 0, 0, 0.0, 0, false)], vectors := g.vectors[id := vec])
  }

  // The nodes a search may return.
  function LiveVectors(g: Graph): set<Id> {
    set id | id in g.nodes && !g.nodes[id].tombstoned && id in g.vectors
  }

  function EdgeMiscounted(d: Counters, e: Edge): Counters {
    d.(edgeCount := d.edgeCount + 1, sumEdgeWeight := d.sumEdgeWeight + e.weight)
  }

  function NodeMiscounted(d: Counters): Counters {
    d.(nodeCount := d.nodeCount - 1)
  }

  function Tombstoned(g: Graph, id: Id): Graph {
    if id in g.nodes then g.(nodes := g.nodes[id := g.nodes[id].(tombstoned := true)]) else g
  }

  predicate IsRecent(nodes: map<Id, Node>, since: int, exclude: Id, id: Id) {
    id in nodes && nodes[id].createdAt >= since && nodes[id].sourceMsg != exclude
  }

  predicate Newer(nodes: map<Id, Node>, a: Id, b: Id) {
    && a in nodes && b in nodes
    && (nodes[a].createdAt > nodes[b].createdAt || (nodes[a].createdAt == nodes[b].createdAt && a > b))
  }

  // The newest maxN of the recent nodes (all of them when fewer), strictly newest first.
  ghost predicate IsRecentList(nodes: map<Id, Node>, since: int, exclude: Id, maxN: int, out: seq<Id>) {
    && |out| <= (if maxN <= 0 then 0 else maxN)
    && (forall i :: 0 <= i < |out| ==> IsRecent(nodes, since, exclude, out[i]))
    && (forall i, j :: 0 <= i < j < |out| ==> Newer(nodes, out[i], out[j]))
    && (forall id :: IsRecent(nodes, since, exclude, id) && id !in out && maxN > 0 ==>
          |out| == maxN && forall i :: 0 <= i < |out| ==> Newer(nodes, out[i], id))
  }

  // The same on the stored times and identifiers: creation times never rise along the list, identifiers fall between
  // equal times, and what the list leaves out, it leaves out because it is full and everything in it is newer.
  ghost predicate NewestFirst(nodes: map<Id, Node>, since: int, exclude: Id, maxN: int, out: seq<Id>) {
    && (forall id :: id in out ==> id in nodes && since <= nodes[id].createdAt && nodes[id].sourceMsg != exclude)
    && (forall i, j :: 0 <= i < j < |out| ==> nodes[out[j]].createdAt <= nodes[out[i]].createdAt)
    && (forall i, j :: 0 <= i < j < |out| && nodes[out[j]].createdAt == nodes[out[i]].createdAt ==> out[j] < out[i])
    && (if maxN <= 0 then out == [] else |out| <= maxN)
    && (forall id :: id in nodes && since <= nodes[id].createdAt && nodes[id].sourceMsg != exclude && id !in out && maxN > 0 ==>
          && |out| == maxN
          && var last := out[maxN - 1];
             && last in nodes && nodes[id].createdAt <= nodes[last].createdAt
             && (nodes[id].createdAt == nodes[last].createdAt ==> id < last))
  }

  lemma RecentListIsNewestFirst(nodes: map<Id, Node>, since: int, exclude: Id, maxN: int, out: seq<Id>)
    requires IsRecentList(nodes, since, exclude, maxN, out)
    ensures NewestFirst(nodes, since, exclude, maxN, out)
  {
    forall id | id in nodes && since <= nodes[id].createdAt && nodes[id].sourceMsg != exclude && id !in out && maxN > 0
      ensures |out| == maxN && Newer(nodes, out[maxN - 1], id)
    {
      assert IsRecent(nodes, since, exclude, id);
    }
  }

  // No other node of the list comes before a node unless it is newer, and no node left out is newer than one in it.
  lemma NewestFirstOrder(nodes: map<Id, Node>, since: int, exclude: Id, maxN: int, out: seq<Id>, i: nat, id: Id)
    requires NewestFirst(nodes, since, exclude, maxN, out) && i < |out| && IsRecent(nodes, since, exclude, id)
    requires forall j :: 0 <= j <= i ==> out[j] != id
    ensures Newer(nodes, out[i], id)
  {
    assert out[i] in out;
    if id !in out {
      assert out[maxN - 1] in out;
    }
  }

  lemma Listed(nodes: map<Id, Node>, since: int, exclude: Id, maxN: int, out: seq<Id>, i: nat)
    requires NewestFirst(nodes, since, exclude, maxN, out) && i < |out|
    ensures out[i] in out && IsRecent(nodes, since, exclude, out[i]) && forall j :: 0 <= j < i ==> out[j] != out[i]
  {
    assert out[i] in out;
  }

  lemma SameNext(nodes: map<Id, Node>, since: int, exclude: Id, maxN: int, out: seq<Id>, other: seq<Id>, i: nat)
    requires NewestFirst(nodes, since, exclude, maxN, out) && NewestFirst(nodes, since, exclude, maxN, other)
    requires i < |out| && i < |other| && forall j :: 0 <= j < i ==> out[j] == other[j]
    ensures out[i] == other[i]
  {
    hide NewestFirst, IsRecent;
    Listed(nodes, since, exclude, maxN, out, i);
    Listed(nodes, since, exclude, maxN, other, i);
    if out[i] != other[i] {
      NewestFirstOrder(nodes, since, exclude, maxN, out, i, other[i]);
      NewestFirstOrder(nodes, since, exclude, maxN, other, i, out[i]);
    }
  }

  lemma {:induction false} NewestFirstAgree(nodes: map<Id, Node>, since: int, exclude: Id, maxN: int, out: seq<Id>, other: seq<Id>, i: nat)
    requires NewestFirst(nodes, since, exclude, maxN, out) && NewestFirst(nodes, since, exclude, maxN, other)
    requires i <= |out| && i <= |other|
    ensures forall j :: 0 <= j < i ==> out[j] == other[j]
  {
    hide NewestFirst;
    if i > 0 {
      NewestFirstAgree(nodes, since, exclude, maxN, out, other, i - 1);
      SameNext(nodes, since, exclude, maxN, out, other, i - 1);
    }
  }

  lemma NoneMissing(nodes: map<Id, Node>, since: int, exclude: Id, maxN: int, out: seq<Id>, other: seq<Id>)
    requires NewestFirst(nodes, since, exclude, maxN, out) && NewestFirst(nodes, since, exclude, maxN, other)
    requires |out| <= |other| && forall j :: 0 <= j < |out| ==> out[j] == other[j]
    ensures |out| == |other|
  {
    if |out| < |other| {
      Listed(nodes, since, exclude, maxN, other, |out|);
    }
  }

  // There is only one such list, so it is the one of the query.
  lemma OneNewestFirst(nodes: map<Id, Node>, since: int, exclude: Id, maxN: int, out: seq<Id>, other: seq<Id>)
    requires NewestFirst(nodes, since, exclude, maxN, out) && NewestFirst(nodes, since, exclude, maxN, other)
    ensures out == other
  {
    hide NewestFirst;
    var n := if |out| <= |other| then |out| else |other|;
    NewestFirstAgree(nodes, since, exclude, maxN, out, other, n);
    if |out| <= |other| {
      NoneMissing(nodes, since, exclude, maxN, out, other);
    } else {
      NoneMissing(nodes, since, exclude, maxN, other, out);
    }
  }
}
