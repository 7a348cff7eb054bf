// Service operations as steps on the memory graph, and what every sequential run of them keeps.
module Runs {
  import opened Wrappers
  import opened Chunker
  import opened RealPower
  import opened MemoryGraph
  import opened Dynamics

  // ----- one edge -----

  function NewEdge(cfg: Config, kind: EdgeKind, delta: real, co: bool, now: int): Edge {
    Edge(kind, CapWeight(delta, cfg.weightCap), now, now,
         if co && kind == CoRetrieval then 1 else 0,
         if co && kind == CoTraversal then 1 else 0)
  }

  // Decays at the rate of the incoming kind; the stored kind is only ever promoted.
  function ReinforcedEdge(cfg: Config, e: Edge, kind: EdgeKind, delta: real, co: bool, now: int): Edge {
    Edge(if KindRank(kind) > KindRank(e.kind) then kind else e.kind,
         CapWeight(Decay(e.weight, RateForKind(cfg, kind), now - e.lastTouched) + delta, cfg.weightCap),
         now,
         e.createdAt,
         e.accessCount + if co && kind == CoRetrieval then 1 else 0,
         e.traverseCount + if co && kind == CoTraversal then 1 else 0)
  }

  // Decays at the rate of the stored kind.
  function DecayedEdge(cfg: Config, e: Edge, now: int): Edge {
    e.(weight := Decay(e.weight, RateForKind(cfg, e.kind), now - e.lastTouched), lastTouched := now)
  }

  function KeepOrPrune(cfg: Config, g: Graph, p: (Id, Id), e: Edge): Graph {
    if e.weight < cfg.edgeFloor then g.(edges := g.edges - {p}) else g.(edges := g.edges[p := e])
  }

  function ReinforceEdge(cfg: Config, g: Graph, p: (Id, Id), kind: EdgeKind, delta: real, co: bool, now: int): Graph {
    if p in g.edges then KeepOrPrune(cfg, g, p, ReinforcedEdge(cfg, g.edges[p], kind, delta, co, now))
    else if NewEdge(cfg, kind, delta, co, now).weight < cfg.edgeFloor then g
    else g.(edges := g.edges[p := NewEdge(cfg, kind, delta, co, now)])
  }

  function ReadEdge(cfg: Config, g: Graph, p: (Id, Id), now: int): Graph {
    if p in g.edges then KeepOrPrune(cfg, g, p, DecayedEdge(cfg, g.edges[p], now)) else g
  }

  // What a reader at the given time is told about an edge.
  function Reading(cfg: Config, g: Graph, p: (Id, Id), now: int): Option<Edge> {
    if p in g.edges && DecayedEdge(cfg, g.edges[p], now).weight >= cfg.edgeFloor
    then Some(DecayedEdge(cfg, g.edges[p], now)) else None
  }

  // ----- the laws of one edge -----

  // Each kind of edge ages at its own rate.
  ghost predicate EdgeAgedTo(cfg: Config, w: real, kind: EdgeKind, touched: int, now: int, x: real) {
    && (kind == Structural ==> AgedTo(w, cfg.edgeStructuralRate, touched, now, x))
    && (kind == CoRetrieval ==> AgedTo(w, cfg.edgeCoRetrievalRate, touched, now, x))
    && (kind == CoTraversal ==> AgedTo(w, cfg.edgeCoTraversalRate, touched, now, x))
  }

  // A co-traversal makes a co-traversal edge, a co-retrieval makes a co-retrieval edge of a structural one, and
  // nothing else changes the kind.
  predicate Promotes(was: EdgeKind, link: EdgeKind, later: EdgeKind) {
    && (link == CoTraversal ==> later == CoTraversal)
    && (link == CoRetrieval ==> later == if was == CoTraversal then CoTraversal else CoRetrieval)
    && (link == Structural ==> later == was)
  }

  predicate Counts(kind: EdgeKind, co: bool, accesses: int, traversals: int) {
    && accesses == (if co && kind == CoRetrieval then 1 else 0)
    && traversals == (if co && kind == CoTraversal then 1 else 0)
  }

  // f is the edge e after a reinforcement, before it is pruned or kept.
  ghost predicate ReinforceLaw(cfg: Config, e: Edge, f: Edge, kind: EdgeKind, delta: real, co: bool, now: int) {
    && f.lastTouched == now && f.createdAt == e.createdAt && Promotes(e.kind, kind, f.kind)
    && Counts(kind, co, f.accessCount - e.accessCount, f.traverseCount - e.traverseCount)
    && exists x :: EdgeAgedTo(cfg, e.weight, kind, e.lastTouched, now, x) && CutOff(x + delta, cfg.weightCap, f.weight)
  }

  // f is the edge a reinforcement makes where there was none.
  ghost predicate CreateLaw(cfg: Config, f: Edge, kind: EdgeKind, delta: real, co: bool, now: int) {
    && f.kind == kind && f.lastTouched == f.createdAt == now && Counts(kind, co, f.accessCount, f.traverseCount)
    && CutOff(delta, cfg.weightCap, f.weight)
  }

  // f is the edge e as read, before it is pruned or kept.
  ghost predicate ReadLaw(cfg: Config, e: Edge, f: Edge, now: int) {
    f == e.(weight := f.weight, lastTouched := now) && EdgeAgedTo(cfg, e.weight, e.kind, e.lastTouched, now, f.weight)
  }

  // Nothing but one edge differs: it is f if f reaches the floor, and gone otherwise.
  ghost predicate KeptIfHeavy(cfg: Config, g: Graph, h: Graph, p: (Id, Id), f: Edge) {
    && h == g.(edges := h.edges)
    && (forall q :: q != p ==> (q in h.edges <==> q in g.edges) && (q in g.edges ==> h.edges[q] == g.edges[q]))
    && (p in h.edges <==> cfg.edgeFloor <= f.weight) && (p in h.edges ==> h.edges[p] == f)
  }

  // h is g after a reinforcement of p, by f.
  ghost predicate ReinforcedBy(cfg: Config, g: Graph, h: Graph, p: (Id, Id), kind: EdgeKind, delta: real, co: bool, now: int, f: Edge) {
    && KeptIfHeavy(cfg, g, h, p, f)
    && if p in g.edges then ReinforceLaw(cfg, g.edges[p], f, kind, delta, co, now) else CreateLaw(cfg, f, kind, delta, co, now)
  }

  lemma EdgeAgeIsDecay(cfg: Config, w: real, kind: EdgeKind, touched: int, now: int)
    ensures EdgeAgedTo(cfg, w, kind, touched, now, Decay(w, RateForKind(cfg, kind), now - touched))
  {
    hide Pow;
  }

  lemma CapIsCutOff(sum: real, cap: real)
    ensures CutOff(sum, cap, CapWeight(sum, cap))
  {
  }

  lemma ReinforcedObeys(cfg: Config, e: Edge, kind: EdgeKind, delta: real, co: bool, now: int)
    ensures ReinforceLaw(cfg, e, ReinforcedEdge(cfg, e, kind, delta, co, now), kind, delta, co, now)
  {
    hide Decay, RateForKind, CapWeight, EdgeAgedTo, CutOff;
    var x := Decay(e.weight, RateForKind(cfg, kind), now - e.lastTouched);
    EdgeAgeIsDecay(cfg, e.weight, kind, e.lastTouched, now);
    CapIsCutOff(x + delta, cfg.weightCap);
  }

  lemma CreatedObeys(cfg: Config, kind: EdgeKind, delta: real, co: bool, now: int)
    ensures CreateLaw(cfg, NewEdge(cfg, kind, delta, co, now), kind, delta, co, now)
  {
  }

  lemma KeepOrPruneKeeps(cfg: Config, g: Graph, p: (Id, Id), f: Edge)
    ensures KeptIfHeavy(cfg, g, KeepOrPrune(cfg, g, p, f), p, f)
  {
  }

  // Every reinforcement obeys the law of its kind, and nothing but its own edge changes.
  lemma ReinforceObeys(cfg: Config, g: Graph, p: (Id, Id), kind: EdgeKind, delta: real, co: bool, now: int) returns (f: Edge)
    ensures ReinforcedBy(cfg, g, ReinforceEdge(cfg, g, p, kind, delta, co, now), p, kind, delta, co, now, f)
  {
    hide KeepOrPrune, ReinforcedEdge, NewEdge, ReinforceLaw, CreateLaw;
    if p in g.edges {
      f := ReinforcedEdge(cfg, g.edges[p], kind, delta, co, now);
      ReinforcedObeys(cfg, g.edges[p], kind, delta, co, now);
      KeepOrPruneKeeps(cfg, g, p, f);
    } else {
      f := NewEdge(cfg, kind, delta, co, now);
      CreatedObeys(cfg, kind, delta, co, now);
    }
  }

  // A reading only ages its edge, at the rate of the edge's own kind.
  lemma ReadObeys(cfg: Config, g: Graph, p: (Id, Id), now: int)
    requires p in g.edges
    ensures ReadLaw(cfg, g.edges[p], DecayedEdge(cfg, g.edges[p], now), now)
    ensures KeptIfHeavy(cfg, g, ReadEdge(cfg, g, p, now), p, DecayedEdge(cfg, g.edges[p], now))
  {
    hide Decay, RateForKind, KeepOrPrune, EdgeAgedTo, KeptIfHeavy;
    var e := g.edges[p];
    EdgeAgeIsDecay(cfg, e.weight, e.kind, e.lastTouched, now);
    KeepOrPruneKeeps(cfg, g, p, DecayedEdge(cfg, e, now));
  }

  // ----- one node -----

  function OnNode(cfg: Config, g: Graph, id: Id, e: NodeEvent): Graph {
    if id in g.nodes then g.(nodes := g.nodes[id := AfterEvent(cfg, g.nodes[id], e)]) else g
  }

  // ----- a whole message -----

  datatype Writing = Writing(
    msgId: Id,
    message: Message,
    ids: seq<Id>,
    chunks: seq<Chunk>,
    vecs: seq<Vec>,
    recent: seq<Id>,
    now: int)

  // New identifiers, one per chunk, and recent nodes that were there before.
  ghost predicate Fresh(g: Graph, w: Writing) {
    && w.msgId != NoId && w.msgId !in g.messages
    && (forall id :: id in g.nodes ==> g.nodes[id].sourceMsg != w.msgId)
    && 0 < |w.ids| == |w.chunks| == |w.vecs|
    && (forall i :: 0 <= i < |w.ids| ==> w.ids[i] != NoId && w.ids[i] !in g.nodes)
    && (forall i, j :: 0 <= i < j < |w.ids| ==> w.ids[i] != w.ids[j])
    && (forall i :: 0 <= i < |w.recent| ==> w.recent[i] in g.nodes)
    && (forall i, j :: 0 <= i < j < |w.recent| ==> w.recent[i] != w.recent[j])
  }

  function ChunkNode(w: Writing, c: Chunk, v: Vec): Node {
    Node(w.msgId, c.spanStart, c.spanEnd, c.text, |v|, w.now, w.now, 1.0, 0, false)
  }

  function PutChunks(g: Graph, w: Writing, k: nat): Graph
    requires k <= |w.ids| == |w.chunks| == |w.vecs|
  {
    if k == 0 then g.(messages := g.messages[w.msgId := w.message])
    else
      var h := PutChunks(g, w, k - 1);
      h.(nodes := h.nodes[w.ids[k - 1] := ChunkNode(w, w.chunks[k - 1], w.vecs[k - 1])],
         vectors := h.vectors[w.ids[k - 1] := w.vecs[k - 1]])
  }

  function StructuralEdge(weight: real, now: int): Edge {
    Edge(Structural, weight, now, now, 0, 0)
  }

  // A symmetric pair of structural edges.
  function PutPair(g: Graph, a: Id, b: Id, weight: real, now: int): Graph {
    if a == b then g
    else g.(edges := g.edges[(a, b) := StructuralEdge(weight, now)][(b, a) := StructuralEdge(weight, now)])
  }

  function LinkChain(cfg: Config, g: Graph, ids: seq<Id>, k: nat, now: int): Graph
    requires k < |ids|
  {
    if k == 0 then g
    else PutPair(LinkChain(cfg, g, ids, k - 1, now), ids[k - 1], ids[k], cfg.edgeStructuralWeight, now)
  }

  function LinkRecent(cfg: Config, g: Graph, hub: Id, recent: seq<Id>, k: nat, now: int): Graph
    requires k <= |recent|
  {
    if k == 0 then g
    else PutPair(LinkRecent(cfg, g, hub, recent, k - 1, now), hub, recent[k - 1], cfg.edgeStructuralTemporalWeight, now)
  }

  function Ingest(cfg: Config, g: Graph, w: Writing): Graph
    requires 0 < |w.ids| == |w.chunks| == |w.vecs|
  {
    var chained := LinkChain(cfg, PutChunks(g, w, |w.ids|), w.ids, |w.ids| - 1, w.now);
    LinkRecent(cfg, chained, w.ids[0], w.recent, |w.recent|, w.now)
  }

  // A write whose last vector the index refused: everything before it is stored, its node without a vector.
  function Abort(g: Graph, w: Writing): Graph
    requires 0 < |w.ids| == |w.chunks| == |w.vecs|
  {
    var n := |w.ids| - 1;
    var h := PutChunks(g, w, n);
    h.(nodes := h.nodes[w.ids[n] := ChunkNode(w, w.chunks[n], w.vecs[n])])
  }

  function NodesOf(g: Graph, msgs: set<Id>): set<Id> {
    set id | id in g.nodes && g.nodes[id].sourceMsg in msgs
  }

  function Erase(g: Graph, msgs: set<Id>): Graph {
    Without(g, NodesOf(g, msgs)).(messages := g.messages - msgs)
  }

  // Every identifier in use has been issued.
  ghost predicate Issued(g: Graph, last: Id) {
    && (forall id :: id in g.nodes ==> id <= last && g.nodes[id].sourceMsg <= last)
    && (forall m :: m in g.messages ==> m <= last)
  }

  // ----- what a write adds -----

  ghost predicate Consecutive(ids: seq<Id>, k: nat, p: (Id, Id))
    requires k < |ids|
  {
    exists i :: 0 <= i < k && (p == (ids[i], ids[i + 1]) || p == (ids[i + 1], ids[i]))
  }

  ghost predicate Spoke(hub: Id, recent: seq<Id>, k: nat, p: (Id, Id))
    requires k <= |recent|
  {
    exists i :: 0 <= i < k && (p == (hub, recent[i]) || p == (recent[i], hub))
  }

  ghost predicate Among(ids: seq<Id>, k: nat, id: Id)
    requires k <= |ids|
  {
    exists i :: 0 <= i < k && id == ids[i]
  }

  lemma OneMoreAmong(ids: seq<Id>, k: nat)
    requires 0 < k <= |ids|
    ensures forall id :: Among(ids, k, id) <==> Among(ids, k - 1, id) || id == ids[k - 1]
  {
  }

  lemma {:induction false} PutChunksNodes(g: Graph, w: Writing, k: nat)
    requires Fresh(g, w) && k <= |w.ids|
    ensures var h := PutChunks(g, w, k);
            && h.edges == g.edges
            && h.messages == g.messages[w.msgId := w.message]
            && (forall id :: id in h.nodes <==> id in g.nodes || Among(w.ids, k, id))
            && (forall id :: id in g.nodes ==> h.nodes[id] == g.nodes[id])
            && (forall i :: 0 <= i < k ==> h.nodes[w.ids[i]] == ChunkNode(w, w.chunks[i], w.vecs[i]))
  {
    if k > 0 {
      hide Among;
      PutChunksNodes(g, w, k - 1);
      OneMoreAmong(w.ids, k);
    }
  }

  lemma {:induction false} PutChunksVectors(g: Graph, w: Writing, k: nat)
    requires Fresh(g, w) && WellFormed(g) && k <= |w.ids|
    ensures var h := PutChunks(g, w, k);
            && (forall id :: id in h.vectors <==> id in g.vectors || Among(w.ids, k, id))
            && (forall id :: id in g.vectors ==> h.vectors[id] == g.vectors[id])
            && (forall i :: 0 <= i < k ==> h.vectors[w.ids[i]] == w.vecs[i])
  {
    if k > 0 {
      hide Among, ChunkNode;
      PutChunksVectors(g, w, k - 1);
      assert w.ids[k - 1] !in g.vectors;
      OneMoreAmong(w.ids, k);
    }
  }

  // Exactly the edges of g plus those of the given pairs, the latter new and alike.
  ghost predicate AddsEdges(g: Graph, h: Graph, added: iset<(Id, Id)>, e: Edge) {
    && h == g.(edges := h.edges)
    && (forall p :: p in h.edges <==> p in g.edges || p in added)
    && (forall p :: p in h.edges ==> h.edges[p] == if p in added then e else g.edges[p])
  }

  lemma PutPairShape(g: Graph, h: Graph, added: iset<(Id, Id)>, a: Id, b: Id, weight: real, now: int)
    requires AddsEdges(g, h, added, StructuralEdge(weight, now)) && a != b
    ensures AddsEdges(g, PutPair(h, a, b, weight, now), added + iset{(a, b), (b, a)}, StructuralEdge(weight, now))
  {
  }

  ghost function ChainEdges(ids: seq<Id>, k: nat): iset<(Id, Id)>
    requires k < |ids|
  {
    iset p | Consecutive(ids, k, p)
  }

  ghost function SpokeEdges(hub: Id, recent: seq<Id>, k: nat): iset<(Id, Id)>
    requires k <= |recent|
  {
    iset p | Spoke(hub, recent, k, p)
  }

  lemma ChainEdgesStep(ids: seq<Id>, k: nat)
    requires 0 < k < |ids|
    ensures ChainEdges(ids, k) == ChainEdges(ids, k - 1) + iset{(ids[k - 1], ids[k]), (ids[k], ids[k - 1])}
  {
    assert ids[k] == ids[k - 1 + 1];
  }

  lemma {:induction false} LinkChainShape(cfg: Config, g: Graph, ids: seq<Id>, k: nat, now: int)
    requires k < |ids| && forall i, j :: 0 <= i < j < |ids| ==> ids[i] != ids[j]
    ensures AddsEdges(g, LinkChain(cfg, g, ids, k, now), ChainEdges(ids, k), StructuralEdge(cfg.edgeStructuralWeight, now))
  {
    if k > 0 {
      hide AddsEdges, PutPair, ChainEdges;
      LinkChainShape(cfg, g, ids, k - 1, now);
      PutPairShape(g, LinkChain(cfg, g, ids, k - 1, now), ChainEdges(ids, k - 1), ids[k - 1], ids[k],
                   cfg.edgeStructuralWeight, now);
      ChainEdgesStep(ids, k);
    }
  }

  lemma {:induction false} LinkRecentShape(cfg: Config, g: Graph, hub: Id, recent: seq<Id>, k: nat, now: int)
    requires k <= |recent| && hub !in recent
    ensures AddsEdges(g, LinkRecent(cfg, g, hub, recent, k, now), SpokeEdges(hub, recent, k),
                      StructuralEdge(cfg.edgeStructuralTemporalWeight, now))
  {
    hide PutPair;
    if k > 0 {
      hide AddsEdges;
      LinkRecentShape(cfg, g, hub, recent, k - 1, now);
      PutPairShape(g, LinkRecent(cfg, g, hub, recent, k - 1, now), SpokeEdges(hub, recent, k - 1), hub, recent[k - 1],
                   cfg.edgeStructuralTemporalWeight, now);
      assert SpokeEdges(hub, recent, k)
          == SpokeEdges(hub, recent, k - 1) + iset{(hub, recent[k - 1]), (recent[k - 1], hub)};
    }
  }
}
