// Forgetting a message right after writing it is the identity.
module WriteForget {
  import opened MemoryGraph
  import opened Dynamics
  import opened Runs

  // What a write adds around a graph it leaves untouched.
  ghost predicate Extends(g: Graph, w: Writing, h: Graph)
    requires |w.ids| == |w.chunks| == |w.vecs|
  {
    && ExtendsNodes(g, w, h)
    && ExtendsEdges(g, w.ids, h)
    && ExtendsVectors(g, w.ids, h)
    && h.messages == g.messages[w.msgId := w.message]
  }

  ghost predicate ExtendsNodes(g: Graph, w: Writing, h: Graph) {
    && (forall id :: id in h.nodes <==> id in g.nodes || id in w.ids)
    && (forall id :: id in g.nodes ==> h.nodes[id] == g.nodes[id])
    && (forall id :: id in w.ids ==> h.nodes[id].sourceMsg == w.msgId)
  }

  ghost predicate ExtendsEdges(g: Graph, ids: seq<Id>, h: Graph) {
    && (forall p :: p in g.edges ==> p in h.edges && h.edges[p] == g.edges[p])
    && (forall p :: p in h.edges && p !in g.edges ==> p.0 in ids || p.1 in ids)
    && (forall p :: p in h.edges ==> p.0 != p.1 && p.0 in h.nodes && p.1 in h.nodes)
  }

  ghost predicate ExtendsVectors(g: Graph, ids: seq<Id>, h: Graph) {
    && (forall id :: id in h.vectors <==> id in g.vectors || id in ids)
    && (forall id :: id in g.vectors ==> h.vectors[id] == g.vectors[id])
  }

  lemma PutChunksExtends(g: Graph, w: Writing)
    requires Fresh(g, w) && WellFormed(g)
    ensures Extends(g, w, PutChunks(g, w, |w.ids|))
  {
    PutChunksNodes(g, w, |w.ids|);
    PutChunksVectors(g, w, |w.ids|);
    forall id ensures Among(w.ids, |w.ids|, id) <==> id in w.ids {
    }
  }

  lemma PutPairExtends(g: Graph, w: Writing, h: Graph, a: Id, b: Id, weight: real)
    requires Fresh(g, w) && WellFormed(g) && Extends(g, w, h)
    requires a in w.ids && b in h.nodes
    ensures Extends(g, w, PutPair(h, a, b, weight, w.now))
  {
    hide ExtendsEdges;
    PairIsNew(g, w, a);
    PutPairEdges(g, w.ids, h, a, b, weight, w.now);
  }

  lemma PairIsNew(g: Graph, w: Writing, a: Id)
    requires Fresh(g, w) && WellFormed(g) && a in w.ids
    ensures a !in g.nodes && forall p :: p in g.edges ==> p.0 != a && p.1 != a
  {
  }

  lemma PutPairEdges(g: Graph, ids: seq<Id>, h: Graph, a: Id, b: Id, weight: real, now: int)
    requires ExtendsEdges(g, ids, h) && a in ids && a in h.nodes && b in h.nodes
    requires forall p :: p in g.edges ==> p.0 != a && p.1 != a
    ensures ExtendsEdges(g, ids, PutPair(h, a, b, weight, now))
  {
  }

  lemma {:induction false} LinkChainExtends(cfg: Config, g: Graph, w: Writing, k: nat)
    requires Fresh(g, w) && WellFormed(g) && k < |w.ids|
    ensures Extends(g, w, LinkChain(cfg, PutChunks(g, w, |w.ids|), w.ids, k, w.now))
  {
    hide Extends;
    var h := PutChunks(g, w, |w.ids|);
    PutChunksExtends(g, w);
    if k > 0 {
      LinkChainExtends(cfg, g, w, k - 1);
      ExtendsHolds(g, w, LinkChain(cfg, h, w.ids, k - 1, w.now), w.ids[k]);
      PutPairExtends(g, w, LinkChain(cfg, h, w.ids, k - 1, w.now), w.ids[k - 1], w.ids[k], cfg.edgeStructuralWeight);
    }
  }

  lemma ExtendsHolds(g: Graph, w: Writing, h: Graph, id: Id)
    requires |w.ids| == |w.chunks| == |w.vecs| && Extends(g, w, h)
    ensures id in h.nodes <==> id in g.nodes || id in w.ids
  {
  }

  lemma {:induction false} LinkRecentExtends(cfg: Config, g: Graph, w: Writing, h: Graph, k: nat)
    requires Fresh(g, w) && WellFormed(g) && Extends(g, w, h) && k <= |w.recent|
    ensures Extends(g, w, LinkRecent(cfg, h, w.ids[0], w.recent, k, w.now))
  {
    hide Extends;
    if k > 0 {
      LinkRecentExtends(cfg, g, w, h, k - 1);
      ExtendsHolds(g, w, LinkRecent(cfg, h, w.ids[0], w.recent, k - 1, w.now), w.recent[k - 1]);
      PutPairExtends(g, w, LinkRecent(cfg, h, w.ids[0], w.recent, k - 1, w.now), w.ids[0], w.recent[k - 1],
                     cfg.edgeStructuralTemporalWeight);
    }
  }

  lemma FreshSizes(g: Graph, w: Writing)
    requires Fresh(g, w)
    ensures 0 < |w.ids| == |w.chunks| == |w.vecs|
  {
  }

  lemma IngestExtends(cfg: Config, g: Graph, w: Writing)
    requires Fresh(g, w) && WellFormed(g)
    ensures Extends(g, w, Ingest(cfg, g, w))
  {
    hide Extends, PutChunks, LinkChain, LinkRecent, Fresh, WellFormed;
    FreshSizes(g, w);
    LinkChainExtends(cfg, g, w, |w.ids| - 1);
    LinkRecentExtends(cfg, g, w, LinkChain(cfg, PutChunks(g, w, |w.ids|), w.ids, |w.ids| - 1, w.now), |w.recent|);
  }

  // The new nodes of a write: the chunks, each from now on, with weight 1 and its own vector.
  ghost predicate HoldsChunks(w: Writing, h: Graph, n: nat)
    requires n <= |w.ids| == |w.chunks| == |w.vecs|
  {
    forall i :: 0 <= i < n ==>
      && w.ids[i] in h.nodes && w.ids[i] in h.vectors && h.vectors[w.ids[i]] == w.vecs[i]
      && h.nodes[w.ids[i]] == Node(w.msgId, w.chunks[i].spanStart, w.chunks[i].spanEnd, w.chunks[i].text, |w.vecs[i]|,
                                   w.now, w.now, 1.0, 0, false)
  }

  // Joined both ways by fresh structural edges of the given weight.
  ghost predicate Joined(h: Graph, a: Id, b: Id, weight: real, now: int) {
    && (a, b) in h.edges && (b, a) in h.edges
    && h.edges[(a, b)] == h.edges[(b, a)] == Edge(Structural, weight, now, now, 0, 0)
  }

  // The new edges of a write: each chunk with the next, and the first with every recent node.
  ghost predicate HoldsLinks(cfg: Config, g: Graph, w: Writing, h: Graph)
    requires 0 < |w.ids|
  {
    && (forall i :: 0 < i < |w.ids| ==> Joined(h, w.ids[i - 1], w.ids[i], cfg.edgeStructuralWeight, w.now))
    && (forall j :: 0 <= j < |w.recent| ==> Joined(h, w.ids[0], w.recent[j], cfg.edgeStructuralTemporalWeight, w.now))
    && (forall p :: p in h.edges && p !in g.edges ==>
          Consecutive(w.ids, |w.ids| - 1, p) || Spoke(w.ids[0], w.recent, |w.recent|, p))
  }

  lemma {:induction false} LinkChainLinks(cfg: Config, g: Graph, ids: seq<Id>, k: nat, now: int)
    requires k < |ids| && forall i, j :: 0 <= i < j < |ids| ==> ids[i] != ids[j]
    ensures var h := LinkChain(cfg, g, ids, k, now);
            && forall i :: 0 < i <= k ==> Joined(h, ids[i - 1], ids[i], cfg.edgeStructuralWeight, now)
  {
    if k > 0 {
      LinkChainLinks(cfg, g, ids, k - 1, now);
    }
  }

  lemma {:induction false} LinkRecentLinks(cfg: Config, g: Graph, hub: Id, recent: seq<Id>, k: nat, now: int)
    requires k <= |recent| && hub !in recent
    ensures var h := LinkRecent(cfg, g, hub, recent, k, now);
            && (forall j :: 0 <= j < k ==> Joined(h, hub, recent[j], cfg.edgeStructuralTemporalWeight, now))
            && forall a, b, weight :: Joined(g, a, b, weight, now) && a !in recent && b !in recent ==> Joined(h, a, b, weight, now)
  {
    if k > 0 {
      LinkRecentLinks(cfg, g, hub, recent, k - 1, now);
    }
  }

  lemma LinkedOnly(cfg: Config, stored: Graph, w: Writing)
    requires 0 < |w.ids| && (forall i, j :: 0 <= i < j < |w.ids| ==> w.ids[i] != w.ids[j]) && w.ids[0] !in w.recent
    ensures var h := LinkRecent(cfg, LinkChain(cfg, stored, w.ids, |w.ids| - 1, w.now), w.ids[0], w.recent, |w.recent|, w.now);
            && h.nodes == stored.nodes && h.vectors == stored.vectors
            && forall p :: p in h.edges && p !in stored.edges ==>
                 Consecutive(w.ids, |w.ids| - 1, p) || Spoke(w.ids[0], w.recent, |w.recent|, p)
  {
    hide LinkChain, LinkRecent;
    LinkChainShape(cfg, stored, w.ids, |w.ids| - 1, w.now);
    LinkRecentShape(cfg, LinkChain(cfg, stored, w.ids, |w.ids| - 1, w.now), w.ids[0], w.recent, |w.recent|, w.now);
  }

  // Exactly what a write adds: its message, its chunks and its links, as given.
  lemma IngestExactly(cfg: Config, g: Graph, w: Writing)
    requires Fresh(g, w) && WellFormed(g)
    ensures var h := Ingest(cfg, g, w);
            && Extends(g, w, h) && HoldsChunks(w, h, |w.ids|) && HoldsLinks(cfg, g, w, h)
  {
    hide Extends, PutChunks, LinkChain, LinkRecent, WellFormed, HoldsLinks;
    IngestExtends(cfg, g, w);
    RecentAreOld(g, w);
    var stored := PutChunks(g, w, |w.ids|);
    StoredWhole(g, w);
    LinkedOnly(cfg, stored, w);
    LinksHold(cfg, g, stored, w);
  }

  lemma StoredWhole(g: Graph, w: Writing)
    requires Fresh(g, w) && WellFormed(g)
    ensures HoldsChunks(w, PutChunks(g, w, |w.ids|), |w.ids|) && PutChunks(g, w, |w.ids|).edges == g.edges
  {
    hide PutChunks;
    PutChunksNodes(g, w, |w.ids|);
    PutChunksVectors(g, w, |w.ids|);
  }

  lemma LinksHold(cfg: Config, g: Graph, stored: Graph, w: Writing)
    requires 0 < |w.ids| && (forall i, j :: 0 <= i < j < |w.ids| ==> w.ids[i] != w.ids[j]) && stored.edges == g.edges
    requires forall i :: 0 <= i < |w.recent| ==> w.recent[i] !in w.ids
    ensures HoldsLinks(cfg, g, w, LinkRecent(cfg, LinkChain(cfg, stored, w.ids, |w.ids| - 1, w.now), w.ids[0], w.recent, |w.recent|, w.now))
  {
    hide LinkChain, LinkRecent, Joined, Consecutive, Spoke;
    LinkedOnly(cfg, stored, w);
    LinkChainLinks(cfg, stored, w.ids, |w.ids| - 1, w.now);
    LinkRecentLinks(cfg, LinkChain(cfg, stored, w.ids, |w.ids| - 1, w.now), w.ids[0], w.recent, |w.recent|, w.now);
  }

  lemma IngestWellFormed(cfg: Config, g: Graph, w: Writing)
    requires Fresh(g, w) && WellFormed(g)
    ensures WellFormed(Ingest(cfg, g, w))
  {
    IngestExtends(cfg, g, w);
    assert NoId !in w.ids;
  }

  lemma NewNodes(g: Graph, w: Writing, h: Graph)
    requires Fresh(g, w) && Extends(g, w, h)
    ensures NodesOf(h, {w.msgId}) == set id | id in w.ids
  {
  }

  lemma NewEdgesTouchNewNodes(g: Graph, ids: seq<Id>, h: Graph, d: set<Id>)
    requires WellFormed(g) && ExtendsEdges(g, ids, h) && (forall id :: id in ids ==> id !in g.nodes)
    requires forall id :: id in d <==> id in ids
    ensures Without(h, d).edges == g.edges
  {
  }

  lemma NewNodesAreNew(g: Graph, w: Writing, h: Graph, d: set<Id>)
    requires ExtendsNodes(g, w, h) && ExtendsVectors(g, w.ids, h) && g.vectors.Keys <= g.nodes.Keys
    requires (forall id :: id in w.ids ==> id !in g.nodes) && forall id :: id in d <==> id in w.ids
    ensures h.nodes - d == g.nodes && h.vectors - d == g.vectors
  {
  }

  // The message's nodes are exactly the new ones, so erasing it restores the graph.
  lemma EraseUndoesIngest(cfg: Config, g: Graph, w: Writing)
    requires Fresh(g, w) && WellFormed(g)
    ensures NodesOf(Ingest(cfg, g, w), {w.msgId}) == set id | id in w.ids
    ensures Erase(Ingest(cfg, g, w), {w.msgId}) == g
  {
    hide Ingest, NodesOf, Extends, Erase, Fresh, WellFormed;
    FreshSizes(g, w);
    IngestExtends(cfg, g, w);
    ExtendsErased(g, w, Ingest(cfg, g, w));
  }

  lemma ExtendsErased(g: Graph, w: Writing, h: Graph)
    requires Fresh(g, w) && WellFormed(g) && Extends(g, w, h)
    ensures NodesOf(h, {w.msgId}) == set id | id in w.ids
    ensures Erase(h, {w.msgId}) == g
  {
    NewNodes(g, w, h);
    hide NodesOf, ExtendsNodes, ExtendsEdges, ExtendsVectors;
    NewEdgesTouchNewNodes(g, w.ids, h, NodesOf(h, {w.msgId}));
    NewNodesAreNew(g, w, h, NodesOf(h, {w.msgId}));
    assert h.messages - {w.msgId} == g.messages;
  }

  // ----- a write that stopped half way -----

  lemma AbortShape(g: Graph, w: Writing)
    requires Fresh(g, w) && WellFormed(g)
    ensures var h := Abort(g, w);
            && h.edges == g.edges && h.messages == g.messages[w.msgId := w.message]
            && (forall id :: id in h.nodes <==> id in g.nodes || id in w.ids)
            && (forall id :: id in g.nodes ==> h.nodes[id] == g.nodes[id])
            && (forall id :: id in w.ids ==> h.nodes[id].sourceMsg == w.msgId && h.nodes[id].lastTouched == w.now)
            && (forall id :: id in g.vectors ==> id in h.vectors && h.vectors[id] == g.vectors[id])
            && (forall id :: id in h.vectors ==> id in g.vectors || id in w.ids)
  {
    hide PutChunks;
    var n := |w.ids| - 1;
    PutChunksNodes(g, w, n);
    PutChunksVectors(g, w, n);
    forall id ensures id in w.ids <==> Among(w.ids, n, id) || id == w.ids[n] {
    }
  }

  // Exactly what a refused vector leaves: every chunk before it whole, and its own without the vector.
  lemma AbortExactly(g: Graph, w: Writing)
    requires Fresh(g, w) && WellFormed(g)
    ensures var h, n := Abort(g, w), |w.ids| - 1;
            && HoldsChunks(w, h, n) && w.ids[n] !in h.vectors && w.ids[n] in h.nodes
            && h.nodes[w.ids[n]] == Node(w.msgId, w.chunks[n].spanStart, w.chunks[n].spanEnd, w.chunks[n].text, |w.vecs[n]|,
                                         w.now, w.now, 1.0, 0, false)
  {
    hide PutChunks;
    var n := |w.ids| - 1;
    PutChunksNodes(g, w, n);
    PutChunksVectors(g, w, n);
    forall i | 0 <= i < n ensures w.ids[i] != w.ids[n] && Among(w.ids, n, w.ids[i]) {
    }
  }

  lemma AbortWellFormed(g: Graph, w: Writing)
    requires Fresh(g, w) && WellFormed(g)
    ensures WellFormed(Abort(g, w))
  {
    AbortShape(g, w);
    assert NoId !in w.ids;
  }

  // Dropping the new identifiers from anything that only added them gives back what was there.
  lemma DropNew(g: Graph, h: Graph, d: set<Id>)
    requires WellFormed(g) && h.edges == g.edges && (forall id :: id in g.nodes ==> id !in d)
    requires (forall id :: id in h.nodes <==> id in g.nodes || id in d) && (forall id :: id in g.nodes ==> h.nodes[id] == g.nodes[id])
    requires (forall id :: id in g.vectors ==> id in h.vectors && h.vectors[id] == g.vectors[id])
    requires (forall id :: id in h.vectors ==> id in g.vectors || id in d)
    ensures Without(h, d) == g.(messages := h.messages)
  {
    assert h.nodes - d == g.nodes;
    assert h.vectors - d == g.vectors;
    assert Without(h, d).edges == g.edges;
  }

  // What a refused vector leaves behind, forgetting the message removes without a trace.
  lemma EraseUndoesAbort(g: Graph, w: Writing)
    requires Fresh(g, w) && WellFormed(g)
    ensures NodesOf(Abort(g, w), {w.msgId}) == set id | id in w.ids
    ensures Erase(Abort(g, w), {w.msgId}) == g
  {
    hide Abort, WellFormed, Without;
    AbortShape(g, w);
    var h, d := Abort(g, w), NodesOf(Abort(g, w), {w.msgId});
    assert d == set id | id in w.ids;
    DropNew(g, h, d);
    assert h.messages - {w.msgId} == g.messages;
  }

  // ----- how many pairs it links -----

  // Writing a symmetric pair with an end in d adds that unordered pair and nothing else.
  lemma PutPairTouches(g: Graph, a: Id, b: Id, weight: real, now: int, d: set<Id>)
    requires a in d && a != b
    ensures PairsTouching(PutPair(g, a, b, weight, now).edges, d) == PairsTouching(g.edges, d) + {OrderedPair(a, b)}
  {
    var edges := PutPair(g, a, b, weight, now).edges;
    var wider := PairsTouching(g.edges, d) + {OrderedPair(a, b)};
    OrderedPairNamesUnordered(a, b, b, a);
    forall p | p in edges && (p.0 in d || p.1 in d) ensures OrderedPair(p.0, p.1) in wider {
      if p != (a, b) && p != (b, a) {
        assert p in g.edges;
      }
    }
    forall p | p in g.edges && (p.0 in d || p.1 in d) ensures OrderedPair(p.0, p.1) in PairsTouching(edges, d) {
      assert p in edges;
    }
    assert (a, b) in edges && ((a, b).0 in d || (a, b).1 in d);
    assert OrderedPair((a, b).0, (a, b).1) in PairsTouching(edges, d);
  }

  // Every touching pair so far joins two nodes other than the next one to be linked.
  ghost predicate NotYet(pairs: set<(Id, Id)>, b: Id) {
    forall q :: q in pairs ==> q.0 != b && q.1 != b
  }

  lemma AddedPair(pairs: set<(Id, Id)>, a: Id, b: Id)
    requires NotYet(pairs, b)
    ensures |pairs + {OrderedPair(a, b)}| == |pairs| + 1
    ensures forall c :: NotYet(pairs, c) && c != a && c != b ==> NotYet(pairs + {OrderedPair(a, b)}, c)
  {
    assert OrderedPair(a, b) !in pairs;
  }

  lemma {:induction false} ChainPairs(cfg: Config, g: Graph, ids: seq<Id>, k: nat, now: int, d: set<Id>)
    requires k < |ids| && (forall i, j :: 0 <= i < j < |ids| ==> ids[i] != ids[j])
    requires (forall id :: id in ids ==> id in d) && PairsTouching(g.edges, d) == {}
    ensures var pairs := PairsTouching(LinkChain(cfg, g, ids, k, now).edges, d);
            && |pairs| == k
            && forall c :: c !in ids[..k + 1] ==> NotYet(pairs, c)
  {
    hide PairsTouching;
    if k > 0 {
      ChainPairs(cfg, g, ids, k - 1, now, d);
      var h := LinkChain(cfg, g, ids, k - 1, now);
      PutPairTouches(h, ids[k - 1], ids[k], cfg.edgeStructuralWeight, now, d);
      assert ids[k] !in ids[..k];
      AddedPair(PairsTouching(h.edges, d), ids[k - 1], ids[k]);
      assert ids[k - 1] in ids[..k + 1] && ids[k] in ids[..k + 1];
      assert forall c :: c !in ids[..k + 1] ==> c !in ids[..k];
    }
  }

  lemma {:induction false} RecentPairs(cfg: Config, g: Graph, hub: Id, recent: seq<Id>, k: nat, now: int, d: set<Id>)
    requires k <= |recent| && (forall i, j :: 0 <= i < j < |recent| ==> recent[i] != recent[j])
    requires hub in d && hub !in recent
    requires forall i :: 0 <= i < |recent| ==> NotYet(PairsTouching(g.edges, d), recent[i])
    ensures var pairs := PairsTouching(LinkRecent(cfg, g, hub, recent, k, now).edges, d);
            && |pairs| == |PairsTouching(g.edges, d)| + k
            && forall i :: k <= i < |recent| ==> NotYet(pairs, recent[i])
  {
    hide PairsTouching;
    if k > 0 {
      RecentPairs(cfg, g, hub, recent, k - 1, now, d);
      var h := LinkRecent(cfg, g, hub, recent, k - 1, now);
      PutPairTouches(h, hub, recent[k - 1], cfg.edgeStructuralTemporalWeight, now, d);
      AddedPair(PairsTouching(h.edges, d), hub, recent[k - 1]);
    }
  }

  // A chain of n chunks and r recent nodes make (n - 1) + r distinct linked pairs.
  lemma IngestPairs(cfg: Config, g: Graph, w: Writing)
    requires Fresh(g, w) && WellFormed(g)
    ensures |PairsTouching(Ingest(cfg, g, w).edges, NodesOf(Ingest(cfg, g, w), {w.msgId}))|
         == |w.ids| - 1 + |w.recent|
  {
    hide WellFormed, NodesOf, PairsTouching, LinkChain, LinkRecent, PutChunks;
    EraseUndoesIngest(cfg, g, w);
    var d := set id | id in w.ids;
    NothingTouched(g, w, d);
    RecentAreOld(g, w);
    LinkedPairs(cfg, PutChunks(g, w, |w.ids|), w.ids, w.recent, w.now, d);
  }

  lemma LinkedPairs(cfg: Config, h: Graph, ids: seq<Id>, recent: seq<Id>, now: int, d: set<Id>)
    requires 0 < |ids| && (forall i, j :: 0 <= i < j < |ids| ==> ids[i] != ids[j])
    requires (forall i, j :: 0 <= i < j < |recent| ==> recent[i] != recent[j])
    requires (forall i :: 0 <= i < |recent| ==> recent[i] !in ids)
    requires (forall id :: id in ids ==> id in d) && PairsTouching(h.edges, d) == {}
    ensures |PairsTouching(LinkRecent(cfg, LinkChain(cfg, h, ids, |ids| - 1, now), ids[0], recent, |recent|, now).edges, d)|
         == |ids| - 1 + |recent|
  {
    hide PairsTouching, LinkChain, LinkRecent, NotYet;
    ChainPairs(cfg, h, ids, |ids| - 1, now, d);
    assert ids[..|ids| - 1 + 1] == ids;
    RecentPairs(cfg, LinkChain(cfg, h, ids, |ids| - 1, now), ids[0], recent, |recent|, now, d);
  }

  lemma RecentAreOld(g: Graph, w: Writing)
    requires Fresh(g, w)
    ensures forall i :: 0 <= i < |w.recent| ==> w.recent[i] !in w.ids
  {
  }

  lemma NothingTouched(g: Graph, w: Writing, d: set<Id>)
    requires Fresh(g, w) && WellFormed(g) && d == set id | id in w.ids
    ensures PairsTouching(PutChunks(g, w, |w.ids|).edges, d) == {}
  {
    PutChunksNodes(g, w, |w.ids|);
  }
}
