// The retrieval pipeline: reinforce the hits, seed, co-retrieve, expand, rank, co-traverse.
module RecallPipeline {
  import opened Wrappers
  import opened RealPower
  import opened Chunker
  import opened MemoryGraph
  import opened Neo4jStore
  import opened Dynamics
  import opened Runs
  import opened History
  import opened Expansion
  import opened ExpansionRuns
  import opened Sorting
  import opened MemoryService

  datatype Hit = Hit(nodeId: Id, sim: real)

  datatype Candidate = Candidate(nodeId: Id, sim: real, nodeWeight: real)

  // Cosine similarity brought from [-1, 1] to [0, 1].
  function SimScore(s: real): (r: real)
    ensures 0.0 <= r <= 1.0
    ensures -1.0 <= s <= 1.0 ==> 2.0 * r - 1.0 == s
    ensures (s < -1.0 ==> r == 0.0) && (s > 1.0 ==> r == 1.0)
  {
    var v := (s + 1.0) / 2.0;
    if v < 0.0 then 0.0 else if v > 1.0 then 1.0 else v
  }

  ghost predicate DistinctHits(hits: seq<Hit>) {
    forall i, j :: 0 <= i < j < |hits| ==> hits[i].nodeId != hits[j].nodeId
  }

  // ----- phase 3: decay and reinforce every hit -----

  function TouchSteps(cfg: Config, hits: seq<Hit>, now: int): seq<Step> {
    if hits == [] then []
    else TouchSteps(cfg, hits[..|hits| - 1], now) + [NodeStep(hits[|hits| - 1].nodeId, Touch(cfg.nodeDelta, now))]
  }

  // The hits whose node is still there, in order.
  function PresentHits(g: Graph, hits: seq<Hit>): seq<Hit> {
    if hits == [] then []
    else PresentHits(g, hits[..|hits| - 1]) + if hits[|hits| - 1].nodeId in g.nodes then [hits[|hits| - 1]] else []
  }

  predicate IsHit(hits: seq<Hit>, id: Id) {
    exists i :: 0 <= i < |hits| && hits[i].nodeId == id
  }

  // Every hit node touched once, everything else as before.
  ghost predicate HitsTouched(cfg: Config, g: Graph, hits: seq<Hit>, now: int, h: Graph) {
    && h == g.(nodes := h.nodes)
    && h.nodes.Keys == g.nodes.Keys
    && (forall id :: id in g.nodes ==>
          h.nodes[id] == if IsHit(hits, id) then TouchedNode(cfg, g.nodes[id], cfg.nodeDelta, now) else g.nodes[id])
  }

  ghost predicate IsCandidate(cfg: Config, g: Graph, h: Hit, now: int, c: Candidate) {
    && h.nodeId in g.nodes
    && c == Candidate(h.nodeId, h.sim, TouchedNode(cfg, g.nodes[h.nodeId], cfg.nodeDelta, now).weight)
  }

  // One candidate per present hit, in the order of the hits.
  ghost predicate Candidates(cfg: Config, g: Graph, hits: seq<Hit>, now: int, cands: seq<Scored<Candidate>>) {
    && |cands| == |PresentHits(g, hits)|
    && forall i :: 0 <= i < |cands| ==> IsCandidate(cfg, g, PresentHits(g, hits)[i], now, cands[i].item)
  }

  lemma CandidateStep(cfg: Config, g: Graph, hits: seq<Hit>, i: nat, now: int, cands: seq<Scored<Candidate>>,
                      next: Scored<Candidate>)
    requires i < |hits| && Candidates(cfg, g, hits[..i], now, cands)
    ensures hits[i].nodeId !in g.nodes ==> Candidates(cfg, g, hits[..i + 1], now, cands)
    ensures IsCandidate(cfg, g, hits[i], now, next.item) ==> Candidates(cfg, g, hits[..i + 1], now, cands + [next])
  {
    assert hits[..i + 1][..i] == hits[..i];
  }

  lemma NothingTouchedYet(cfg: Config, g: Graph, now: int)
    ensures HitsTouched(cfg, g, [], now, g) && Candidates(cfg, g, [], now, []) && TouchSteps(cfg, [], now) == []
  {
  }

  lemma TouchStep(cfg: Config, hits: seq<Hit>, i: nat, now: int)
    requires i < |hits|
    ensures TouchSteps(cfg, hits[..i + 1], now)
         == TouchSteps(cfg, hits[..i], now) + [NodeStep(hits[i].nodeId, Touch(cfg.nodeDelta, now))]
  {
    assert hits[..i + 1][..i] == hits[..i];
  }

  method ReinforceHits(svc: Service, hits: seq<Hit>, simPow: real -> real, weightPow: real -> real, now: int)
    returns (cands: seq<Scored<Candidate>>)
    requires svc.Ready(now) && DistinctHits(hits)
    modifies svc`journal, svc.store
    ensures svc.Ready(now)
    ensures svc.journal == old(svc.journal) + TouchSteps(svc.cfg, hits, now)
    ensures HitsTouched(svc.cfg, old(svc.store.View()), hits, now, svc.store.View())
    ensures Candidates(svc.cfg, old(svc.store.View()), hits, now, cands)
    ensures forall i :: 0 <= i < |cands| ==>
              cands[i].score == simPow(SimScore(cands[i].item.sim)) * weightPow(cands[i].item.nodeWeight)
  {
    hide Possible, State, WellFormed, SoundDb, DriftOf, TouchedNode, HitsTouched, Candidates, TouchSteps, OnNode;
    ghost var g := svc.store.View();
    cands := [];
    NothingTouchedYet(svc.cfg, g, now);
    assert hits[..0] == [];
    var i := 0;
    while i < |hits|
      invariant 0 <= i <= |hits| && svc.Ready(now)
      invariant svc.journal == old(svc.journal) + TouchSteps(svc.cfg, hits[..i], now)
      invariant HitsTouched(svc.cfg, g, hits[..i], now, svc.store.View())
      invariant Candidates(svc.cfg, g, hits[..i], now, cands)
      invariant forall m :: 0 <= m < |cands| ==>
                  cands[m].score == simPow(SimScore(cands[m].item.sim)) * weightPow(cands[m].item.nodeWeight)
    {
      var h := hits[i];
      TouchOne(svc.cfg, g, hits, i, now, svc.store.View());
      TouchStep(svc.cfg, hits, i, now);
      var n := svc.ApplyNodeDecayReinforce(h.nodeId, svc.cfg.nodeDelta, now);
      if n.Success? {
        var score := simPow(SimScore(h.sim)) * weightPow(n.value.weight);
        var c := Scored(score, Candidate(h.nodeId, h.sim, n.value.weight));
        CandidateStep(svc.cfg, g, hits, i, now, cands, c);
        cands := cands + [c];
      } else {
        CandidateStep(svc.cfg, g, hits, i, now, cands, Scored(0.0, Candidate(0, 0.0, 0.0)));
      }
      i := i + 1;
    }
    assert hits[..i] == hits;
  }

  lemma TouchOne(cfg: Config, g: Graph, hits: seq<Hit>, i: nat, now: int, h: Graph)
    requires i < |hits| && HitsTouched(cfg, g, hits[..i], now, h) && DistinctHits(hits)
    ensures HitsTouched(cfg, g, hits[..i + 1], now, OnNode(cfg, h, hits[i].nodeId, Touch(cfg.nodeDelta, now)))
    ensures hits[i].nodeId in g.nodes <==> hits[i].nodeId in h.nodes
    ensures hits[i].nodeId in g.nodes ==> h.nodes[hits[i].nodeId] == g.nodes[hits[i].nodeId]
  {
    assert !IsHit(hits[..i], hits[i].nodeId);
    forall id ensures IsHit(hits[..i + 1], id) <==> IsHit(hits[..i], id) || id == hits[i].nodeId {
      if IsHit(hits[..i], id) {
        var m :| 0 <= m < i && hits[..i][m].nodeId == id;
        assert hits[..i + 1][m].nodeId == id;
      }
      if id == hits[i].nodeId {
        assert hits[..i + 1][i].nodeId == id;
      }
    }
  }

  // ----- phase 4: seeds -----

  ghost predicate DistinctCandidates(cands: seq<Scored<Candidate>>) {
    forall i, j :: 0 <= i < j < |cands| ==> cands[i].item.nodeId != cands[j].item.nodeId
  }

  // The best k candidates, best first; nothing left out scores more than a seed.
  ghost predicate AreSeeds(cands: seq<Scored<Candidate>>, k: nat, seeds: seq<Scored<Candidate>>) {
    && |seeds| == (if k < |cands| then k else |cands|)
    && Descending(seeds) && DistinctCandidates(seeds)
    && (forall s :: s in seeds ==> s in cands)
    && (forall c, s :: c in cands && c !in seeds && s in seeds ==> c.score <= s.score)
  }

  lemma TopSeeds(cands: seq<Scored<Candidate>>, sorted: seq<Scored<Candidate>>, from: seq<nat>, n: nat)
    requires DistinctCandidates(cands) && Descending(sorted) && Rearranges(sorted, cands, from) && n <= |sorted|
    ensures Descending(sorted[..n]) && DistinctCandidates(sorted[..n])
    ensures forall s :: s in sorted[..n] ==> s in cands
  {
    forall i, j | 0 <= i < j < n ensures sorted[i].item.nodeId != sorted[j].item.nodeId {
      assert from[i] != from[j];
      if from[i] < from[j] {
        assert cands[from[i]].item.nodeId != cands[from[j]].item.nodeId;
      } else {
        assert cands[from[j]].item.nodeId != cands[from[i]].item.nodeId;
      }
    }
    forall s | s in sorted[..n] ensures s in cands {
      var i :| 0 <= i < n && sorted[i] == s;
      assert cands[from[i]] == s;
    }
  }

  lemma NoBetterLeft(cands: seq<Scored<Candidate>>, sorted: seq<Scored<Candidate>>, n: nat, c: Scored<Candidate>)
    requires Descending(sorted) && multiset(sorted) == multiset(cands) && n <= |sorted|
    requires c in cands && c !in sorted[..n]
    ensures forall i :: 0 <= i < n ==> c.score <= sorted[i].score
  {
    assert c in multiset(cands);
    assert c in sorted;
    var j :| 0 <= j < |sorted| && sorted[j] == c;
    forall i | 0 <= i < n ensures sorted[i] != c {
      assert sorted[..n][i] == sorted[i];
    }
  }

  method SelectSeeds(cands: seq<Scored<Candidate>>, k: nat) returns (seeds: seq<Scored<Candidate>>)
    requires DistinctCandidates(cands)
    ensures AreSeeds(cands, k, seeds)
  {
    hide Descending, DistinctCandidates;
    var sorted, from := SortByScore(cands);
    var seedCount := k;
    if seedCount > |sorted| {
      seedCount := |sorted|;
    }
    seeds := sorted[..seedCount];
    TopSeeds(cands, sorted, from, seedCount);
    forall c | c in cands && c !in seeds ensures forall i :: 0 <= i < seedCount ==> c.score <= sorted[i].score {
      NoBetterLeft(cands, sorted, seedCount, c);
    }
  }

  // ----- phase 5: co-retrieval of every pair of seeds -----

  // The base times the lesser of the two similarities.
  function PairDelta(cfg: Config, a: Candidate, b: Candidate): (d: real)
    ensures SimScore(a.sim) <= SimScore(b.sim) ==> d == cfg.edgeCoRetrievalBase * SimScore(a.sim)
    ensures SimScore(b.sim) <= SimScore(a.sim) ==> d == cfg.edgeCoRetrievalBase * SimScore(b.sim)
  {
    cfg.edgeCoRetrievalBase * (if SimScore(a.sim) < SimScore(b.sim) then SimScore(a.sim) else SimScore(b.sim))
  }

  // Both directions of one pair, or nothing.
  function PairSteps(cfg: Config, a: Candidate, b: Candidate, now: int): seq<Step> {
    var delta := PairDelta(cfg, a, b);
    if delta <= 0.0 then []
    else [ReinforceStep((a.nodeId, b.nodeId), CoRetrieval, delta, true, now),
          ReinforceStep((b.nodeId, a.nodeId), CoRetrieval, delta, true, now)]
  }

  // The pairs of seed i with seeds i + 1 to j - 1.
  function RowSteps(cfg: Config, s: seq<Scored<Candidate>>, i: nat, j: nat, now: int): seq<Step>
    requires i < j <= |s|
  {
    if j == i + 1 then [] else RowSteps(cfg, s, i, j - 1, now) + PairSteps(cfg, s[i].item, s[j - 1].item, now)
  }

  function AllPairSteps(cfg: Config, s: seq<Scored<Candidate>>, i: nat, now: int): seq<Step>
    requires i <= |s|
  {
    if i == 0 then [] else AllPairSteps(cfg, s, i - 1, now) + RowSteps(cfg, s, i - 1, |s|, now)
  }

  // The step that links seed i to seed j.
  function CoRetrievalStep(cfg: Config, s: seq<Scored<Candidate>>, i: nat, j: nat, now: int): Step
    requires i < |s| && j < |s|
  {
    ReinforceStep((s[i].item.nodeId, s[j].item.nodeId), CoRetrieval, PairDelta(cfg, s[i].item, s[j].item), true, now)
  }

  // The step links seeds i and m, in one direction or the other.
  ghost predicate Links(cfg: Config, s: seq<Scored<Candidate>>, i: nat, m: nat, now: int, step: Step)
    requires i < |s| && m < |s|
  {
    && PairDelta(cfg, s[i].item, s[m].item) > 0.0
    && (step == CoRetrievalStep(cfg, s, i, m, now) || step == CoRetrievalStep(cfg, s, m, i, now))
  }

  lemma PairContents(cfg: Config, s: seq<Scored<Candidate>>, i: nat, m: nat, now: int, step: Step)
    requires i < |s| && m < |s|
    ensures step in PairSteps(cfg, s[i].item, s[m].item, now) <==> Links(cfg, s, i, m, now, step)
  {
    var delta := PairDelta(cfg, s[i].item, s[m].item);
    assert PairDelta(cfg, s[m].item, s[i].item) == delta;
  }

  ghost predicate LinksInRow(cfg: Config, s: seq<Scored<Candidate>>, i: nat, j: nat, now: int, step: Step)
    requires i < j <= |s|
  {
    exists m :: i < m < j && Links(cfg, s, i, m, now, step)
  }

  lemma {:induction false} RowContents(cfg: Config, s: seq<Scored<Candidate>>, i: nat, j: nat, now: int, step: Step)
    requires i < j <= |s|
    ensures step in RowSteps(cfg, s, i, j, now) <==> LinksInRow(cfg, s, i, j, now, step)
  {
    hide Links, PairSteps;
    if j > i + 1 {
      RowContents(cfg, s, i, j - 1, now, step);
      PairContents(cfg, s, i, j - 1, now, step);
      if LinksInRow(cfg, s, i, j - 1, now, step) {
        var m :| i < m < j - 1 && Links(cfg, s, i, m, now, step);
        assert i < m < j && Links(cfg, s, i, m, now, step);
      }
    }
  }

  // Every ordered pair of distinct seeds with a positive delta is linked, the same both ways, and nothing else is.
  lemma {:induction false} CoRetrievalContents(cfg: Config, s: seq<Scored<Candidate>>, n: nat, now: int, step: Step)
    requires n <= |s|
    ensures step in AllPairSteps(cfg, s, n, now) <==> exists i :: 0 <= i < n && LinksInRow(cfg, s, i, |s|, now, step)
  {
    hide LinksInRow, RowSteps;
    if n > 0 {
      CoRetrievalContents(cfg, s, n - 1, now, step);
      RowContents(cfg, s, n - 1, |s|, now, step);
    }
  }

  ghost predicate EdgesOnly(g: Graph, h: Graph) {
    h == g.(edges := h.edges)
  }

  method CoRetrievePair(svc: Service, a: Candidate, b: Candidate, now: int)
    requires svc.Ready(now) && a.nodeId != b.nodeId
    requires a.nodeId in svc.store.View().nodes && b.nodeId in svc.store.View().nodes
    modifies svc`journal, svc.store
    ensures svc.Ready(now) && EdgesOnly(old(svc.store.View()), svc.store.View())
    ensures svc.journal == old(svc.journal) + PairSteps(svc.cfg, a, b, now)
  {
    hide Possible, State, WellFormed, SoundDb, DriftOf, ReinforceEdge, PairDelta;
    var delta := PairDelta(svc.cfg, a, b);
    ghost var before := svc.journal;
    if delta <= 0.0 {
      assert before + [] == before;
      return;
    }
    ReinforceKeepsNodes(svc.cfg, svc.store.View(), (a.nodeId, b.nodeId), CoRetrieval, delta, true, now);
    var _ := svc.ApplyEdgeDecayReinforce(a.nodeId, b.nodeId, CoRetrieval, delta, true, now);
    ReinforceKeepsNodes(svc.cfg, svc.store.View(), (b.nodeId, a.nodeId), CoRetrieval, delta, true, now);
    var _ := svc.ApplyEdgeDecayReinforce(b.nodeId, a.nodeId, CoRetrieval, delta, true, now);
    assert svc.journal == before + PairSteps(svc.cfg, a, b, now);
  }

  method CoRetrieveRow(svc: Service, seeds: seq<Scored<Candidate>>, i: nat, now: int)
    requires svc.Ready(now) && DistinctCandidates(seeds) && i < |seeds|
    requires forall i :: 0 <= i < |seeds| ==> seeds[i].item.nodeId in svc.store.View().nodes
    modifies svc`journal, svc.store
    ensures svc.Ready(now) && EdgesOnly(old(svc.store.View()), svc.store.View())
    ensures svc.journal == old(svc.journal) + RowSteps(svc.cfg, seeds, i, |seeds|, now)
  {
    hide Possible, State, WellFormed, SoundDb, DriftOf, PairSteps, PairDelta, SimScore;
    var j := i + 1;
    while j < |seeds|
      invariant i < j <= |seeds| && svc.Ready(now) && EdgesOnly(old(svc.store.View()), svc.store.View())
      invariant svc.journal == old(svc.journal) + RowSteps(svc.cfg, seeds, i, j, now)
    {
      CoRetrievePair(svc, seeds[i].item, seeds[j].item, now);
      j := j + 1;
    }
  }

  method CoRetrieve(svc: Service, seeds: seq<Scored<Candidate>>, now: int)
    requires svc.Ready(now) && DistinctCandidates(seeds)
    requires forall i :: 0 <= i < |seeds| ==> seeds[i].item.nodeId in svc.store.View().nodes
    modifies svc`journal, svc.store
    ensures svc.Ready(now) && EdgesOnly(old(svc.store.View()), svc.store.View())
    ensures svc.journal == old(svc.journal) + AllPairSteps(svc.cfg, seeds, |seeds|, now)
  {
    hide Possible, State, WellFormed, SoundDb, DriftOf, RowSteps;
    var i := 0;
    while i < |seeds|
      invariant 0 <= i <= |seeds| && svc.Ready(now) && EdgesOnly(old(svc.store.View()), svc.store.View())
      invariant svc.journal == old(svc.journal) + AllPairSteps(svc.cfg, seeds, i, now)
    {
      CoRetrieveRow(svc, seeds, i, now);
      i := i + 1;
    }
  }

  lemma ReinforceKeepsNodes(cfg: Config, g: Graph, p: (Id, Id), kind: EdgeKind, delta: real, co: bool, now: int)
    ensures EdgesOnly(g, ReinforceEdge(cfg, g, p, kind, delta, co, now))
  {
  }

  // ----- phase 7: ranking -----

  datatype Ranked = Ranked(nodeId: Id, sim: real, nodeWeight: real, found: Visited)

  // A node's final score: what its best walk carried to it, times its weight factor.
  ghost predicate ByProduct(all: seq<Scored<Ranked>>, weightPow: real -> real) {
    forall i :: 0 <= i < |all| ==> all[i].score == all[i].item.found.score * weightPow(all[i].item.nodeWeight)
  }

  lemma OneMoreProduct(found: seq<Scored<Ranked>>, weightPow: real -> real, r: Scored<Ranked>)
    requires ByProduct(found, weightPow) && r.score == r.item.found.score * weightPow(r.item.nodeWeight)
    ensures ByProduct(found + [r], weightPow)
  {
  }

  lemma NoProducts(weightPow: real -> real)
    ensures ByProduct([], weightPow)
  {
  }

  lemma SortedProducts(found: seq<Scored<Ranked>>, sorted: seq<Scored<Ranked>>, from: seq<nat>, weightPow: real -> real)
    requires ByProduct(found, weightPow) && |sorted| == |from|
    requires forall i :: 0 <= i < |sorted| ==> from[i] < |found| && sorted[i] == found[from[i]]
    ensures ByProduct(sorted, weightPow)
  {
  }

  // A visited node with its current weight, and the similarity it was retrieved with, if any.
  ghost predicate IsRanked(nodes: map<Id, Node>, visit: map<Id, Visited>, cands: seq<Scored<Candidate>>, r: Ranked) {
    && r.nodeId in visit && r.found == visit[r.nodeId]
    && r.nodeId in nodes && r.nodeWeight == nodes[r.nodeId].weight
    && (forall c :: c in cands && c.item.nodeId == r.nodeId ==> r.sim == c.item.sim)
    && ((forall c :: c in cands ==> c.item.nodeId != r.nodeId) ==> r.sim == 0.0)
  }

  ghost predicate RankedOnce(results: seq<Scored<Ranked>>) {
    forall i, j :: 0 <= i < j < |results| ==> results[i].item.nodeId != results[j].item.nodeId
  }

  // The k best of the visited nodes.
  ghost predicate IsTopRanking(nodes: map<Id, Node>, visit: map<Id, Visited>, cands: seq<Scored<Candidate>>, k: nat,
                               all: seq<Scored<Ranked>>, results: seq<Scored<Ranked>>) {
    && |all| == |visit| && RankedOnce(all)
    && (forall i :: 0 <= i < |all| ==> IsRanked(nodes, visit, cands, all[i].item))
    && (forall x :: x in visit ==> exists i :: 0 <= i < |all| && all[i].item.nodeId == x)
    && Descending(all)
    && results == if k < |all| then all[..k] else all
  }

  method Rank(svc: Service, visit: map<Id, Visited>, cands: seq<Scored<Candidate>>, k: nat, weightPow: real -> real)
    returns (results: seq<Scored<Ranked>>, ghost all: seq<Scored<Ranked>>)
    requires DistinctCandidates(cands)
    requires visit.Keys <= svc.store.View().nodes.Keys
    requires forall c :: c in cands ==> c.item.nodeId in svc.store.View().nodes
                                        && c.item.nodeWeight == svc.store.View().nodes[c.item.nodeId].weight
    ensures IsTopRanking(svc.store.View().nodes, visit, cands, k, all, results)
    ensures |results| == if k < |visit| then k else |visit|
    ensures forall i :: 0 <= i < |results| ==> results[i].item.nodeId in visit && results[i].item.found == visit[results[i].item.nodeId]
    ensures ByProduct(all, weightPow)
  {
    hide Collected, IsRanked, Rearranges, IsTopRanking, Descending, ByProduct;
    NoProducts(weightPow);
    ghost var nodes := svc.store.View().nodes;
    NothingCollected(nodes, visit, cands);
    var candById := IndexCandidates(cands);
    var found: seq<Scored<Ranked>> := [];
    var todo := visit.Keys;
    while todo != {}
      invariant todo <= visit.Keys && |found| + |todo| == |visit|
      invariant Collected(nodes, visit, cands, found, todo)
      invariant ByProduct(found, weightPow)
    {
      var x :| x in todo;
      var r := Weigh(svc, visit, cands, candById, x);
      var score := visit[x].score * weightPow(r.nodeWeight);
      OneMoreProduct(found, weightPow, Scored(score, r));
      CollectOne(nodes, visit, cands, found, todo, Scored(score, r));
      found, todo := found + [Scored(score, r)], todo - {x};
    }
    ghost var from;
    var sorted;
    sorted, from := SortByScore(found);
    all := sorted;
    results := if |sorted| > k then sorted[..k] else sorted;
    FinishRanking(nodes, visit, cands, k, found, sorted, from);
    SortedProducts(found, sorted, from, weightPow);
    TopVisited(nodes, visit, cands, k, all, results);
  }

  lemma TopVisited(nodes: map<Id, Node>, visit: map<Id, Visited>, cands: seq<Scored<Candidate>>, k: nat,
                   all: seq<Scored<Ranked>>, results: seq<Scored<Ranked>>)
    requires IsTopRanking(nodes, visit, cands, k, all, results)
    ensures |results| == if k < |visit| then k else |visit|
    ensures forall i :: 0 <= i < |results| ==> results[i].item.nodeId in visit && results[i].item.found == visit[results[i].item.nodeId]
  {
    forall i | 0 <= i < |results|
      ensures results[i].item.nodeId in visit && results[i].item.found == visit[results[i].item.nodeId]
    {
      assert results[i] == all[i] && IsRanked(nodes, visit, cands, all[i].item);
    }
  }

  lemma FinishRanking(nodes: map<Id, Node>, visit: map<Id, Visited>, cands: seq<Scored<Candidate>>, k: nat,
                      found: seq<Scored<Ranked>>, sorted: seq<Scored<Ranked>>, from: seq<nat>)
    requires Rearranges(sorted, found, from) && Descending(sorted) && Collected(nodes, visit, cands, found, {})
    requires |found| == |visit|
    ensures IsTopRanking(nodes, visit, cands, k, sorted, if |sorted| > k then sorted[..k] else sorted)
    ensures |sorted| == |found| == |from| && forall i :: 0 <= i < |sorted| ==> from[i] < |found| && sorted[i] == found[from[i]]
  {
    hide IsRanked;
    AllStillRanked(nodes, visit, cands, found, sorted, from);
  }

  // A candidate's weight as reinforced, any other node's weight as stored.
  method Weigh(svc: Service, visit: map<Id, Visited>, ghost cands: seq<Scored<Candidate>>, candById: map<Id, Candidate>, x: Id)
    returns (r: Ranked)
    requires x in visit && x in svc.store.View().nodes
    requires forall c :: c in cands ==> c.item.nodeId in candById && candById[c.item.nodeId] == c.item
    requires forall id :: id in candById ==> exists c :: c in cands && c.item.nodeId == id && c.item == candById[id]
    requires forall c :: c in cands ==> c.item.nodeId in svc.store.View().nodes
                                        && c.item.nodeWeight == svc.store.View().nodes[c.item.nodeId].weight
    ensures r.nodeId == x && r.found == visit[x] && IsRanked(svc.store.View().nodes, visit, cands, r)
  {
    if x in candById {
      r := Ranked(x, candById[x].sim, candById[x].nodeWeight, visit[x]);
    } else {
      var n := svc.store.GetNode(x);
      r := Ranked(x, 0.0, n.value.weight, visit[x]);
    }
  }

  // Part way through the visit table.
  ghost predicate Collected(nodes: map<Id, Node>, visit: map<Id, Visited>, cands: seq<Scored<Candidate>>,
                            found: seq<Scored<Ranked>>, todo: set<Id>) {
    && RankedOnce(found)
    && (forall i :: 0 <= i < |found| ==> found[i].item.nodeId !in todo && IsRanked(nodes, visit, cands, found[i].item))
    && (forall x :: x in visit && x !in todo ==> exists i :: 0 <= i < |found| && found[i].item.nodeId == x)
  }

  lemma NothingCollected(nodes: map<Id, Node>, visit: map<Id, Visited>, cands: seq<Scored<Candidate>>)
    ensures Collected(nodes, visit, cands, [], visit.Keys)
  {
  }

  lemma CollectOne(nodes: map<Id, Node>, visit: map<Id, Visited>, cands: seq<Scored<Candidate>>,
                   found: seq<Scored<Ranked>>, todo: set<Id>, r: Scored<Ranked>)
    requires Collected(nodes, visit, cands, found, todo) && r.item.nodeId in todo && IsRanked(nodes, visit, cands, r.item)
    ensures Collected(nodes, visit, cands, found + [r], todo - {r.item.nodeId})
  {
    hide IsRanked;
    RankedMore(visit, found, todo, r);
  }

  lemma RankedMore(visit: map<Id, Visited>, found: seq<Scored<Ranked>>, todo: set<Id>, r: Scored<Ranked>)
    requires forall x :: x in visit && x !in todo ==> exists i :: 0 <= i < |found| && found[i].item.nodeId == x
    ensures forall x :: x in visit && x !in todo - {r.item.nodeId} ==>
              exists i :: 0 <= i < |found + [r]| && (found + [r])[i].item.nodeId == x
  {
    forall x | x in visit && x !in todo - {r.item.nodeId}
      ensures exists i :: 0 <= i < |found + [r]| && (found + [r])[i].item.nodeId == x
    {
      if x == r.item.nodeId {
        assert (found + [r])[|found|] == r;
      } else {
        var i :| 0 <= i < |found| && found[i].item.nodeId == x;
        assert (found + [r])[i] == found[i];
      }
    }
  }

  // Sorting loses and repeats nothing.
  lemma AllStillRanked(nodes: map<Id, Node>, visit: map<Id, Visited>, cands: seq<Scored<Candidate>>,
                       found: seq<Scored<Ranked>>, sorted: seq<Scored<Ranked>>, from: seq<nat>)
    requires Rearranges(sorted, found, from) && Collected(nodes, visit, cands, found, {})
    ensures |sorted| == |found| && RankedOnce(sorted)
    ensures forall i :: 0 <= i < |sorted| ==> IsRanked(nodes, visit, cands, sorted[i].item)
    ensures forall x :: x in visit ==> exists i :: 0 <= i < |sorted| && sorted[i].item.nodeId == x
  {
    hide IsRanked;
    forall x | x in visit ensures exists i :: 0 <= i < |sorted| && sorted[i].item.nodeId == x {
      var i :| 0 <= i < |found| && found[i].item.nodeId == x;
      assert found[i] in multiset(sorted);
      assert found[i] in sorted;
    }
  }

  method IndexCandidates(cands: seq<Scored<Candidate>>) returns (byId: map<Id, Candidate>)
    requires DistinctCandidates(cands)
    ensures forall c :: c in cands ==> c.item.nodeId in byId && byId[c.item.nodeId] == c.item
    ensures forall id :: id in byId ==> exists c :: c in cands && c.item.nodeId == id && c.item == byId[id]
  {
    byId := map[];
    var i := 0;
    while i < |cands|
      invariant 0 <= i <= |cands|
      invariant forall m :: 0 <= m < i ==> cands[m].item.nodeId in byId && byId[cands[m].item.nodeId] == cands[m].item
      invariant forall id :: id in byId ==> exists c :: c in cands && c.item.nodeId == id && c.item == byId[id]
    {
      byId := byId[cands[i].item.nodeId := cands[i].item];
      i := i + 1;
    }
  }

  // ----- phase 8: co-traversal of the paths that delivered a result -----

  function TraversalDelta(cfg: Config): real { cfg.edgeCoTraversalMultiplier * cfg.edgeCoRetrievalBase }

  // The first n hops of a path.
  function PathSteps(cfg: Config, path: seq<Id>, n: nat, now: int): seq<Step>
    requires n < |path|
  {
    if n == 0 then []
    else PathSteps(cfg, path, n - 1, now)
         + [ReinforceStep((path[n - 1], path[n]), CoTraversal, TraversalDelta(cfg), true, now)]
  }

  // Every hop of every result reached over an edge; seeds contribute nothing.
  function TraversalSteps(cfg: Config, results: seq<Scored<Ranked>>, n: nat, now: int): seq<Step>
    requires n <= |results|
  {
    if n == 0 then []
    else
      var v := results[n - 1].item.found;
      TraversalSteps(cfg, results, n - 1, now)
      + if v.viaEdge && |v.path| >= 2 then PathSteps(cfg, v.path, |v.path| - 1, now) else []
  }

  // The step that reinforces one hop of a path.
  ghost predicate TraversesHop(cfg: Config, path: seq<Id>, m: nat, now: int, step: Step)
    requires m + 1 < |path|
  {
    step == ReinforceStep((path[m], path[m + 1]), CoTraversal, cfg.edgeCoTraversalMultiplier * cfg.edgeCoRetrievalBase, true, now)
  }

  // Hop after hop in the order of the path.
  lemma {:induction false} PathContents(cfg: Config, path: seq<Id>, n: nat, now: int)
    requires n < |path|
    ensures |PathSteps(cfg, path, n, now)| == n
    ensures forall m :: 0 <= m < n ==> TraversesHop(cfg, path, m, now, PathSteps(cfg, path, n, now)[m])
  {
    if n > 0 {
      PathContents(cfg, path, n - 1, now);
    }
  }

  ghost predicate TraversesPath(cfg: Config, v: Visited, now: int, step: Step) {
    v.viaEdge && exists m :: 0 <= m < |v.path| - 1 && TraversesHop(cfg, v.path, m, now, step)
  }

  ghost predicate TraversesOne(cfg: Config, results: seq<Scored<Ranked>>, n: nat, now: int, step: Step)
    requires n <= |results|
  {
    exists i :: 0 <= i < n && TraversesPath(cfg, results[i].item.found, now, step)
  }

  // Every hop of every returned path that was walked, and nothing else, is reinforced as a co-traversal.
  lemma {:induction false} TraversalContents(cfg: Config, results: seq<Scored<Ranked>>, n: nat, now: int, step: Step)
    requires n <= |results|
    ensures step in TraversalSteps(cfg, results, n, now) <==> TraversesOne(cfg, results, n, now, step)
  {
    hide TraversesPath, PathSteps;
    if n > 0 {
      hide TraversesOne;
      TraversalContents(cfg, results, n - 1, now, step);
      OnePathContents(cfg, results[n - 1].item.found, now, step);
      OneMorePath(cfg, results, n, now, step);
    }
  }

  lemma OneMorePath(cfg: Config, results: seq<Scored<Ranked>>, n: nat, now: int, step: Step)
    requires 0 < n <= |results|
    ensures TraversesOne(cfg, results, n, now, step) <==>
              TraversesOne(cfg, results, n - 1, now, step) || TraversesPath(cfg, results[n - 1].item.found, now, step)
  {
    hide TraversesPath;
  }

  lemma OnePathContents(cfg: Config, v: Visited, now: int, step: Step)
    ensures TraversesPath(cfg, v, now, step) <==> v.viaEdge && |v.path| >= 2 && step in PathSteps(cfg, v.path, |v.path| - 1, now)
  {
    hide PathSteps;
    if v.viaEdge && |v.path| >= 2 {
      var steps := PathSteps(cfg, v.path, |v.path| - 1, now);
      PathContents(cfg, v.path, |v.path| - 1, now);
      if step in steps {
        var m :| 0 <= m < |steps| && steps[m] == step;
        assert TraversesHop(cfg, v.path, m, now, step);
      }
      if TraversesPath(cfg, v, now, step) {
        var m :| 0 <= m < |v.path| - 1 && TraversesHop(cfg, v.path, m, now, step);
        assert TraversesHop(cfg, v.path, m, now, steps[m]);
      }
    }
  }

  // Every node of the path is stored and no hop stays where it is.
  ghost predicate PathStored(g: Graph, path: seq<Id>) {
    && (forall i :: 0 <= i < |path| ==> path[i] in g.nodes)
    && (forall i :: 0 < i < |path| ==> path[i - 1] != path[i])
  }

  method CoTraversePath(svc: Service, path: seq<Id>, now: int)
    requires svc.Ready(now) && |path| >= 2 && PathStored(svc.store.View(), path)
    modifies svc`journal, svc.store
    ensures svc.Ready(now) && EdgesOnly(old(svc.store.View()), svc.store.View())
    ensures svc.journal == old(svc.journal) + PathSteps(svc.cfg, path, |path| - 1, now)
  {
    hide Possible, State, WellFormed, SoundDb, DriftOf, ReinforceEdge, TraversalDelta;
    var i := 0;
    while i + 1 < |path|
      invariant 0 <= i < |path| && svc.Ready(now) && EdgesOnly(old(svc.store.View()), svc.store.View())
      invariant svc.journal == old(svc.journal) + PathSteps(svc.cfg, path, i, now)
    {
      var from, to := path[i], path[i + 1];
      var delta := TraversalDelta(svc.cfg);
      ReinforceKeepsNodes(svc.cfg, svc.store.View(), (from, to), CoTraversal, delta, true, now);
      var _ := svc.ApplyEdgeDecayReinforce(from, to, CoTraversal, delta, true, now);
      i := i + 1;
    }
  }

  method CoTraverse(svc: Service, results: seq<Scored<Ranked>>, now: int)
    requires svc.Ready(now)
    requires forall i :: 0 <= i < |results| ==> PathStored(svc.store.View(), results[i].item.found.path)
    modifies svc`journal, svc.store
    ensures svc.Ready(now) && EdgesOnly(old(svc.store.View()), svc.store.View())
    ensures svc.journal == old(svc.journal) + TraversalSteps(svc.cfg, results, |results|, now)
  {
    hide Possible, State, WellFormed, SoundDb, DriftOf, PathSteps, PathStored;
    ghost var g := svc.store.View();
    var i := 0;
    while i < |results|
      invariant 0 <= i <= |results| && svc.Ready(now) && EdgesOnly(g, svc.store.View())
      invariant svc.journal == old(svc.journal) + TraversalSteps(svc.cfg, results, i, now)
    {
      var v := results[i].item.found;
      if v.viaEdge && |v.path| >= 2 {
        StillStored(g, svc.store.View(), v.path);
        CoTraversePath(svc, v.path, now);
      }
      i := i + 1;
    }
  }

  lemma StillStored(g: Graph, h: Graph, path: seq<Id>)
    requires PathStored(g, path) && h.nodes == g.nodes
    ensures PathStored(h, path)
  {
  }

  // ----- phase 9: provenance -----

  datatype RecallHit = RecallHit(nodeId: Id, text: string, sourceMsgId: Id, sourceText: string, score: real, from: Ranked)

  ghost predicate Describes(g: Graph, r: Scored<Ranked>, h: RecallHit) {
    && r.item.nodeId in g.nodes
    && var n := g.nodes[r.item.nodeId];
       h == RecallHit(r.item.nodeId, n.text, n.sourceMsg,
                      if n.sourceMsg in g.messages then g.messages[n.sourceMsg].text else "", r.score, r.item)
  }

  method Provenance(svc: Service, results: seq<Scored<Ranked>>) returns (hits: seq<RecallHit>)
    requires forall i :: 0 <= i < |results| ==> results[i].item.nodeId in svc.store.View().nodes
    ensures |hits| == |results|
    ensures forall i :: 0 <= i < |hits| ==> Describes(svc.store.View(), results[i], hits[i])
  {
    hits := [];
    var i := 0;
    while i < |results|
      invariant 0 <= i <= |results| == |results| && |hits| == i
      invariant forall m :: 0 <= m < i ==> Describes(svc.store.View(), results[m], hits[m])
    {
      var r := results[i];
      var n := svc.store.GetNode(r.item.nodeId);
      var m := svc.store.GetMessage(n.value.sourceMsg);
      var sourceText := if m.Success? then m.value.text else "";
      hits := hits + [RecallHit(r.item.nodeId, n.value.text, n.value.sourceMsg, sourceText, r.score, r.item)];
      i := i + 1;
    }
  }

  // ----- the whole pipeline -----

  function EffectiveK(cfg: Config, k: int): int { if k <= 0 then cfg.defaultK else k }

  function EffectiveHops(cfg: Config, hops: int): int { if hops == 0 then cfg.defaultHops else if hops < 0 then 0 else hops }

  function SeedScores(seeds: seq<Scored<Candidate>>): map<Id, real> {
    if seeds == [] then map[]
    else SeedScores(seeds[..|seeds| - 1])[seeds[|seeds| - 1].item.nodeId := seeds[|seeds| - 1].score]
  }

  lemma {:induction false} SeedScoresShape(seeds: seq<Scored<Candidate>>)
    requires DistinctCandidates(seeds)
    ensures forall id :: id in SeedScores(seeds) <==> exists i :: 0 <= i < |seeds| && seeds[i].item.nodeId == id
    ensures forall i :: 0 <= i < |seeds| ==> SeedScores(seeds)[seeds[i].item.nodeId] == seeds[i].score
  {
    if seeds != [] {
      var n := |seeds| - 1;
      SeedScoresShape(seeds[..n]);
      assert forall i :: 0 <= i < n ==> seeds[..n][i] == seeds[i];
    }
  }

  // What one recall did, phase by phase.
  datatype Trace = Trace(
    cands: seq<Scored<Candidate>>,
    seeds: seq<Scored<Candidate>>,
    touched: Graph,
    linked: Graph,
    env: Env,
    visit: map<Id, Visited>,
    expanded: Graph,
    all: seq<Scored<Ranked>>,
    results: seq<Scored<Ranked>>,
    readings: seq<Step>)

  ghost predicate Explains(cfg: Config, g: Graph, hits: seq<Hit>, k: nat, hops: int, now: int, t: Trace) {
    && cfg.depthPenaltyFactor > 0.0
    && HitsTouched(cfg, g, hits, now, t.touched)
    && Candidates(cfg, g, hits, now, t.cands)
    && AreSeeds(t.cands, k, t.seeds)
    && EdgesOnly(t.touched, t.linked)
    && t.env == Env(LiveWeights(cfg, t.linked, now), SeedScores(t.seeds), cfg.depthPenaltyFactor, hops)
    && ValidEnv(t.env) && SeedsNonNegative(t.env) && BestWalks(t.env, t.visit)
    && SameButPruned(t.linked, t.expanded)
    && IsTopRanking(t.expanded.nodes, t.visit, t.cands, k, t.all, t.results)
    && (forall i :: 0 <= i < |t.readings| ==> t.readings[i].ReadStep? && t.readings[i].now == now)
  }

  // The steps a recall takes, in order.
  ghost function StepsOf(cfg: Config, hits: seq<Hit>, now: int, t: Trace): seq<Step> {
    TouchSteps(cfg, hits, now)
    + AllPairSteps(cfg, t.seeds, |t.seeds|, now)
    + t.readings
    + TraversalSteps(cfg, t.results, |t.results|, now)
  }

  // ----- glue between the phases -----

  lemma {:induction false} PresentShape(g: Graph, hits: seq<Hit>)
    requires DistinctHits(hits)
    ensures forall h :: h in PresentHits(g, hits) <==> h in hits && h.nodeId in g.nodes
    ensures DistinctHits(PresentHits(g, hits))
  {
    if hits != [] {
      var n := |hits| - 1;
      PresentShape(g, hits[..n]);
      assert hits == hits[..n] + [hits[n]];
    }
  }

  lemma CandidateFacts(cfg: Config, g: Graph, hits: seq<Hit>, now: int, h: Graph, cands: seq<Scored<Candidate>>)
    requires DistinctHits(hits) && HitsTouched(cfg, g, hits, now, h) && Candidates(cfg, g, hits, now, cands)
    ensures DistinctCandidates(cands)
    ensures forall c :: c in cands ==> c.item.nodeId in h.nodes && c.item.nodeWeight == h.nodes[c.item.nodeId].weight
    ensures forall c :: c in cands ==> c.item.nodeWeight >= 0.0
  {
    PresentShape(g, hits);
    var present := PresentHits(g, hits);
    forall i | 0 <= i < |cands|
      ensures cands[i].item.nodeId in h.nodes
      ensures cands[i].item.nodeWeight == h.nodes[cands[i].item.nodeId].weight >= 0.0
    {
      assert IsCandidate(cfg, g, present[i], now, cands[i].item);
      assert present[i] in hits;
    }
    forall i, j | 0 <= i < j < |cands| ensures cands[i].item.nodeId != cands[j].item.nodeId {
      assert IsCandidate(cfg, g, present[i], now, cands[i].item) && IsCandidate(cfg, g, present[j], now, cands[j].item);
    }
  }

  // Walks over stored edges visit stored nodes only, and never stand still.
  lemma VisitStored(cfg: Config, g: Graph, env: Env, visit: map<Id, Visited>, now: int)
    requires WellFormed(g) && env.factor > 0.0 && env.live == LiveWeights(cfg, g, now)
    requires (forall s :: s in env.seeds ==> s in g.nodes) && BestWalks(env, visit)
    ensures visit.Keys <= g.nodes.Keys
    ensures forall x :: x in visit ==> PathStored(g, visit[x].path)
  {
    LiveEdgesStored(cfg, g, now);
    forall x | x in visit ensures x in g.nodes && PathStored(g, visit[x].path) {
      assert Attained(env, x, visit[x]);
      WalkStored(cfg, g, env, visit[x].path, now);
    }
  }

  lemma WalkStored(cfg: Config, g: Graph, env: Env, path: seq<Id>, now: int)
    requires WellFormed(g) && IsWalk(env, path) && (forall p :: p in env.live ==> p in g.edges)
    requires forall s :: s in env.seeds ==> s in g.nodes
    ensures PathStored(g, path)
  {
    forall i | 0 <= i < |path| ensures path[i] in g.nodes {
      if i > 0 {
        assert (path[i - 1], path[i]) in g.edges;
      }
    }
    forall i | 0 < i < |path| ensures path[i - 1] != path[i] {
      assert (path[i - 1], path[i]) in g.edges;
    }
  }

  lemma ServiceWellFormed(svc: Service)
    requires svc.Valid()
    ensures WellFormed(svc.store.View())
  {
  }

  lemma SeedsScored(cands: seq<Scored<Candidate>>, k: nat, seeds: seq<Scored<Candidate>>, nodes: map<Id, Node>)
    requires AreSeeds(cands, k, seeds)
    requires forall c :: c in cands ==> c.score >= 0.0 && c.item.nodeId in nodes
    ensures forall i :: 0 <= i < |seeds| ==> seeds[i].item.nodeId in nodes
    ensures forall id :: id in SeedScores(seeds) <==> id in SeedIds(seeds)
    ensures forall id :: id in SeedScores(seeds) ==> SeedScores(seeds)[id] >= 0.0 && id in nodes
  {
    SeedScoresShape(seeds);
    forall id ensures id in SeedIds(seeds) <==> exists i :: 0 <= i < |seeds| && seeds[i].item.nodeId == id {
      if i :| 0 <= i < |seeds| && seeds[i].item.nodeId == id {
        assert SeedIds(seeds)[i] == id;
      }
    }
  }

  function SeedIds(seeds: seq<Scored<Candidate>>): seq<Id> {
    seq(|seeds|, i requires 0 <= i < |seeds| => seeds[i].item.nodeId)
  }

  // Phases 4 to 6: pick the seeds, link them pairwise, expand.
  method SeedAndExpand(svc: Service, cands: seq<Scored<Candidate>>, k: nat, hops: int, now: int)
    returns (seeds: seq<Scored<Candidate>>, visit: map<Id, Visited>,
             ghost linked: Graph, ghost env: Env, ghost readings: seq<Step>)
    requires svc.Ready(now) && DistinctCandidates(cands)
    requires forall c :: c in cands ==> c.score >= 0.0 && c.item.nodeId in svc.store.View().nodes
    modifies svc`journal, svc.store
    ensures svc.Ready(now) && AreSeeds(cands, k, seeds)
    ensures EdgesOnly(old(svc.store.View()), linked) && SameButPruned(linked, svc.store.View())
    ensures env == Env(LiveWeights(svc.cfg, linked, now), SeedScores(seeds), svc.cfg.depthPenaltyFactor, hops)
    ensures ValidEnv(env) && SeedsNonNegative(env) && BestWalks(env, visit)
    ensures svc.journal == old(svc.journal) + AllPairSteps(svc.cfg, seeds, |seeds|, now) + readings
    ensures forall i :: 0 <= i < |readings| ==> readings[i].ReadStep? && readings[i].now == now
    ensures visit.Keys <= linked.nodes.Keys && forall x :: x in visit ==> PathStored(linked, visit[x].path)
  {
    hide AreSeeds, DistinctCandidates, BestWalks, Leaves, LiveWeights, PathStored, AllPairSteps, SeedScores, SeedIds,
         Possible, State, WellFormed, SoundDb, DriftOf;
    seeds := SelectSeeds(cands, k);
    SeedsScored(cands, k, seeds, svc.store.View().nodes);
    SeedsDistinct(cands, k, seeds);
    CoRetrieve(svc, seeds, now);
    linked := svc.store.View();
    ServiceWellFormed(svc);
    ghost var mid := svc.journal;
    visit, env := svc.Expand(SeedIds(seeds), SeedScores(seeds), hops, now);
    readings := svc.journal[|mid|..];
    VisitStored(svc.cfg, linked, env, visit, now);
  }

  lemma SeedsDistinct(cands: seq<Scored<Candidate>>, k: nat, seeds: seq<Scored<Candidate>>)
    requires AreSeeds(cands, k, seeds)
    ensures DistinctCandidates(seeds)
  {
  }

  // Phases 7 to 9: rank, reinforce the delivering paths, describe.
  method RankAndTraverse(svc: Service, visit: map<Id, Visited>, cands: seq<Scored<Candidate>>, k: nat,
                         weightPow: real -> real, now: int)
    returns (out: seq<RecallHit>, ghost all: seq<Scored<Ranked>>, ghost results: seq<Scored<Ranked>>)
    requires svc.Ready(now) && DistinctCandidates(cands)
    requires visit.Keys <= svc.store.View().nodes.Keys
    requires forall x :: x in visit ==> PathStored(svc.store.View(), visit[x].path)
    requires forall c :: c in cands ==> c.item.nodeId in svc.store.View().nodes
                                        && c.item.nodeWeight == svc.store.View().nodes[c.item.nodeId].weight
    modifies svc`journal, svc.store
    ensures svc.Ready(now) && EdgesOnly(old(svc.store.View()), svc.store.View())
    ensures IsTopRanking(old(svc.store.View()).nodes, visit, cands, k, all, results)
    ensures ByProduct(all, weightPow)
    ensures svc.journal == old(svc.journal) + TraversalSteps(svc.cfg, results, |results|, now)
    ensures |out| == |results|
    ensures forall i :: 0 <= i < |out| ==> Describes(svc.store.View(), results[i], out[i])
  {
    hide DistinctCandidates, PathStored, IsTopRanking, ByProduct, TraversalSteps, Describes,
         Possible, State, WellFormed, SoundDb, DriftOf;
    var ranked;
    ranked, all := Rank(svc, visit, cands, k, weightPow);
    results := ranked;
    RankedVisited(svc.store.View(), visit, cands, k, all, ranked);
    CoTraverse(svc, ranked, now);
    out := Provenance(svc, ranked);
  }

  lemma RankedVisited(g: Graph, visit: map<Id, Visited>, cands: seq<Scored<Candidate>>, k: nat,
                      all: seq<Scored<Ranked>>, results: seq<Scored<Ranked>>)
    requires IsTopRanking(g.nodes, visit, cands, k, all, results)
    requires forall x :: x in visit ==> PathStored(g, visit[x].path)
    ensures forall i :: 0 <= i < |results| ==> results[i].item.nodeId in g.nodes && PathStored(g, results[i].item.found.path)
  {
    forall i | 0 <= i < |results|
      ensures results[i].item.nodeId in g.nodes && PathStored(g, results[i].item.found.path)
    {
      assert results[i] == all[i] && IsRanked(g.nodes, visit, cands, all[i].item);
    }
  }

  // The answer to a recall: its trace explains the phases, and every hit describes a result.
  ghost predicate Answers(cfg: Config, g: Graph, h: Graph, hits: seq<Hit>, k: int, hops: int, now: int, t: Trace, out: seq<RecallHit>) {
    && k >= 0 && Explains(cfg, g, hits, k, hops, now, t) && h.nodes == t.expanded.nodes
    && |out| == |t.results| && forall i :: 0 <= i < |out| ==> Describes(h, t.results[i], out[i])
  }

  // Candidates are scored by similarity and weight, results by what was carried to them and their weight.
  ghost predicate ScoredBy(t: Trace, simPow: real -> real, weightPow: real -> real) {
    && (forall i :: 0 <= i < |t.cands| ==>
          t.cands[i].score == simPow(SimScore(t.cands[i].item.sim)) * weightPow(t.cands[i].item.nodeWeight))
    && ByProduct(t.all, weightPow)
  }

  // What a visited node is worth: the score of its best walk times its weight factor.
  ghost predicate Worth(env: Env, visit: map<Id, Visited>, nodes: map<Id, Node>, weightPow: real -> real, x: Id, s: real) {
    && env.factor > 0.0 && x in visit && x in nodes && IsWalk(env, visit[x].path)
    && s == WalkScore(env, visit[x].path) * weightPow(nodes[x].weight)
  }

  ghost predicate WorthAtMost(env: Env, visit: map<Id, Visited>, nodes: map<Id, Node>, weightPow: real -> real, x: Id, bound: real) {
    exists s :: Worth(env, visit, nodes, weightPow, x, s) && s <= bound
  }

  predicate NotAmong(out: seq<RecallHit>, x: Id) {
    forall j :: 0 <= j < |out| ==> out[j].nodeId != x
  }

  // The k visited nodes worth most, best first, each with what it is worth.
  ghost predicate BestFirst(env: Env, visit: map<Id, Visited>, nodes: map<Id, Node>, weightPow: real -> real, k: int, out: seq<RecallHit>) {
    && |out| == (if k < |visit| then k else |visit|)
    && (forall i :: 0 <= i < |out| ==> Worth(env, visit, nodes, weightPow, out[i].nodeId, out[i].score))
    && (forall i, j :: 0 <= i < j < |out| ==> out[i].score >= out[j].score && out[i].nodeId != out[j].nodeId)
    && (forall i, x :: 0 <= i < |out| && x in visit && NotAmong(out, x) ==>
          WorthAtMost(env, visit, nodes, weightPow, x, out[i].score))
  }

  lemma ProductAt(all: seq<Scored<Ranked>>, weightPow: real -> real, i: nat, carried: real, weight: real)
    requires ByProduct(all, weightPow) && i < |all|
    requires carried == all[i].item.found.score && weight == all[i].item.nodeWeight
    ensures all[i].score == carried * weightPow(weight)
  {
  }

  // Each place in the full ranking carries what its node is worth.
  lemma PlaceOf(t: Trace, weightPow: real -> real, k: nat, i: nat)
    requires t.env.factor > 0.0 && BestWalks(t.env, t.visit) && ByProduct(t.all, weightPow)
    requires IsTopRanking(t.expanded.nodes, t.visit, t.cands, k, t.all, t.results) && i < |t.all|
    ensures Worth(t.env, t.visit, t.expanded.nodes, weightPow, t.all[i].item.nodeId, t.all[i].score)
  {
    hide WalkScore, IsWalk, BestWalks, ByProduct, IsTopRanking, Worth;
    var r := t.all[i].item;
    RankedAt(t.expanded.nodes, t.visit, t.cands, k, t.all, t.results, i);
    RecordedWalk(t.env, t.visit, r.nodeId);
    var carried, weight := WalkScore(t.env, t.visit[r.nodeId].path), t.expanded.nodes[r.nodeId].weight;
    ProductAt(t.all, weightPow, i, carried, weight);
    IsWorth(t.env, t.visit, t.expanded.nodes, weightPow, r.nodeId, t.all[i].score);
  }

  lemma RankedAt(nodes: map<Id, Node>, visit: map<Id, Visited>, cands: seq<Scored<Candidate>>, k: nat,
                 all: seq<Scored<Ranked>>, results: seq<Scored<Ranked>>, i: nat)
    requires IsTopRanking(nodes, visit, cands, k, all, results) && i < |all|
    ensures var r := all[i].item;
            r.nodeId in visit && r.found == visit[r.nodeId] && r.nodeId in nodes && r.nodeWeight == nodes[r.nodeId].weight
  {
    hide Descending;
    assert IsRanked(nodes, visit, cands, all[i].item);
  }

  lemma IsWorth(env: Env, visit: map<Id, Visited>, nodes: map<Id, Node>, weightPow: real -> real, x: Id, s: real)
    requires env.factor > 0.0 && x in visit && x in nodes && IsWalk(env, visit[x].path)
    requires s == WalkScore(env, visit[x].path) * weightPow(nodes[x].weight)
    ensures Worth(env, visit, nodes, weightPow, x, s)
  {
    hide WalkScore, IsWalk;
  }

  lemma RecordedWalk(env: Env, visit: map<Id, Visited>, x: Id)
    requires env.factor > 0.0 && BestWalks(env, visit) && x in visit
    ensures IsWalk(env, visit[x].path) && visit[x].score == WalkScore(env, visit[x].path)
  {
    hide WalkScore, BeatsSeeds, Simple, Closed;
    assert Attained(env, x, visit[x]);
  }

  // Whatever recall answers is the best of what the expansion visited, by walk and weight, best first.
  lemma AnswersBestFirst(cfg: Config, g: Graph, h: Graph, hits: seq<Hit>, k: int, hops: int, now: int, t: Trace, out: seq<RecallHit>,
                         simPow: real -> real, weightPow: real -> real)
    requires Answers(cfg, g, h, hits, k, hops, now, t, out) && ScoredBy(t, simPow, weightPow)
    ensures BestFirst(t.env, t.visit, h.nodes, weightPow, k, out)
  {
    hide HitsTouched, Candidates, AreSeeds, EdgesOnly, LiveWeights, SeedScores, BestWalks, SameButPruned, IsTopRanking, ByProduct,
         BestFirst;
    TopIsBestFirst(t, h, weightPow, k, out);
  }

  lemma TopIsBestFirst(t: Trace, h: Graph, weightPow: real -> real, k: nat, out: seq<RecallHit>)
    requires t.env.factor > 0.0 && BestWalks(t.env, t.visit) && ByProduct(t.all, weightPow) && h.nodes == t.expanded.nodes
    requires IsTopRanking(t.expanded.nodes, t.visit, t.cands, k, t.all, t.results)
    requires |out| == |t.results| && forall i :: 0 <= i < |out| ==> Describes(h, t.results[i], out[i])
    ensures BestFirst(t.env, t.visit, h.nodes, weightPow, k, out)
  {
    hide Worth, WorthAtMost, BestWalks, ByProduct, IsTopRanking, Describes;
    TopOut(t, h, k, out);
    forall i | 0 <= i < |out| ensures Worth(t.env, t.visit, h.nodes, weightPow, out[i].nodeId, out[i].score) {
      PlaceOf(t, weightPow, k, i);
    }
    forall i, x | 0 <= i < |out| && x in t.visit && NotAmong(out, x)
      ensures WorthAtMost(t.env, t.visit, h.nodes, weightPow, x, out[i].score)
    {
      var m := Place(t, k, x);
      PlaceOf(t, weightPow, k, m);
      LeftOut(t.env, t.visit, h.nodes, weightPow, t.all, out, i, x);
    }
  }

  lemma Place(t: Trace, k: nat, x: Id) returns (m: nat)
    requires IsTopRanking(t.expanded.nodes, t.visit, t.cands, k, t.all, t.results) && x in t.visit
    ensures m < |t.all| && t.all[m].item.nodeId == x && Descending(t.all)
  {
    hide IsRanked, Descending;
    m :| 0 <= m < |t.all| && t.all[m].item.nodeId == x;
  }

  // The answer is the top of the ranking.
  lemma TopOut(t: Trace, h: Graph, k: nat, out: seq<RecallHit>)
    requires IsTopRanking(t.expanded.nodes, t.visit, t.cands, k, t.all, t.results)
    requires |out| == |t.results| && forall i :: 0 <= i < |out| ==> Describes(h, t.results[i], out[i])
    ensures |out| == (if k < |t.visit| then k else |t.visit|) && |out| <= |t.all|
    ensures forall i :: 0 <= i < |out| ==> out[i].nodeId == t.all[i].item.nodeId && out[i].score == t.all[i].score
    ensures forall i, j :: 0 <= i < j < |out| ==> out[i].score >= out[j].score && out[i].nodeId != out[j].nodeId
  {
    hide IsRanked;
  }

  lemma LeftOut(env: Env, visit: map<Id, Visited>, nodes: map<Id, Node>, weightPow: real -> real, all: seq<Scored<Ranked>>,
                out: seq<RecallHit>, i: nat, x: Id)
    requires i < |out| <= |all| && NotAmong(out, x) && Descending(all)
    requires forall j :: 0 <= j < |out| ==> out[j].nodeId == all[j].item.nodeId && out[j].score == all[j].score
    requires exists m :: 0 <= m < |all| && all[m].item.nodeId == x && Worth(env, visit, nodes, weightPow, x, all[m].score)
    ensures WorthAtMost(env, visit, nodes, weightPow, x, out[i].score)
  {
    hide Worth;
    var m :| 0 <= m < |all| && all[m].item.nodeId == x && Worth(env, visit, nodes, weightPow, x, all[m].score);
    assert all[i].score >= all[m].score;
  }

  lemma Answered(cfg: Config, g: Graph, h: Graph, hits: seq<Hit>, k: nat, hops: int, now: int, t: Trace, out: seq<RecallHit>)
    requires Explains(cfg, g, hits, k, hops, now, t) && h.nodes == t.expanded.nodes
    requires |out| == |t.results| && forall i :: 0 <= i < |out| ==> Describes(h, t.results[i], out[i])
    ensures Answers(cfg, g, h, hits, k, hops, now, t, out)
  {
    hide Explains, Describes;
  }

  lemma ScoresHold(t: Trace, simPow: real -> real, weightPow: real -> real)
    requires forall i :: 0 <= i < |t.cands| ==>
               t.cands[i].score == simPow(SimScore(t.cands[i].item.sim)) * weightPow(t.cands[i].item.nodeWeight)
    requires ByProduct(t.all, weightPow)
    ensures ScoredBy(t, simPow, weightPow)
  {
    hide ByProduct, SimScore;
  }

  // Phases 3 to 9 on the hits of a vector search.
  method RecallHits(svc: Service, hits: seq<Hit>, k: nat, hops: int, simPow: real -> real, weightPow: real -> real, now: int)
    returns (out: seq<RecallHit>, ghost t: Trace)
    requires svc.Ready(now) && DistinctHits(hits)
    requires forall x :: x >= 0.0 ==> simPow(x) >= 0.0 && weightPow(x) >= 0.0
    modifies svc`journal, svc.store
    ensures svc.Ready(now)
    ensures t.cands != [] ==> Answers(svc.cfg, old(svc.store.View()), svc.store.View(), hits, k, hops, now, t, out)
    ensures t.cands != [] ==> svc.journal == old(svc.journal) + StepsOf(svc.cfg, hits, now, t)
    ensures ScoredBy(t, simPow, weightPow)
    ensures t.cands == [] ==> out == [] && Candidates(svc.cfg, old(svc.store.View()), hits, now, [])
    ensures t.cands == [] ==> svc.journal == old(svc.journal) + TouchSteps(svc.cfg, hits, now)
  {
    hide *;
    ghost var g, start := svc.store.View(), svc.journal;
    var cands := ReinforceHits(svc, hits, simPow, weightPow, now);
    ghost var touched := svc.store.View();
    t := Trace(cands, [], touched, touched, Env(map[], map[], 1.0, 0), map[], touched, [], [], []);
    out := [];
    if cands == [] {
      NoProducts(weightPow);
      ScoresHold(t, simPow, weightPow);
      return;
    }
    CandidateFacts(svc.cfg, g, hits, now, touched, cands);
    ScoresNonNegative(cands, simPow, weightPow);
    var seeds, visit;
    ghost var linked, env, readings;
    seeds, visit, linked, env, readings := SeedAndExpand(svc, cands, k, hops, now);
    ghost var expanded := svc.store.View();
    PhasesKeepNodes(touched, linked, expanded, visit);
    ghost var all, results;
    out, all, results := RankAndTraverse(svc, visit, cands, k, weightPow, now);
    t := Trace(cands, seeds, touched, linked, env, visit, expanded, all, results, readings);
    PositivePenalty(svc, now);
    Explained(svc.cfg, g, hits, k, hops, now, t);
    EdgesKeepNodes(expanded, svc.store.View());
    Answered(svc.cfg, g, svc.store.View(), hits, k, hops, now, t, out);
    ScoresHold(t, simPow, weightPow);
    StepsRegroup(svc.cfg, hits, now, t, start);
  }

  lemma EdgesKeepNodes(g: Graph, h: Graph)
    requires EdgesOnly(g, h)
    ensures h.nodes == g.nodes
  {
  }

  lemma PositivePenalty(svc: Service, now: int)
    requires svc.Ready(now)
    ensures svc.cfg.depthPenaltyFactor > 0.0
  {
  }

  lemma ScoresNonNegative(cands: seq<Scored<Candidate>>, simPow: real -> real, weightPow: real -> real)
    requires forall x :: x >= 0.0 ==> simPow(x) >= 0.0 && weightPow(x) >= 0.0
    requires forall c :: c in cands ==> c.item.nodeWeight >= 0.0
    requires forall i :: 0 <= i < |cands| ==>
               cands[i].score == simPow(SimScore(cands[i].item.sim)) * weightPow(cands[i].item.nodeWeight)
    ensures forall c :: c in cands ==> c.score >= 0.0
  {
    forall i | 0 <= i < |cands| ensures cands[i].score >= 0.0 {
      assert cands[i] in cands;
      MulNonNegative(simPow(SimScore(cands[i].item.sim)), weightPow(cands[i].item.nodeWeight));
    }
  }

  lemma PhasesKeepNodes(touched: Graph, linked: Graph, expanded: Graph, visit: map<Id, Visited>)
    requires EdgesOnly(touched, linked) && SameButPruned(linked, expanded)
    requires forall x :: x in visit ==> PathStored(linked, visit[x].path)
    ensures expanded.nodes == linked.nodes == touched.nodes
    ensures forall x :: x in visit ==> PathStored(expanded, visit[x].path)
  {
  }

  lemma Explained(cfg: Config, g: Graph, hits: seq<Hit>, k: nat, hops: int, now: int, t: Trace)
    requires cfg.depthPenaltyFactor > 0.0
    requires HitsTouched(cfg, g, hits, now, t.touched) && Candidates(cfg, g, hits, now, t.cands)
    requires AreSeeds(t.cands, k, t.seeds) && EdgesOnly(t.touched, t.linked)
    requires t.env == Env(LiveWeights(cfg, t.linked, now), SeedScores(t.seeds), cfg.depthPenaltyFactor, hops)
    requires ValidEnv(t.env) && SeedsNonNegative(t.env) && BestWalks(t.env, t.visit)
    requires SameButPruned(t.linked, t.expanded)
    requires IsTopRanking(t.expanded.nodes, t.visit, t.cands, k, t.all, t.results)
    requires forall i :: 0 <= i < |t.readings| ==> t.readings[i].ReadStep? && t.readings[i].now == now
    ensures Explains(cfg, g, hits, k, hops, now, t)
  {
    hide HitsTouched, Candidates, AreSeeds, LiveWeights, SeedScores, BestWalks, SameButPruned, IsTopRanking;
  }

  lemma StepsRegroup(cfg: Config, hits: seq<Hit>, now: int, t: Trace, start: seq<Step>)
    ensures start + TouchSteps(cfg, hits, now) + AllPairSteps(cfg, t.seeds, |t.seeds|, now) + t.readings
            + TraversalSteps(cfg, t.results, |t.results|, now)
         == start + StepsOf(cfg, hits, now, t)
  {
    hide TouchSteps, AllPairSteps, TraversalSteps;
  }

  // ----- the request -----

  datatype RecallRequest = RecallRequest(query: string, k: int, hops: int)

  // The embedder may fail, answer nothing or a vector of the wrong length; the hits are what the vector search
  // returned for its first vector.
  method Recall(svc: Service, req: RecallRequest, embedded: Option<seq<Vec>>, hits: seq<Hit>, simPow: real -> real, weightPow: real -> real, now: int)
    returns (r: Result<seq<RecallHit>, ServiceError>, ghost t: Option<Trace>)
    requires svc.Ready(now) && DistinctHits(hits)
    requires forall x :: x >= 0.0 ==> simPow(x) >= 0.0 && weightPow(x) >= 0.0
    modifies svc`journal, svc.store
    ensures svc.Ready(now)
    ensures r.Success? <==> TrimSpace(req.query) != "" && embedded.Some? && embedded.value != [] && |embedded.value[0]| == svc.store.dim
    ensures r.Failure? ==> r.error == if TrimSpace(req.query) == "" then BadRequest
                                      else if embedded.None? then EmbedderFailed
                                      else if embedded.value == [] then EmbedderMismatch else Storage(InvalidVector)
    ensures r.Failure? ==> t.None? && svc.store.View() == old(svc.store.View()) && svc.journal == old(svc.journal)
    ensures t.None? && r.Success? ==> r.value == [] && Candidates(svc.cfg, old(svc.store.View()), hits, now, [])
    ensures t.None? && r.Success? ==> svc.journal == old(svc.journal) + TouchSteps(svc.cfg, hits, now)
    ensures t.Some? ==>
              && r.Success? && t.value.cands != [] && ScoredBy(t.value, simPow, weightPow)
              && svc.journal == old(svc.journal) + StepsOf(svc.cfg, hits, now, t.value)
              && Answers(svc.cfg, old(svc.store.View()), svc.store.View(), hits, EffectiveK(svc.cfg, req.k),
                         EffectiveHops(svc.cfg, req.hops), now, t.value, r.value)
              && BestFirst(t.value.env, t.value.visit, svc.store.View().nodes, weightPow, EffectiveK(svc.cfg, req.k), r.value)
  {
    hide *;
    t := None;
    if TrimSpace(req.query) == "" {
      return Failure(BadRequest), t;
    }
    var k := req.k;
    if k <= 0 {
      k := svc.cfg.defaultK;
    }
    var hops := req.hops;
    if hops < 0 {
      hops := 0;
    }
    if req.hops == 0 {
      hops := svc.cfg.defaultHops;
    }
    if embedded.None? {
      return Failure(EmbedderFailed), t;
    }
    if |embedded.value| == 0 {
      return Failure(EmbedderMismatch), t;
    }
    if |embedded.value[0]| != svc.store.dim {
      return Failure(Storage(InvalidVector)), t;
    }
    EffectiveDefaults(svc, req, now);
    var out;
    ghost var trace;
    ghost var g := svc.store.View();
    out, trace := RecallHits(svc, hits, k, hops, simPow, weightPow, now);
    if trace.cands != [] {
      t := Some(trace);
      AnswersBestFirst(svc.cfg, g, svc.store.View(), hits, k, hops, now, trace, out, simPow, weightPow);
    }
    r := Success(out);
  }

  lemma EffectiveDefaults(svc: Service, req: RecallRequest, now: int)
    requires svc.Ready(now)
    ensures svc.cfg.defaultK >= 0
    ensures EffectiveK(svc.cfg, req.k) == if req.k <= 0 then svc.cfg.defaultK else req.k
    ensures EffectiveHops(svc.cfg, req.hops)
         == if req.hops == 0 then svc.cfg.defaultHops else if req.hops < 0 then 0 else req.hops
  {
  }
}
