// The service's statistics: counts and average weights over tenants, from the stores' counters.
module Statistics {
  import opened RealPower
  import opened MemoryGraph
  import opened Neo4jStore
  import opened Dynamics
  import opened History

  datatype StatsResult = StatsResult(nodeCount: int, memoryEdgeCount: int, hnswSize: nat, avgNodeWeight: real, avgEdgeWeight: real)

  ghost function Nodes(graphs: seq<Graph>): nat {
    if graphs == [] then 0 else Nodes(graphs[..|graphs| - 1]) + |graphs[|graphs| - 1].nodes|
  }

  ghost function Edges(graphs: seq<Graph>): nat {
    if graphs == [] then 0 else Edges(graphs[..|graphs| - 1]) + |graphs[|graphs| - 1].edges|
  }

  ghost function Vectors(graphs: seq<Graph>): nat {
    if graphs == [] then 0 else Vectors(graphs[..|graphs| - 1]) + |LiveVectors(graphs[|graphs| - 1])|
  }

  ghost function NodeWeights(graphs: seq<Graph>): real {
    if graphs == [] then 0.0 else NodeWeights(graphs[..|graphs| - 1]) + NodeTotal(graphs[|graphs| - 1].nodes)
  }

  ghost function EdgeWeights(graphs: seq<Graph>): real {
    if graphs == [] then 0.0 else EdgeWeights(graphs[..|graphs| - 1]) + EdgeTotal(graphs[|graphs| - 1].edges)
  }

  // The mean of a total over a count, 0 for no elements.
  ghost predicate Mean(avg: real, total: real, count: nat) {
    avg * count as real == total && (count == 0 ==> avg == 0.0)
  }

  ghost predicate Summarizes(graphs: seq<Graph>, r: StatsResult) {
    && r.nodeCount == Nodes(graphs) && r.memoryEdgeCount == Edges(graphs) && r.hnswSize == Vectors(graphs)
    && Mean(r.avgNodeWeight, NodeWeights(graphs), Nodes(graphs))
    && Mean(r.avgEdgeWeight, EdgeWeights(graphs), Edges(graphs))
  }

  ghost function Views(tenants: seq<Store>): (graphs: seq<Graph>)
    reads tenants
    ensures |graphs| == |tenants|
  {
    if tenants == [] then [] else Views(tenants[..|tenants| - 1]) + [tenants[|tenants| - 1].View()]
  }

  // Tenant after tenant; the averages are over all of them.
  method Stats(tenants: seq<Store>) returns (r: StatsResult)
    requires forall i :: 0 <= i < |tenants| ==> tenants[i].Valid()
    ensures Summarizes(Views(tenants), r)
  {
    hide SoundDb, DriftOf, LiveVectors, Mean, Nodes, Edges, Vectors, NodeWeights, EdgeWeights, NodeTotal, EdgeTotal;
    Nothing();
    r := StatsResult(0, 0, 0, 0.0, 0.0);
    ghost var graphs: seq<Graph> := [];
    var nodeWeightSum, edgeWeightSum := 0.0, 0.0;
    for i := 0 to |tenants|
      invariant graphs == Views(tenants[..i])
      invariant r == StatsResult(Nodes(graphs), Edges(graphs), Vectors(graphs), 0.0, 0.0)
      invariant nodeWeightSum == NodeWeights(graphs) && edgeWeightSum == EdgeWeights(graphs)
    {
      var c, live := tenants[i].TenantStats();
      r := r.(nodeCount := r.nodeCount + c.nodeCount, memoryEdgeCount := r.memoryEdgeCount + c.edgeCount,
              hnswSize := r.hnswSize + live);
      nodeWeightSum := nodeWeightSum + c.sumNodeWeight;
      edgeWeightSum := edgeWeightSum + c.sumEdgeWeight;
      OneMore(graphs, tenants[i].View());
      assert tenants[..i + 1][..i] == tenants[..i];
      graphs := graphs + [tenants[i].View()];
    }
    assert tenants[..|tenants|] == tenants;
    Weightless(graphs);
    Averaged(nodeWeightSum, r.nodeCount);
    Averaged(edgeWeightSum, r.memoryEdgeCount);
    if r.nodeCount > 0 {
      r := r.(avgNodeWeight := nodeWeightSum / r.nodeCount as real);
    }
    if r.memoryEdgeCount > 0 {
      r := r.(avgEdgeWeight := edgeWeightSum / r.memoryEdgeCount as real);
    }
  }

  lemma Averaged(total: real, count: nat)
    ensures if count > 0 then Mean(total / count as real, total, count) else total == 0.0 ==> Mean(0.0, total, count)
  {
  }

  lemma Nothing()
    ensures Nodes([]) == Edges([]) == Vectors([]) == 0 && NodeWeights([]) == EdgeWeights([]) == 0.0
  {
  }

  lemma OneMore(graphs: seq<Graph>, g: Graph)
    ensures var more := graphs + [g];
            && Nodes(more) == Nodes(graphs) + |g.nodes| && Edges(more) == Edges(graphs) + |g.edges|
            && Vectors(more) == Vectors(graphs) + |LiveVectors(g)|
            && NodeWeights(more) == NodeWeights(graphs) + NodeTotal(g.nodes)
            && EdgeWeights(more) == EdgeWeights(graphs) + EdgeTotal(g.edges)
  {
    hide LiveVectors, NodeTotal, EdgeTotal;
    assert (graphs + [g])[..|graphs|] == graphs;
  }

  // Nothing weighs nothing.
  lemma {:induction false} Weightless(graphs: seq<Graph>)
    ensures Nodes(graphs) == 0 ==> NodeWeights(graphs) == 0.0
    ensures Edges(graphs) == 0 ==> EdgeWeights(graphs) == 0.0
  {
    if graphs != [] {
      var g := graphs[|graphs| - 1];
      Weightless(graphs[..|graphs| - 1]);
      assert |g.nodes| == 0 ==> g.nodes == map[];
      assert |g.edges| == 0 ==> g.edges == map[];
    }
  }

  // A count times a weight.
  function Times(n: nat, w: real): real { n as real * w }

  lemma OneMoreTimes(n: nat, w: real)
    ensures Times(n + 1, w) == Times(n, w) + w && Times(0, w) == 0.0
  {
  }

  lemma TimesAdd(m: nat, n: nat, w: real)
    ensures Times(m + n, w) == Times(m, w) + Times(n, w)
  {
  }

  lemma NoEdges()
    ensures EdgeTotal(map[]) == 0.0
  {
  }

  // A total lies between the count times the least and the count times the greatest weight.
  lemma {:induction false} TotalWithin(m: map<(Id, Id), Edge>, low: real, high: real)
    requires forall p :: p in m ==> low <= m[p].weight <= high
    ensures Times(|m|, low) <= EdgeTotal(m) <= Times(|m|, high)
    decreases |m|
  {
    hide EdgeTotal, Times;
    if m == map[] {
      NoEdges();
      OneMoreTimes(0, low);
      OneMoreTimes(0, high);
    } else {
      var p :| p in m;
      DropEdgeTotals(m, p);
      TotalWithin(m - {p}, low, high);
      OneMoreTimes(|m| - 1, low);
      OneMoreTimes(|m| - 1, high);
    }
  }

  lemma {:induction false} WeightsWithin(cfg: Config, graphs: seq<Graph>)
    requires forall i :: 0 <= i < |graphs| ==> Disciplined(cfg, graphs[i])
    ensures Times(Edges(graphs), cfg.edgeFloor) <= EdgeWeights(graphs) <= Times(Edges(graphs), cfg.weightCap)
  {
    hide EdgeTotal, Times;
    if graphs == [] {
      OneMoreTimes(0, cfg.edgeFloor);
      OneMoreTimes(0, cfg.weightCap);
    } else {
      var n := |graphs| - 1;
      WeightsWithin(cfg, graphs[..n]);
      TotalWithin(graphs[n].edges, cfg.edgeFloor, cfg.weightCap);
      TimesAdd(Edges(graphs[..n]), |graphs[n].edges|, cfg.edgeFloor);
      TimesAdd(Edges(graphs[..n]), |graphs[n].edges|, cfg.weightCap);
    }
  }

  // While every edge is between floor and cap, so is the average, whatever the tenants.
  lemma AverageWithin(cfg: Config, graphs: seq<Graph>, r: StatsResult)
    requires Summarizes(graphs, r) && Edges(graphs) > 0 && forall i :: 0 <= i < |graphs| ==> Disciplined(cfg, graphs[i])
    ensures cfg.edgeFloor <= r.avgEdgeWeight <= cfg.weightCap
  {
    hide Edges, EdgeWeights, Disciplined;
    WeightsWithin(cfg, graphs);
    Between(Edges(graphs) as real, cfg.edgeFloor, r.avgEdgeWeight, cfg.weightCap);
  }

  lemma Between(count: real, low: real, avg: real, high: real)
    requires count > 0.0 && count * low <= avg * count <= count * high
    ensures low <= avg <= high
  {
  }
}
