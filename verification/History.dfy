// Sequential histories: every finite sequence of service steps under a clock that never runs backwards.
module History {
  import opened Wrappers
  import opened RealPower
  import opened MemoryGraph
  import opened Dynamics
  import opened Runs
  import opened WriteForget

  datatype Step =
    | NodeStep(id: Id, event: NodeEvent)
    | ReinforceStep(p: (Id, Id), kind: EdgeKind, delta: real, co: bool, now: int)
    | ReadStep(p: (Id, Id), now: int)
    | WriteStep(w: Writing)
    | AbortStep(w: Writing)
    | ForgetStep(msgs: set<Id>, now: int)

  function TimeOf(s: Step): int {
    match s
    case NodeStep(_, e) => e.at
    case ReinforceStep(_, _, _, _, now) => now
    case ReadStep(_, now) => now
    case WriteStep(w) => w.now
    case AbortStep(w) => w.now
    case ForgetStep(_, now) => now
  }

  // What the service guarantees of a step before taking it.
  ghost predicate Enabled(g: Graph, s: Step) {
    match s
    case ReinforceStep(p, _, _, _, _) => p.0 != p.1 && p.0 in g.nodes && p.1 in g.nodes
    case WriteStep(w) => Fresh(g, w)
    case AbortStep(w) => Fresh(g, w)
    case _ => true
  }

  ghost function Apply(cfg: Config, g: Graph, s: Step): Graph
    requires Enabled(g, s)
  {
    match s
    case NodeStep(id, e) => OnNode(cfg, g, id, e)
    case ReinforceStep(p, kind, delta, co, now) => ReinforceEdge(cfg, g, p, kind, delta, co, now)
    case ReadStep(p, now) => ReadEdge(cfg, g, p, now)
    case WriteStep(w) => Ingest(cfg, g, w)
    case AbortStep(w) => Abort(g, w)
    case ForgetStep(msgs, _) => Erase(g, msgs)
  }

  // The graphs a history leads through; None once a step was not enabled or went back in time.
  ghost function After(cfg: Config, g: Graph, run: seq<Step>): Option<Graph> {
    if run == [] then Some(g)
    else
      var before, s := run[..|run| - 1], run[|run| - 1];
      var h := After(cfg, g, before);
      if h.Some? && Enabled(h.value, s) && (before == [] || TimeOf(before[|before| - 1]) <= TimeOf(s))
      then Some(Apply(cfg, h.value, s)) else None
  }

  ghost predicate Possible(cfg: Config, g: Graph, run: seq<Step>) {
    After(cfg, g, run).Some?
  }

  // The graph after a possible history.
  ghost function State(cfg: Config, g: Graph, run: seq<Step>): Graph
    requires Possible(cfg, g, run)
  {
    After(cfg, g, run).value
  }

  lemma {:induction false} PrefixPossible(cfg: Config, g: Graph, run: seq<Step>, k: nat)
    requires Possible(cfg, g, run) && k <= |run|
    ensures Possible(cfg, g, run[..k])
    ensures k < |run| ==> Enabled(State(cfg, g, run[..k]), run[k])
    ensures k < |run| ==> Possible(cfg, g, run[..k + 1])
    ensures k < |run| ==> State(cfg, g, run[..k + 1]) == Apply(cfg, State(cfg, g, run[..k]), run[k])
    ensures 0 < k < |run| ==> TimeOf(run[k - 1]) <= TimeOf(run[k])
  {
    if k == |run| {
      assert run[..k] == run;
    } else {
      var n := |run| - 1;
      if k == n {
        assert run[..k + 1] == run;
      } else {
        PrefixPossible(cfg, g, run[..n], k);
        assert run[..n][..k] == run[..k];
        assert run[..n][..k + 1] == run[..k + 1];
      }
    }
  }

  // A history split in two: the second part starts from where the first one led.
  lemma {:induction false} Resume(cfg: Config, g: Graph, run: seq<Step>, more: seq<Step>)
    requires Possible(cfg, g, run + more)
    ensures Possible(cfg, g, run) && Possible(cfg, State(cfg, g, run), more)
    ensures State(cfg, State(cfg, g, run), more) == State(cfg, g, run + more)
  {
    if more == [] {
      assert run + more == run;
    } else {
      var n := |more| - 1;
      assert (run + more)[..|run| + n] == run + more[..n];
      Resume(cfg, g, run, more[..n]);
    }
  }

  // Extending a history by one enabled step.
  lemma Extend(cfg: Config, g: Graph, run: seq<Step>, s: Step)
    requires Possible(cfg, g, run) && Enabled(State(cfg, g, run), s)
    requires run == [] || TimeOf(run[|run| - 1]) <= TimeOf(s)
    ensures Possible(cfg, g, run + [s]) && State(cfg, g, run + [s]) == Apply(cfg, State(cfg, g, run), s)
  {
    assert (run + [s])[..|run|] == run;
  }

  lemma {:induction false} TimesSorted(cfg: Config, g: Graph, run: seq<Step>, i: nat, j: nat)
    requires Possible(cfg, g, run) && i <= j < |run|
    ensures TimeOf(run[i]) <= TimeOf(run[j])
  {
    if i < j {
      TimesSorted(cfg, g, run, i, j - 1);
      PrefixPossible(cfg, g, run, j);
    }
  }

  // ----- well-formedness -----

  lemma StepWellFormed(cfg: Config, g: Graph, s: Step)
    requires WellFormed(g) && Enabled(g, s)
    ensures WellFormed(Apply(cfg, g, s))
  {
    if s.WriteStep? {
      IngestWellFormed(cfg, g, s.w);
    } else if s.AbortStep? {
      AbortWellFormed(g, s.w);
    }
  }

  // From a well-formed graph every history keeps one edge per ordered pair between present,
  // distinct nodes.
  lemma {:induction false} AlwaysWellFormed(cfg: Config, g: Graph, run: seq<Step>)
    requires WellFormed(g) && Possible(cfg, g, run)
    ensures WellFormed(State(cfg, g, run))
  {
    if run != [] {
      var n := |run| - 1;
      AlwaysWellFormed(cfg, g, run[..n]);
      StepWellFormed(cfg, State(cfg, g, run[..n]), run[n]);
    }
  }

  // Only writes bring identifiers with them.
  lemma StepKeepsIssued(cfg: Config, g: Graph, s: Step, last: Id)
    requires Issued(g, last) && Enabled(g, s) && !s.WriteStep? && !s.AbortStep?
    ensures Issued(Apply(cfg, g, s), last)
  {
  }

  // ----- edge discipline -----

  predicate InRange(cfg: Config, w: real) {
    cfg.edgeFloor <= w <= cfg.weightCap
  }

  ghost predicate Disciplined(cfg: Config, g: Graph) {
    forall p :: p in g.edges ==> InRange(cfg, g.edges[p].weight)
  }

  lemma EdgeStepDisciplined(cfg: Config, g: Graph, s: Step)
    requires Decaying(cfg) && cfg.weightCap > 0.0
    requires Disciplined(cfg, g) && (s.ReinforceStep? || s.ReadStep?) && Enabled(g, s)
    ensures Disciplined(cfg, Apply(cfg, g, s))
  {
    if s.p in g.edges {
      var e := g.edges[s.p];
      DecayShrinks(e.weight, RateForKind(cfg, e.kind), TimeOf(s) - e.lastTouched);
    }
  }

  // A write keeps the discipline exactly when the structural weights it uses are in range.
  lemma WriteDisciplined(cfg: Config, g: Graph, w: Writing)
    requires Fresh(g, w) && WellFormed(g) && Disciplined(cfg, g)
    ensures Disciplined(cfg, Ingest(cfg, g, w)) <==>
            && (|w.ids| > 1 ==> InRange(cfg, cfg.edgeStructuralWeight))
            && (|w.recent| > 0 ==> InRange(cfg, cfg.edgeStructuralTemporalWeight))
  {
    hide LinkChain, LinkRecent, Disciplined, AddsEdges;
    var n := |w.ids|;
    var stored := PutChunks(g, w, n);
    KeepsDiscipline(cfg, g, w);
    RecentAreOld(g, w);
    LinkChainShape(cfg, stored, w.ids, n - 1, w.now);
    var chained := LinkChain(cfg, stored, w.ids, n - 1, w.now);
    LinkRecentShape(cfg, chained, w.ids[0], w.recent, |w.recent|, w.now);
    RangeAfterLinks(cfg, stored, chained, w);
  }

  lemma KeepsDiscipline(cfg: Config, g: Graph, w: Writing)
    requires Fresh(g, w) && Disciplined(cfg, g)
    ensures Disciplined(cfg, PutChunks(g, w, |w.ids|))
  {
    PutChunksNodes(g, w, |w.ids|);
  }

  lemma RangeAfterLinks(cfg: Config, stored: Graph, chained: Graph, w: Writing)
    requires 0 < |w.ids| && Disciplined(cfg, stored)
    requires forall i :: 0 <= i < |w.recent| ==> w.recent[i] !in w.ids
    requires AddsEdges(stored, chained, ChainEdges(w.ids, |w.ids| - 1), StructuralEdge(cfg.edgeStructuralWeight, w.now))
    requires AddsEdges(chained, LinkRecent(cfg, chained, w.ids[0], w.recent, |w.recent|, w.now),
                       SpokeEdges(w.ids[0], w.recent, |w.recent|),
                       StructuralEdge(cfg.edgeStructuralTemporalWeight, w.now))
    ensures Disciplined(cfg, LinkRecent(cfg, chained, w.ids[0], w.recent, |w.recent|, w.now)) <==>
            && (|w.ids| > 1 ==> InRange(cfg, cfg.edgeStructuralWeight))
            && (|w.recent| > 0 ==> InRange(cfg, cfg.edgeStructuralTemporalWeight))
  {
    var h := LinkRecent(cfg, chained, w.ids[0], w.recent, |w.recent|, w.now);
    var chain, spokes := ChainEdges(w.ids, |w.ids| - 1), SpokeEdges(w.ids[0], w.recent, |w.recent|);
    RangeAfterAdding(cfg, stored, chained, chain, StructuralEdge(cfg.edgeStructuralWeight, w.now));
    RangeAfterAdding(cfg, chained, h, spokes, StructuralEdge(cfg.edgeStructuralTemporalWeight, w.now));
    if |w.ids| > 1 {
      var p := (w.ids[0], w.ids[0 + 1]);
      assert Consecutive(w.ids, |w.ids| - 1, p);
      assert p in chain && p !in spokes;
    }
    if |w.recent| > 0 {
      assert Spoke(w.ids[0], w.recent, |w.recent|, (w.ids[0], w.recent[0]));
      assert (w.ids[0], w.recent[0]) in spokes;
    }
  }

  lemma RangeAfterAdding(cfg: Config, g: Graph, h: Graph, added: iset<(Id, Id)>, e: Edge)
    requires AddsEdges(g, h, added, e)
    ensures Disciplined(cfg, g) && (InRange(cfg, e.weight) || added == iset{}) ==> Disciplined(cfg, h)
    ensures !InRange(cfg, e.weight) && added != iset{} ==> !Disciplined(cfg, h)
    ensures forall p :: p in g.edges && p !in added && !InRange(cfg, g.edges[p].weight) ==> !Disciplined(cfg, h)
  {
    if added != iset{} {
      var p :| p in added;
      assert p in h.edges && h.edges[p] == e;
    }
  }

  predicate StructuralInRange(cfg: Config) {
    InRange(cfg, cfg.edgeStructuralWeight) && InRange(cfg, cfg.edgeStructuralTemporalWeight)
  }

  lemma StepDisciplined(cfg: Config, g: Graph, s: Step)
    requires Decaying(cfg) && cfg.weightCap > 0.0 && StructuralInRange(cfg)
    requires WellFormed(g) && Disciplined(cfg, g) && Enabled(g, s)
    ensures Disciplined(cfg, Apply(cfg, g, s))
  {
    match s
    case ReinforceStep(_, _, _, _, _) => EdgeStepDisciplined(cfg, g, s);
    case ReadStep(_, _) => EdgeStepDisciplined(cfg, g, s);
    case WriteStep(w) => WriteDisciplined(cfg, g, w);
    case AbortStep(w) => AbortShape(g, w);
    case NodeStep(_, _) =>
    case ForgetStep(_, _) =>
  }

  // Every stored weight stays between the floor and the cap.
  lemma {:induction false} AlwaysDisciplined(cfg: Config, g: Graph, run: seq<Step>)
    requires Decaying(cfg) && cfg.weightCap > 0.0 && StructuralInRange(cfg)
    requires WellFormed(g) && Disciplined(cfg, g) && Possible(cfg, g, run)
    ensures Disciplined(cfg, State(cfg, g, run))
  {
    hide Disciplined, WellFormed;
    if run != [] {
      var n := |run| - 1;
      AlwaysDisciplined(cfg, g, run[..n]);
      AlwaysWellFormed(cfg, g, run[..n]);
      StepDisciplined(cfg, State(cfg, g, run[..n]), run[n]);
    }
  }

  // ----- what becomes of an edge -----

  predicate Reinforces(s: Step, p: (Id, Id), kind: EdgeKind) {
    s.ReinforceStep? && s.p == p && s.kind == kind
  }

  // How often a run reinforced the edge that way and had it counted.
  function Counted(run: seq<Step>, p: (Id, Id), kind: EdgeKind): nat {
    if run == [] then 0
    else
      var before, s := run[..|run| - 1], run[|run| - 1];
      Counted(before, p, kind) + if Reinforces(s, p, kind) && s.co then 1 else 0
  }

  predicate EverReinforced(run: seq<Step>, p: (Id, Id), kind: EdgeKind) {
    exists k :: 0 <= k < |run| && Reinforces(run[k], p, kind)
  }

  // What the reinforcements of a run have made of an edge, its weight apart.
  ghost predicate GrownInto(e: Edge, f: Edge, run: seq<Step>, p: (Id, Id)) {
    && (f.kind == CoTraversal <==> e.kind == CoTraversal || EverReinforced(run, p, CoTraversal))
    && (f.kind == Structural <==>
          e.kind == Structural && !EverReinforced(run, p, CoRetrieval) && !EverReinforced(run, p, CoTraversal))
    && f.accessCount == e.accessCount + Counted(run, p, CoRetrieval)
    && f.traverseCount == e.traverseCount + Counted(run, p, CoTraversal)
    && f.createdAt == e.createdAt
  }

  lemma StepOnEdge(cfg: Config, g: Graph, s: Step, p: (Id, Id))
    requires WellFormed(g) && Enabled(g, s) && p in g.edges && p in Apply(cfg, g, s).edges
    ensures var e, f := g.edges[p], Apply(cfg, g, s).edges[p];
            if s.ReinforceStep? && s.p == p then ReinforceLaw(cfg, e, f, s.kind, s.delta, s.co, s.now)
            else f == e.(weight := f.weight, lastTouched := f.lastTouched)
  {
    hide Ingest, Abort, ReinforceLaw;
    if s.WriteStep? {
      IngestExtends(cfg, g, s.w);
    } else if s.AbortStep? {
      AbortShape(g, s.w);
    } else if s.ReinforceStep? && s.p == p {
      var f := ReinforceObeys(cfg, g, p, s.kind, s.delta, s.co, s.now);
    }
  }

  lemma EverMore(run: seq<Step>, p: (Id, Id), kind: EdgeKind)
    requires run != []
    ensures EverReinforced(run, p, kind) <==> EverReinforced(run[..|run| - 1], p, kind) || Reinforces(run[|run| - 1], p, kind)
  {
    var n := |run| - 1;
    if EverReinforced(run[..n], p, kind) {
      var k :| 0 <= k < n && Reinforces(run[..n][k], p, kind);
      assert Reinforces(run[k], p, kind);
    }
    if k :| 0 <= k < |run| && Reinforces(run[k], p, kind) {
      assert k < n ==> Reinforces(run[..n][k], p, kind);
    }
  }

  lemma GrowsByOne(e: Edge, mid: Edge, f: Edge, run: seq<Step>, p: (Id, Id))
    requires run != [] && GrownInto(e, mid, run[..|run| - 1], p) && f.createdAt == mid.createdAt
    requires var s := run[|run| - 1];
             if s.ReinforceStep? && s.p == p
             then Promotes(mid.kind, s.kind, f.kind)
                  && Counts(s.kind, s.co, f.accessCount - mid.accessCount, f.traverseCount - mid.traverseCount)
             else f == mid.(weight := f.weight, lastTouched := f.lastTouched)
    ensures GrownInto(e, f, run, p)
  {
    hide EverReinforced;
    EverMore(run, p, CoRetrieval);
    EverMore(run, p, CoTraversal);
  }

  // While an edge survives its kind is the strongest of its first kind and the kinds it was reinforced by, its
  // counters rise by exactly its counted co-retrievals and co-traversals, and it keeps its age.
  lemma {:induction false} SurvivorsGrow(cfg: Config, g: Graph, run: seq<Step>, p: (Id, Id))
    requires WellFormed(g) && Possible(cfg, g, run)
    requires forall k :: 0 <= k <= |run| ==> Possible(cfg, g, run[..k]) && p in State(cfg, g, run[..k]).edges
    ensures p in g.edges && p in State(cfg, g, run).edges
    ensures GrownInto(g.edges[p], State(cfg, g, run).edges[p], run, p)
  {
    hide GrownInto, WellFormed, Apply;
    assert run[..|run|] == run && run[..0] == [];
    assert p in State(cfg, g, run[..0]).edges;
    if run == [] {
      GrownFromNothing(g.edges[p], p);
    } else {
      var n := |run| - 1;
      forall k | 0 <= k <= n
        ensures Possible(cfg, g, run[..n][..k]) && p in State(cfg, g, run[..n][..k]).edges
      {
        assert run[..n][..k] == run[..k];
      }
      SurvivorsGrow(cfg, g, run[..n], p);
      AlwaysWellFormed(cfg, g, run[..n]);
      StepOnEdge(cfg, State(cfg, g, run[..n]), run[n], p);
      GrowsByOne(g.edges[p], State(cfg, g, run[..n]).edges[p], State(cfg, g, run).edges[p], run, p);
    }
  }

  lemma GrownFromNothing(e: Edge, p: (Id, Id))
    ensures GrownInto(e, e, [], p)
  {
  }

  // ----- lazy decay -----

  ghost predicate EdgesBehind(g: Graph, p: (Id, Id), now: int) {
    p in g.edges ==> g.edges[p].lastTouched <= now
  }

  // The two graphs agree about one edge.
  ghost predicate SameEdge(g: Graph, h: Graph, p: (Id, Id)) {
    (p in g.edges <==> p in h.edges) && (p in g.edges ==> h.edges[p] == g.edges[p])
  }

  lemma StepElsewhere(cfg: Config, g: Graph, s: Step, p: (Id, Id))
    requires WellFormed(g) && Enabled(g, s) && p.0 in g.nodes && p.1 in g.nodes
    requires p.0 in Apply(cfg, g, s).nodes && p.1 in Apply(cfg, g, s).nodes
    requires (s.ReinforceStep? || s.ReadStep?) ==> s.p != p
    ensures SameEdge(g, Apply(cfg, g, s), p)
  {
    hide Ingest, Abort, ExtendsNodes, ExtendsVectors;
    if s.WriteStep? {
      IngestExtends(cfg, g, s.w);
    } else if s.AbortStep? {
      AbortShape(g, s.w);
    }
  }

  lemma SameReading(cfg: Config, g: Graph, h: Graph, p: (Id, Id), t: int)
    requires SameEdge(g, h, p)
    ensures Reading(cfg, h, p, t) == Reading(cfg, g, p, t)
  {
    hide DecayedEdge;
  }

  // A step that neither reinforces p nor removes its ends leaves every later reading of p as it was.
  lemma QuietStepKeepsReading(cfg: Config, g: Graph, s: Step, p: (Id, Id), t: int)
    requires Decaying(cfg) && WellFormed(g) && Enabled(g, s)
    requires !(s.ReinforceStep? && s.p == p) && p.0 in g.nodes && p.1 in g.nodes
    requires p.0 in Apply(cfg, g, s).nodes && p.1 in Apply(cfg, g, s).nodes
    requires EdgesBehind(g, p, TimeOf(s)) && TimeOf(s) <= t
    ensures Reading(cfg, Apply(cfg, g, s), p, t) == Reading(cfg, g, p, t)
    ensures EdgesBehind(Apply(cfg, g, s), p, TimeOf(s))
  {
    hide Ingest, Abort, Fresh, WellFormed;
    if s.ReadStep? && s.p == p {
      if p in g.edges {
        ReadTwice(cfg, g.edges[p], s.now, t);
      }
    } else {
      hide Apply, Reading;
      StepElsewhere(cfg, g, s, p);
      SameReading(cfg, g, Apply(cfg, g, s), p, t);
    }
  }

  // Reading on the way changes neither the weight nor the liveness seen later.
  lemma ReadTwice(cfg: Config, e: Edge, s: int, t: int)
    requires Decaying(cfg) && e.lastTouched <= s <= t
    ensures DecayedEdge(cfg, DecayedEdge(cfg, e, s), t) == DecayedEdge(cfg, e, t)
    ensures DecayedEdge(cfg, e, t).weight <= DecayedEdge(cfg, e, s).weight
  {
    var rate := RateForKind(cfg, e.kind);
    DecayComposes(e.weight, rate, s - e.lastTouched, t - s);
    DecayShrinks(DecayedEdge(cfg, e, s).weight, rate, t - s);
    DecayShrinks(e.weight, rate, s - e.lastTouched);
  }

  // What a reading just before a reinforcement does not show in: the two ages make no difference after the cap and
  // the floor, or, when the reading prunes the edge, neither the edge made anew nor the one unread would be kept.
  predicate Unnoticed(cfg: Config, e: Edge, kind: EdgeKind, delta: real, now: int) {
    var x := Decay(e.weight, RateForKind(cfg, e.kind), now - e.lastTouched);
    var y := Decay(e.weight, RateForKind(cfg, kind), now - e.lastTouched);
    var read, unread := CapWeight(x + delta, cfg.weightCap), CapWeight(y + delta, cfg.weightCap);
    if x >= cfg.edgeFloor then read == unread || (read < cfg.edgeFloor && unread < cfg.edgeFloor)
    else CapWeight(delta, cfg.weightCap) < cfg.edgeFloor && unread < cfg.edgeFloor
  }

  // A reinforcement ages the edge at the rate of its own kind, a reading at the rate of the stored kind and prunes it
  // below the floor. So a reading just before a reinforcement changes its result exactly when it is noticed.
  lemma ReadChangesReinforcement(cfg: Config, g: Graph, p: (Id, Id), kind: EdgeKind, delta: real, co: bool, now: int)
    requires Decaying(cfg) && p in g.edges && (g.edges[p].createdAt < now || Reading(cfg, g, p, now).Some?)
    ensures ReinforceEdge(cfg, ReadEdge(cfg, g, p, now), p, kind, delta, co, now) == ReinforceEdge(cfg, g, p, kind, delta, co, now)
       <==> Unnoticed(cfg, g.edges[p], kind, delta, now)
  {
    hide Decay, ReinforcedEdge, NewEdge, CapWeight, DecayedEdge;
    var e := g.edges[p];
    var x := Decay(e.weight, RateForKind(cfg, e.kind), now - e.lastTouched);
    var decayed, made := DecayedEdge(cfg, e, now), NewEdge(cfg, kind, delta, co, now);
    var seen, unread := ReinforcedEdge(cfg, decayed, kind, delta, co, now), ReinforcedEdge(cfg, e, kind, delta, co, now);
    ReadThenReinforced(cfg, e, kind, delta, co, now);
    PutAgain(g.edges, p, decayed, seen);
    PutAgain(g.edges, p, decayed, made);
    if x >= cfg.edgeFloor {
      PutTellsApart(g.edges, p, seen, unread);
    } else {
      PutTellsApart(g.edges, p, made, unread);
    }
  }

  lemma PutAgain(edges: map<(Id, Id), Edge>, p: (Id, Id), d: Edge, e: Edge)
    ensures edges[p := d][p := e] == edges[p := e] && (edges - {p})[p := e] == edges[p := e]
    ensures edges[p := d] - {p} == edges - {p} && p !in edges - {p}
  {
  }

  lemma PutTellsApart(edges: map<(Id, Id), Edge>, p: (Id, Id), d: Edge, e: Edge)
    ensures edges[p := d] == edges[p := e] <==> d == e
    ensures edges[p := d] != edges - {p} && edges[p := e] != edges - {p}
  {
    assert edges[p := d][p] == d && edges[p := e][p] == e && p !in edges - {p};
  }

  // The edge reinforced after a reading, the edge reinforced unread, and the edge made anew.
  lemma ReadThenReinforced(cfg: Config, e: Edge, kind: EdgeKind, delta: real, co: bool, now: int)
    requires Decaying(cfg)
    ensures var x := Decay(e.weight, RateForKind(cfg, e.kind), now - e.lastTouched);
            var y := Decay(e.weight, RateForKind(cfg, kind), now - e.lastTouched);
            var unread := ReinforcedEdge(cfg, e, kind, delta, co, now);
            && DecayedEdge(cfg, e, now).weight == x
            && ReinforcedEdge(cfg, DecayedEdge(cfg, e, now), kind, delta, co, now)
               == unread.(weight := CapWeight(x + delta, cfg.weightCap))
            && unread.weight == CapWeight(y + delta, cfg.weightCap) && unread.createdAt == e.createdAt
            && NewEdge(cfg, kind, delta, co, now).weight == CapWeight(delta, cfg.weightCap)
            && NewEdge(cfg, kind, delta, co, now).createdAt == now
  {
    hide CapWeight;
    DecayShrinks(e.weight, RateForKind(cfg, e.kind), now - e.lastTouched);
  }

  // Away from the cap and the floor: exactly when the rates are the same and the reading finds the edge alive.
  lemma ReadHarmless(cfg: Config, g: Graph, p: (Id, Id), kind: EdgeKind, delta: real, co: bool, now: int)
    requires Decaying(cfg) && p in g.edges
    requires g.edges[p].weight > 0.0 && g.edges[p].createdAt <= g.edges[p].lastTouched < now
    requires cfg.edgeFloor <= delta && 0.0 <= delta && (cfg.weightCap > 0.0 ==> g.edges[p].weight + delta <= cfg.weightCap)
    ensures ReinforceEdge(cfg, ReadEdge(cfg, g, p, now), p, kind, delta, co, now)
            == ReinforceEdge(cfg, g, p, kind, delta, co, now)
       <==> RateForKind(cfg, kind) == RateForKind(cfg, g.edges[p].kind) && Reading(cfg, g, p, now).Some?
  {
    hide Decay, ReinforceEdge, ReadEdge, RateForKind;
    var e := g.edges[p];
    var stored, incoming, dt := RateForKind(cfg, e.kind), RateForKind(cfg, kind), now - e.lastTouched;
    RatesPositive(cfg, e.kind);
    RatesPositive(cfg, kind);
    ReadChangesReinforcement(cfg, g, p, kind, delta, co, now);
    DecayShrinks(e.weight, stored, dt);
    DecayShrinks(e.weight, incoming, dt);
    RatesTellApart(e.weight, stored, incoming, dt);
  }

  lemma RatesPositive(cfg: Config, kind: EdgeKind)
    requires Decaying(cfg)
    ensures 0.0 < RateForKind(cfg, kind) <= 1.0
  {
  }

  // An edge of 0.06 that halves to 0.03, under a floor of 0.05, and is then reinforced by 0.5 of its own kind:
  // read on the way it is made anew, unread it keeps its age, its counter and what was left of its weight.
  lemma PrunedOnTheWay(cfg: Config, g: Graph, p: (Id, Id))
    requires cfg.edgeStructuralRate == 0.5 && cfg.edgeFloor == 0.05 && cfg.weightCap == 1.0
    requires p in g.edges && g.edges[p] == Edge(Structural, 0.06, 0, 0, 3, 0)
    ensures ReinforceEdge(cfg, ReadEdge(cfg, g, p, 1), p, Structural, 0.5, false, 1).edges[p] == Edge(Structural, 0.5, 1, 1, 0, 0)
    ensures ReinforceEdge(cfg, g, p, Structural, 0.5, false, 1).edges[p] == Edge(Structural, 0.53, 1, 0, 3, 0)
  {
    assert Pow(0.5, 1) == 0.5 * Pow(0.5, 0) == 0.5;
    assert Decay(0.06, 0.5, 1) == 0.03;
    assert DecayedEdge(cfg, g.edges[p], 1).weight == 0.03;
  }

  lemma RatesTellApart(w: real, r: real, s: real, dt: nat)
    requires w > 0.0 && dt > 0 && r > 0.0 && s > 0.0
    ensures Decay(w, r, dt) == Decay(w, s, dt) <==> r == s
  {
    if r < s {
      PowStrict(r, s, dt);
      MulPositive(w, Pow(s, dt) - Pow(r, dt));
    } else if s < r {
      PowStrict(s, r, dt);
      MulPositive(w, Pow(r, dt) - Pow(s, dt));
    }
  }

  // Whatever else happened meanwhile, an edge that was not reinforced and whose ends were not forgotten
  // reads at t exactly as if nobody had looked since the start.
  lemma {:induction false} QuietHistoryKeepsReading(cfg: Config, g: Graph, run: seq<Step>, p: (Id, Id), t: int)
    requires Decaying(cfg) && WellFormed(g) && Possible(cfg, g, run)
    requires forall k :: 0 <= k < |run| ==> !(run[k].ReinforceStep? && run[k].p == p)
    requires forall k :: 0 <= k <= |run| ==>
               Possible(cfg, g, run[..k]) && p.0 in State(cfg, g, run[..k]).nodes && p.1 in State(cfg, g, run[..k]).nodes
    requires run != [] ==> EdgesBehind(g, p, TimeOf(run[0])) && TimeOf(run[|run| - 1]) <= t
    ensures Reading(cfg, State(cfg, g, run), p, t) == Reading(cfg, g, p, t)
    ensures run != [] ==> EdgesBehind(State(cfg, g, run), p, TimeOf(run[|run| - 1]))
  {
    if run != [] {
      var n := |run| - 1;
      assert run[..|run|] == run;
      forall k | 0 <= k <= n
        ensures Possible(cfg, g, run[..n][..k])
        ensures p.0 in State(cfg, g, run[..n][..k]).nodes && p.1 in State(cfg, g, run[..n][..k]).nodes
      {
        assert run[..n][..k] == run[..k];
      }
      QuietHistoryKeepsReading(cfg, g, run[..n], p, t);
      AlwaysWellFormed(cfg, g, run[..n]);
      QuietStepKeepsReading(cfg, State(cfg, g, run[..n]), run[n], p, t);
    }
  }

  // The eager value of a reading: the floor test applied to w0 * r^(t - t0).
  lemma EagerReading(cfg: Config, g: Graph, p: (Id, Id), t: int)
    requires Decaying(cfg) && p in g.edges && g.edges[p].weight > 0.0 && g.edges[p].lastTouched <= t
    ensures var e := g.edges[p];
            var w := e.weight * Pow(RateForKind(cfg, e.kind), t - e.lastTouched);
            && (Reading(cfg, g, p, t).Some? <==> w >= cfg.edgeFloor)
            && (w >= cfg.edgeFloor ==> Reading(cfg, g, p, t).value == e.(weight := w, lastTouched := t))
  {
    assert Pow(RateForKind(cfg, g.edges[p].kind), 0) == 1.0;
  }

  // Lazy decay refines eager decay: after any history that neither reinforced the edge nor forgot its ends, a
  // reading at t finds it alive exactly when w0 * r^(t - t0) reaches the floor, and with that weight, however
  // often it was read, pruned or not, on the way.
  lemma LazyDecayIsEager(cfg: Config, g: Graph, run: seq<Step>, p: (Id, Id), t: int)
    requires Decaying(cfg) && WellFormed(g) && Possible(cfg, g, run)
    requires p in g.edges && g.edges[p].weight > 0.0 && g.edges[p].lastTouched <= if run == [] then t else TimeOf(run[0])
    requires forall k :: 0 <= k < |run| ==> !(run[k].ReinforceStep? && run[k].p == p)
    requires forall k :: 0 <= k <= |run| ==>
               Possible(cfg, g, run[..k]) && p.0 in State(cfg, g, run[..k]).nodes && p.1 in State(cfg, g, run[..k]).nodes
    requires run != [] ==> TimeOf(run[|run| - 1]) <= t
    ensures var e := g.edges[p];
            var read := Reading(cfg, State(cfg, g, run), p, t);
            e.lastTouched <= t
            && var w := e.weight * Pow(RateForKind(cfg, e.kind), t - e.lastTouched);
               (read.Some? <==> w >= cfg.edgeFloor) && (read.Some? ==> read.value == e.(weight := w, lastTouched := t))
  {
    hide WellFormed, Possible, State, Reading, Pow;
    QuietHistoryKeepsReading(cfg, g, run, p, t);
    if run != [] {
      TimesSorted(cfg, g, run, 0, |run| - 1);
    }
    EagerReading(cfg, g, p, t);
  }

  // ----- the refractory gate -----

  predicate Touches(s: Step, id: Id) {
    s.NodeStep? && s.id == id
  }

  // A bump that found its node and passed the gate.
  ghost predicate Applied(cfg: Config, g: Graph, s: Step, id: Id) {
    && s.NodeStep? && s.id == id && s.event.Bump?
    && id in g.nodes && GateOpen(cfg, g.nodes[id], s.event.at)
  }

  ghost predicate AppliedAt(cfg: Config, g: Graph, run: seq<Step>, k: nat, id: Id)
    requires Possible(cfg, g, run) && k < |run|
  {
    PrefixPossible(cfg, g, run, k);
    Applied(cfg, State(cfg, g, run[..k]), run[k], id)
  }

  // A node is never younger than its last touch, unless it is gone.
  ghost predicate SeenSince(g: Graph, id: Id, t: int) {
    id in g.nodes ==> g.nodes[id].lastTouched >= t
  }

  lemma StepKeepsSeen(cfg: Config, g: Graph, s: Step, id: Id, t: int)
    requires WellFormed(g) && Enabled(g, s) && t <= TimeOf(s)
    requires SeenSince(g, id, t) || Touches(s, id)
    ensures SeenSince(Apply(cfg, g, s), id, t)
  {
    hide Ingest, Abort;
    if s.WriteStep? {
      IngestExtends(cfg, g, s.w);
      if id in s.w.ids {
        WrittenNow(cfg, g, s.w, id);
      }
    } else if s.AbortStep? {
      AbortShape(g, s.w);
    } else if s.NodeStep? && id in g.nodes {
      EventTime(cfg, g.nodes[id], s.event);
    }
  }

  lemma WrittenNow(cfg: Config, g: Graph, w: Writing, id: Id)
    requires Fresh(g, w) && WellFormed(g) && id in w.ids
    ensures id in Ingest(cfg, g, w).nodes && Ingest(cfg, g, w).nodes[id].lastTouched == w.now
  {
    hide LinkChain, LinkRecent, PutChunks, WellFormed;
    var i :| 0 <= i < |w.ids| && w.ids[i] == id;
    PutChunksNodes(g, w, |w.ids|);
    LinkChainKeepsNodes(cfg, PutChunks(g, w, |w.ids|), w.ids, |w.ids| - 1, w.now);
    LinkRecentKeepsNodes(cfg, LinkChain(cfg, PutChunks(g, w, |w.ids|), w.ids, |w.ids| - 1, w.now),
                         w.ids[0], w.recent, |w.recent|, w.now);
  }

  lemma {:induction false} LinkChainKeepsNodes(cfg: Config, g: Graph, ids: seq<Id>, k: nat, now: int)
    requires k < |ids|
    ensures LinkChain(cfg, g, ids, k, now).nodes == g.nodes
  {
    if k > 0 {
      LinkChainKeepsNodes(cfg, g, ids, k - 1, now);
    }
  }

  lemma {:induction false} LinkRecentKeepsNodes(cfg: Config, g: Graph, hub: Id, recent: seq<Id>, k: nat, now: int)
    requires k <= |recent|
    ensures LinkRecent(cfg, g, hub, recent, k, now).nodes == g.nodes
  {
    if k > 0 {
      LinkRecentKeepsNodes(cfg, g, hub, recent, k - 1, now);
    }
  }

  lemma {:induction false} SeenAfterTouch(cfg: Config, g: Graph, run: seq<Step>, j: nat, k: nat, id: Id)
    requires WellFormed(g) && Possible(cfg, g, run)
    requires j < k <= |run| && Touches(run[j], id)
    ensures Possible(cfg, g, run[..k]) && SeenSince(State(cfg, g, run[..k]), id, TimeOf(run[j]))
  {
    PrefixPossible(cfg, g, run, k - 1);
    AlwaysWellFormed(cfg, g, run[..k - 1]);
    TimesSorted(cfg, g, run, j, k - 1);
    if j < k - 1 {
      SeenAfterTouch(cfg, g, run, j, k - 1, id);
    }
    StepKeepsSeen(cfg, State(cfg, g, run[..k - 1]), run[k - 1], id, TimeOf(run[j]));
  }

  // An applied bump means that nothing of any kind touched its node during the refractory period.
  lemma GateOpensOnlyAfterQuiet(cfg: Config, g: Graph, run: seq<Step>, j: nat, k: nat, id: Id)
    requires WellFormed(g) && Possible(cfg, g, run) && cfg.refractoryPeriod > 0
    requires j < k < |run| && Touches(run[j], id) && AppliedAt(cfg, g, run, k, id)
    ensures TimeOf(run[k]) - TimeOf(run[j]) >= cfg.refractoryPeriod
  {
    SeenAfterTouch(cfg, g, run, j, k, id);
  }

  // The last touch of a node that stayed: the one it came with if nothing touched it, otherwise the time of the
  // last step that did.
  lemma {:induction false} LastSeen(cfg: Config, g: Graph, run: seq<Step>, id: Id)
    requires WellFormed(g) && Possible(cfg, g, run)
    requires forall i :: 0 <= i <= |run| ==> Possible(cfg, g, run[..i]) && id in State(cfg, g, run[..i]).nodes
    ensures id in g.nodes && id in State(cfg, g, run).nodes
    ensures var t := State(cfg, g, run).nodes[id].lastTouched;
            && ((forall j :: 0 <= j < |run| ==> !Touches(run[j], id)) ==> t == g.nodes[id].lastTouched)
            && ((exists j :: 0 <= j < |run| && Touches(run[j], id)) ==> exists j :: 0 <= j < |run| && Touches(run[j], id) && t == TimeOf(run[j]))
            && (forall j :: 0 <= j < |run| && Touches(run[j], id) ==> TimeOf(run[j]) <= t)
  {
    hide WellFormed, Apply, AfterEvent, Enabled;
    assert run[..|run|] == run && run[..0] == [];
    assert id in State(cfg, g, run[..0]).nodes;
    if run != [] {
      var n := |run| - 1;
      forall i | 0 <= i <= n ensures Possible(cfg, g, run[..n][..i]) && id in State(cfg, g, run[..n][..i]).nodes {
        assert run[..n][..i] == run[..i];
      }
      PrefixPossible(cfg, g, run, n);
      hide State, Possible;
      LastSeen(cfg, g, run[..n], id);
      AlwaysWellFormed(cfg, g, run[..n]);
      StepOnNode(cfg, State(cfg, g, run[..n]), run[n], id);
      forall j | 0 <= j < n ensures run[..n][j] == run[j] && TimeOf(run[j]) <= TimeOf(run[n]) {
        TimesSorted(cfg, g, run, j, n);
      }
      if Touches(run[n], id) {
        EventTime(cfg, State(cfg, g, run[..n]).nodes[id], run[n].event);
      }
    }
  }

  // A bump of a node that stayed is applied exactly when nothing of any kind touched the node during the refractory
  // period before it, and the node was not made or last touched within that period either.
  lemma GateOpensExactlyAfterQuiet(cfg: Config, g: Graph, run: seq<Step>, k: nat, id: Id)
    requires WellFormed(g) && Possible(cfg, g, run) && cfg.refractoryPeriod > 0
    requires k < |run| && Touches(run[k], id) && run[k].event.Bump?
    requires forall i :: 0 <= i <= k ==> Possible(cfg, g, run[..i]) && id in State(cfg, g, run[..i]).nodes
    requires id in g.nodes && g.nodes[id].lastTouched <= TimeOf(run[0])
    ensures AppliedAt(cfg, g, run, k, id) <==>
            && TimeOf(run[k]) - g.nodes[id].lastTouched >= cfg.refractoryPeriod
            && forall j :: 0 <= j < k && Touches(run[j], id) ==> TimeOf(run[k]) - TimeOf(run[j]) >= cfg.refractoryPeriod
  {
    hide WellFormed, Apply, State, Possible;
    forall i | 0 <= i <= k ensures Possible(cfg, g, run[..k][..i]) && id in State(cfg, g, run[..k][..i]).nodes {
      assert run[..k][..i] == run[..i];
    }
    LastSeen(cfg, g, run[..k], id);
    forall j | 0 <= j < k ensures run[..k][j] == run[j] && TimeOf(run[0]) <= TimeOf(run[j]) {
      TimesSorted(cfg, g, run, 0, j);
    }
  }

  lemma BumpTouches(cfg: Config, g: Graph, run: seq<Step>, k: nat, id: Id)
    requires Possible(cfg, g, run) && k < |run| && AppliedAt(cfg, g, run, k, id)
    ensures Touches(run[k], id)
  {
  }

  predicate InWindow(s: Step, start: int, length: nat) {
    start <= TimeOf(s) <= start + length
  }

  // How many of the first k steps are applied bumps of the node inside the window.
  ghost function AppliedWithin(cfg: Config, g: Graph, run: seq<Step>, k: nat, id: Id, start: int, length: nat): nat
    requires Possible(cfg, g, run) && k <= |run|
  {
    if k == 0 then 0
    else AppliedWithin(cfg, g, run, k - 1, id, start, length)
         + if AppliedAt(cfg, g, run, k - 1, id) && InWindow(run[k - 1], start, length) then 1 else 0
  }

  lemma OneMore(c: int, r: int)
    ensures c * r == (c - 1) * r + r
  {
  }

  // Each further applied bump in the window comes a full period after the one before.
  lemma {:induction false} AppliedBumpsSpread(cfg: Config, g: Graph, run: seq<Step>, k: nat, id: Id, start: int, length: nat)
    returns (last: nat)
    requires WellFormed(g) && Possible(cfg, g, run) && cfg.refractoryPeriod > 0 && k <= |run|
    ensures var c := AppliedWithin(cfg, g, run, k, id, start, length);
            c > 0 ==> && last < k && Touches(run[last], id) && InWindow(run[last], start, length)
                      && (c - 1) * cfg.refractoryPeriod <= TimeOf(run[last]) - start
  {
    hide AppliedAt, WellFormed;
    last := 0;
    if k > 0 {
      last := AppliedBumpsSpread(cfg, g, run, k - 1, id, start, length);
      if AppliedAt(cfg, g, run, k - 1, id) && InWindow(run[k - 1], start, length) {
        var c := AppliedWithin(cfg, g, run, k - 1, id, start, length);
        BumpTouches(cfg, g, run, k - 1, id);
        if c > 0 {
          GateOpensOnlyAfterQuiet(cfg, g, run, last, k - 1, id);
          OneMore(c, cfg.refractoryPeriod);
        }
        last := k - 1;
      }
    }
  }

  // Any window of length T holds at most T / R + 1 applied bumps of one node, across all
  // interleavings of recalls, writes, forgets, reinforcements, demotions and marks.
  lemma RefractoryBound(cfg: Config, g: Graph, run: seq<Step>, id: Id, start: int, length: nat)
    requires WellFormed(g) && Possible(cfg, g, run) && cfg.refractoryPeriod > 0
    ensures AppliedWithin(cfg, g, run, |run|, id, start, length) <= length / cfg.refractoryPeriod + 1
  {
    var c := AppliedWithin(cfg, g, run, |run|, id, start, length);
    var last := AppliedBumpsSpread(cfg, g, run, |run|, id, start, length);
    if c > 0 {
      FitsQuotient(c - 1, cfg.refractoryPeriod, length);
    }
  }

  lemma FitsQuotient(n: nat, r: int, t: nat)
    requires r > 0 && n * r <= t
    ensures n <= t / r
  {
    assert t == (t / r) * r + t % r;
    MulGap(n, t / r, r);
  }

  lemma NatProduct(a: nat, b: nat)
    ensures a * b >= 0
  {
  }

  lemma MulGap(n: int, q: int, r: int)
    requires r > 0
    ensures n > q ==> n * r >= q * r + r
  {
    if n > q {
      NatProduct(n - q - 1, r);
      assert n * r == q * r + r + (n - q - 1) * r;
    }
  }

  // ----- a node inside a history -----

  // The events a history puts one node through.
  function EventsOf(run: seq<Step>, id: Id): seq<NodeEvent> {
    if run == [] then []
    else
      var before, s := run[..|run| - 1], run[|run| - 1];
      EventsOf(before, id) + if Touches(s, id) then [s.event] else []
  }

  // A node that is never forgotten evolves by its own events alone, so what holds of every
  // sequence of events holds of it in every history.
  lemma {:induction false} NodeEvolvesAlone(cfg: Config, g: Graph, run: seq<Step>, id: Id)
    requires WellFormed(g) && Possible(cfg, g, run)
    requires forall k :: 0 <= k <= |run| ==> Possible(cfg, g, run[..k]) && id in State(cfg, g, run[..k]).nodes
    ensures id in g.nodes && id in State(cfg, g, run).nodes
    ensures State(cfg, g, run).nodes[id] == Evolve(cfg, g.nodes[id], EventsOf(run, id))
  {
    assert run[..|run|] == run && run[..0] == [];
    assert id in State(cfg, g, run[..0]).nodes;
    if run != [] {
      var n, s := |run| - 1, run[|run| - 1];
      forall k | 0 <= k <= n
        ensures Possible(cfg, g, run[..n][..k]) && id in State(cfg, g, run[..n][..k]).nodes
      {
        assert run[..n][..k] == run[..k];
      }
      NodeEvolvesAlone(cfg, g, run[..n], id);
      AlwaysWellFormed(cfg, g, run[..n]);
      StepOnNode(cfg, State(cfg, g, run[..n]), s, id);
      if Touches(s, id) {
        var events := EventsOf(run, id);
        assert events[..|events| - 1] == EventsOf(run[..n], id);
      } else {
        assert EventsOf(run, id) == EventsOf(run[..n], id);
      }
    }
  }

  lemma StepOnNode(cfg: Config, g: Graph, s: Step, id: Id)
    requires WellFormed(g) && Enabled(g, s) && id in g.nodes && id in Apply(cfg, g, s).nodes
    ensures Apply(cfg, g, s).nodes[id] == if Touches(s, id) then AfterEvent(cfg, g.nodes[id], s.event) else g.nodes[id]
  {
    hide Ingest, Abort;
    if s.WriteStep? {
      IngestExtends(cfg, g, s.w);
    } else if s.AbortStep? {
      AbortShape(g, s.w);
    }
  }
}
