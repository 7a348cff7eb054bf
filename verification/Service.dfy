// The memory service over the store. A ghost journal records every step, so that whatever holds
// of all histories holds of the service after any sequence of calls.
module MemoryService {
  import opened Wrappers
  import opened RealPower
  import opened MemoryGraph
  import opened Neo4jStore
  import opened Dynamics
  import opened Runs
  import opened History
  import opened Expansion
  import opened ExpansionRuns

  // ----- requests -----

  // An identifier as a caller sends it: absent, whitespace only, or a name.
  datatype IdText = Absent | Whitespace(id: Id) | Named(id: Id)

  datatype ServiceError = BadRequest | EmbedderFailed | EmbedderMismatch | Storage(error: StoreError)

  // Identifiers are issued in increasing order.
  class IdSource {
    var last: Id

    constructor ()
      ensures last == NoId
    {
      last := NoId;
    }

    method New() returns (id: Id)
      modifies this
      ensures id == last > old(last)
    {
      last := last + 1;
      return last;
    }
  }

  // ----- what a reader at a fixed time finds alive -----

  function LiveWeights(cfg: Config, g: Graph, now: int): Live {
    map p | p in g.edges && Reading(cfg, g, p, now).Some? :: Reading(cfg, g, p, now).value.weight
  }

  // Reading at one time, pruning included, leaves what is read at that time as it was.
  lemma ReadKeepsLive(cfg: Config, g: Graph, p: (Id, Id), now: int)
    requires Decaying(cfg)
    ensures LiveWeights(cfg, ReadEdge(cfg, g, p, now), now) == LiveWeights(cfg, g, now)
    ensures p in LiveWeights(cfg, g, now) <==> Reading(cfg, g, p, now).Some?
    ensures forall q :: q in LiveWeights(cfg, g, now) ==> q in g.edges && LiveWeights(cfg, g, now)[q] >= 0.0
  {
    hide Decay;
    forall e: Edge ensures DecayedEdge(cfg, DecayedEdge(cfg, e, now), now) == DecayedEdge(cfg, e, now)
                   ensures DecayedEdge(cfg, e, now).weight >= 0.0 {
      DecayAtOnce(cfg, e, now);
    }
  }

  lemma DecayAtOnce(cfg: Config, e: Edge, now: int)
    requires Decaying(cfg)
    ensures DecayedEdge(cfg, DecayedEdge(cfg, e, now), now) == DecayedEdge(cfg, e, now)
    ensures DecayedEdge(cfg, e, now).weight >= 0.0
  {
    DecayShrinks(e.weight, RateForKind(cfg, e.kind), now - e.lastTouched);
  }

  lemma PutThenDrop(edges: map<(Id, Id), Edge>, p: (Id, Id), e: Edge)
    ensures edges[p := e] - {p} == edges - {p}
  {
  }

  lemma CountWithin(s: seq<(Id, Id)>, keys: set<(Id, Id)>)
    requires forall i, j :: 0 <= i < j < |s| ==> s[i] != s[j]
    requires forall i :: 0 <= i < |s| ==> s[i] in keys
    ensures |s| <= |keys|
    decreases |s|
  {
    if s != [] {
      var n := |s| - 1;
      CountWithin(s[..n], keys - {s[n]});
    }
  }

  class Service {
    const cfg: Config
    const store: Store
    const source: IdSource
    ghost const origin: Graph
    ghost var journal: seq<Step>

    ghost predicate Valid()
      reads this, store, source
    {
      && store.Valid()
      && Decaying(cfg) && cfg.depthPenaltyFactor > 0.0 && cfg.defaultK >= 0
      && WellFormed(origin)
      && Possible(cfg, origin, journal)
      && State(cfg, origin, journal) == store.View()
      && Issued(store.View(), source.last)
    }

    // Valid, and the clock has not run backwards.
    ghost predicate Ready(now: int)
      reads this, store, source
    {
      Valid() && (journal != [] ==> TimeOf(journal[|journal| - 1]) <= now)
    }

    constructor (cfg: Config, store: Store, source: IdSource)
      requires store.Valid() && Decaying(cfg) && cfg.depthPenaltyFactor > 0.0 && cfg.defaultK >= 0
      requires Issued(store.View(), source.last)
      ensures Valid() && journal == [] && origin == store.View()
      ensures this.cfg == cfg && this.store == store && this.source == source
    {
      this.cfg, this.store, this.source := cfg, store, source;
      origin, journal := store.View(), [];
    }

    // The journal's history leads to before; the clock has not run backwards.
    ghost predicate Recorded(before: Graph, now: int)
      reads this
    {
      && Decaying(cfg) && cfg.depthPenaltyFactor > 0.0 && cfg.defaultK >= 0
      && WellFormed(origin)
      && Possible(cfg, origin, journal)
      && State(cfg, origin, journal) == before
      && (journal != [] ==> TimeOf(journal[|journal| - 1]) <= now)
    }

    // Enters a step the store has just taken.
    ghost method Record(before: Graph, s: Step, now: int)
      requires Recorded(before, now) && store.Valid()
      requires TimeOf(s) == now && Enabled(before, s) && store.View() == Apply(cfg, before, s)
      requires Issued(if s.WriteStep? || s.AbortStep? then store.View() else before, source.last)
      modifies this`journal
      ensures Ready(now) && journal == old(journal) + [s]
    {
      hide SoundDb, DriftOf, Possible, State, WellFormed, Apply, Enabled, Issued;
      if !s.WriteStep? && !s.AbortStep? {
        StepKeepsIssued(cfg, before, s, source.last);
      }
      Extend(cfg, origin, journal, s);
      journal := journal + [s];
    }

    lemma Recording(now: int)
      requires Ready(now)
      ensures Recorded(store.View(), now) && WellFormed(store.View()) && Issued(store.View(), source.last)
    {
    }

    // ----- nodes -----

    method ApplyNodeDecayReinforce(id: Id, delta: real, now: int) returns (r: Result<Node, StoreError>)
      requires Ready(now)
      modifies this`journal, store
      ensures Ready(now)
      ensures journal == old(journal) + [NodeStep(id, Touch(delta, now))]
      ensures store.View() == OnNode(cfg, old(store.View()), id, Touch(delta, now))
      ensures r == if id in old(store.View()).nodes then Success(TouchedNode(cfg, old(store.View()).nodes[id], delta, now))
                   else Failure(NotFound)
      ensures id in old(store.View()).nodes ==>
                && TouchLaw(cfg, old(store.View()).nodes[id], r.value, delta, now)
                && store.View() == old(store.View()).(nodes := old(store.View()).nodes[id := r.value])
      ensures id !in old(store.View()).nodes ==> store.View() == old(store.View())
    {
      hide SoundDb, DriftOf, Possible, State, WellFormed, TouchedNode, TouchLaw, Recorded, Issued;
      ghost var g := store.View();
      if id in g.nodes {
        TouchObeys(cfg, g.nodes[id], delta, now);
      }
      Recording(now);
      r := store.UpdateNode(id, n => TouchedNode(cfg, n, delta, now));
      Record(g, NodeStep(id, Touch(delta, now)), now);
    }

    // Returns the bumped node and whether the gate refused the delta.
    method ApplyExplicitNodeBump(id: Id, delta: real, now: int) returns (r: Result<(Node, bool), StoreError>)
      requires Ready(now)
      modifies this`journal, store
      ensures Ready(now)
      ensures journal == old(journal) + [NodeStep(id, Bump(delta, now))]
      ensures store.View() == OnNode(cfg, old(store.View()), id, Bump(delta, now))
      ensures r == if id in old(store.View()).nodes
                   then Success((BumpedNode(cfg, old(store.View()).nodes[id], delta, now),
                                 Refractory(cfg, old(store.View()).nodes[id], now)))
                   else Failure(NotFound)
      ensures id in old(store.View()).nodes ==>
                && BumpLaw(cfg, old(store.View()).nodes[id], r.value.0, delta, now)
                && (r.value.1 <==> !GateOpen(cfg, old(store.View()).nodes[id], now))
                && store.View() == old(store.View()).(nodes := old(store.View()).nodes[id := r.value.0])
      ensures id !in old(store.View()).nodes ==> store.View() == old(store.View())
    {
      hide SoundDb, DriftOf, Possible, State, WellFormed, BumpedNode, BumpLaw, GateOpen, Refractory, Recorded, Issued;
      ghost var g := store.View();
      if id in g.nodes {
        BumpObeys(cfg, g.nodes[id], delta, now);
      }
      Recording(now);
      var before := store.GetNode(id);
      var updated := store.UpdateNode(id, n => BumpedNode(cfg, n, delta, now));
      Record(g, NodeStep(id, Bump(delta, now)), now);
      match updated
      case Success(n) => r := Success((n, Refractory(cfg, before.value, now)));
      case Failure(e) => r := Failure(e);
    }

    // ----- edges -----

    // The edge after the update, or None if it was pruned or too light to create. With an end missing the
    // edge is reported but not stored, and the counters run ahead.
    method ApplyEdgeDecayReinforce(from: Id, to: Id, kind: EdgeKind, delta: real, co: bool, now: int)
      returns (r: Result<Option<Edge>, StoreError>)
      requires Ready(now)
      modifies this`journal, store
      ensures Joinable(old(store.View()), from, to) ==>
                && Ready(now)
                && journal == old(journal) + [ReinforceStep((from, to), kind, delta, co, now)]
                && store.View() == ReinforceEdge(cfg, old(store.View()), (from, to), kind, delta, co, now)
                && r == Success(if (from, to) in store.View().edges then Some(store.View().edges[(from, to)]) else None)
                && exists f :: ReinforcedBy(cfg, old(store.View()), store.View(), (from, to), kind, delta, co, now, f)
      ensures !Joinable(old(store.View()), from, to) ==>
                var e := NewEdge(cfg, kind, delta, co, now);
                var refused := from == NoId || to == NoId || from == to;
                && journal == old(journal) && store.View() == old(store.View())
                && CreateLaw(cfg, e, kind, delta, co, now)
                && r == (if e.weight < cfg.edgeFloor then Success(None)
                         else if refused then Failure(InvalidEdge) else Success(Some(e)))
                && (e.weight < cfg.edgeFloor || refused ==> Ready(now))
                && (e.weight >= cfg.edgeFloor && !refused ==>
                      store.Sound() && store.Drift() == EdgeMiscounted(old(store.Drift()), e))
    {
      hide SoundDb, DriftOf, Possible, State, WellFormed, Recorded, Issued, ReinforcedBy, CreateLaw;
      ghost var g, s := store.View(), ReinforceStep((from, to), kind, delta, co, now);
      ghost var f := ReinforceObeys(cfg, g, (from, to), kind, delta, co, now);
      CreatedObeys(cfg, kind, delta, co, now);
      Recording(now);
      if Joinable(g, from, to) {
        StoredNode(store, from);
        StoredNode(store, to);
      }
      if (from, to) in store.View().edges {
        StoredEdge(store, (from, to));
      }
      var existing := store.GetEdge(from, to);
      if existing == None {
        var e := NewEdge(cfg, kind, delta, co, now);
        if e.weight < cfg.edgeFloor {
          if Joinable(g, from, to) {
            Record(g, s, now);
          }
          return Success(None);
        }
        var put := store.PutEdge(from, to, e);
        if put.Failure? {
          return Failure(put.error);
        }
        if Joinable(g, from, to) {
          Record(g, s, now);
        }
        return Success(Some(e));
      }
      var updated := store.UpdateEdge(from, to, e => ReinforcedEdge(cfg, e, kind, delta, co, now));
      var out := updated.value;
      if out.weight < cfg.edgeFloor {
        store.DeleteEdge(from, to);
        PutThenDrop(g.edges, (from, to), out);
        Record(g, s, now);
        return Success(None);
      }
      Record(g, s, now);
      return Success(Some(out));
    }

    // The edge with its weight decayed to now and written back, or None if absent or pruned.
    method ReadDecayedEdge(from: Id, to: Id, now: int) returns (r: Option<Edge>)
      requires Ready(now)
      modifies this`journal, store
      ensures Ready(now)
      ensures journal == old(journal) + [ReadStep((from, to), now)]
      ensures store.View() == ReadEdge(cfg, old(store.View()), (from, to), now)
      ensures r == Reading(cfg, old(store.View()), (from, to), now)
      ensures (from, to) in old(store.View()).edges ==>
                exists f :: && ReadLaw(cfg, old(store.View()).edges[(from, to)], f, now)
                            && KeptIfHeavy(cfg, old(store.View()), store.View(), (from, to), f)
                            && r == if cfg.edgeFloor <= f.weight then Some(f) else None
      ensures (from, to) !in old(store.View()).edges ==> r == None && store.View() == old(store.View())
    {
      hide SoundDb, DriftOf, Possible, State, WellFormed, Recorded, Issued, ReadLaw, KeptIfHeavy;
      ghost var g, s := store.View(), ReadStep((from, to), now);
      if (from, to) in g.edges {
        ReadObeys(cfg, g, (from, to), now);
      }
      Recording(now);
      var updated := store.UpdateEdge(from, to, e => DecayedEdge(cfg, e, now));
      if updated.Failure? {
        Record(g, s, now);
        return None;
      }
      var out := updated.value;
      if out.weight < cfg.edgeFloor {
        store.DeleteEdge(from, to);
        PutThenDrop(g.edges, (from, to), out);
        Record(g, s, now);
        return None;
      }
      Record(g, s, now);
      return Some(out);
    }

    // ----- graph expansion -----

    // One edge of the entry being expanded: read it through decay and pruning, then take or refuse
    // what it offers.
    method RelaxEdge(f: Frontier, x: Id, queue0: seq<Frontier>, visit0: map<Id, Visited>, now: int,
                     ghost env: Env, ghost done: seq<Frontier>, ghost out: seq<(Id, Id)>, ghost i: nat, ghost branch: nat)
      returns (queue: seq<Frontier>, visit: map<Id, Visited>)
      requires Ready(now) && env.live == LiveWeights(cfg, store.View(), now) && env.factor == cfg.depthPenaltyFactor
      requires 0 < |done| && done[|done| - 1] == f && f.depth < Depths(env) && i < |out| && out[i] == (f.node, x)
      modifies this`journal, store
      ensures Ready(now) && OnlyReads(old(journal), journal, now) && SameButPruned(old(store.View()), store.View())
      ensures env.live == LiveWeights(cfg, store.View(), now)
      ensures Moment(done + queue, |done|, visit, out, i + 1) == Relaxed(env, Moment(done + queue0, |done|, visit0, out, i))
      ensures Work(env, branch, queue) <= Work(env, branch, queue0) + PowN(branch, Depths(env) - f.depth - 1)
    {
      hide Possible, State, WellFormed, SoundDb, DriftOf, Issued, LiveWeights, Reading, ReadEdge, ReadLaw, KeptIfHeavy, Work, PowN;
      queue, visit := queue0, visit0;
      ReadPrunes(cfg, store.View(), (f.node, x), now);
      ReadKeepsLive(cfg, store.View(), (f.node, x), now);
      LiveReading(cfg, store.View(), (f.node, x), now);
      var edge := ReadDecayedEdge(f.node, x, now);
      if edge == None {
        return;
      }
      var nextDepth := f.depth + 1;
      PowPositive(cfg.depthPenaltyFactor, nextDepth);
      var penalty := Pow(cfg.depthPenaltyFactor, nextDepth);
      var contribution := f.score * edge.value.weight / penalty;
      assert contribution == Offer(env, f, x).score;
      if contribution <= 0.0 || (x in visit && visit[x].score >= contribution) {
        return;
      }
      OfferWork(env, branch, queue, f, x);
      var newPath := f.path + [x];
      var next := Frontier(x, f.seed, contribution, newPath, nextDepth);
      assert next == Offer(env, f, x);
      assert done + (queue + [next]) == (done + queue) + [next];
      visit := visit[x := Visited(newPath, contribution, f.seed, nextDepth, true)];
      queue := queue + [next];
    }

    // Relaxes every edge leaving a popped entry.
    method ExpandNode(f: Frontier, queue0: seq<Frontier>, visit0: map<Id, Visited>, now: int,
                      ghost env: Env, ghost done: seq<Frontier>, ghost branch: nat)
      returns (queue: seq<Frontier>, visit: map<Id, Visited>)
      requires Ready(now) && env.live == LiveWeights(cfg, store.View(), now) && env.factor == cfg.depthPenaltyFactor
      requires 0 < |done| && done[|done| - 1] == f && f.depth < Depths(env) && |store.View().edges| < branch
      requires BetweenEntries(env, done + queue0, |done| - 1, visit0)
      modifies this`journal, store
      ensures Ready(now) && OnlyReads(old(journal), journal, now) && SameButPruned(old(store.View()), store.View())
      ensures env.live == LiveWeights(cfg, store.View(), now)
      ensures BetweenEntries(env, done + queue, |done|, visit)
      ensures Work(env, branch, queue) < Work(env, branch, queue0) + TreeSize(env, branch, f)
    {
      hide Reachable, Relaxed, Lists, Possible, State, WellFormed, SoundDb, DriftOf, Issued, LiveWeights, Work, PowN,
           OnlyReads, SameButPruned;
      var out := store.Neighbors(f.node);
      queue, visit := queue0, visit0;
      ghost var child := PowN(branch, Depths(env) - f.depth - 1);
      CountEdges(store.View(), out);
      EdgesListed(cfg, store.View(), now, env, f, out);
      NextEntry(env, done + queue, |done| - 1, visit, out);
      NothingRead(journal, store.View(), now);
      var i := 0;
      while i < |out|
        invariant i <= |out|
        invariant Ready(now) && OnlyReads(old(journal), journal, now) && SameButPruned(old(store.View()), store.View())
        invariant env.live == LiveWeights(cfg, store.View(), now)
        invariant Reachable(env, Moment(done + queue, |done|, visit, out, i))
        invariant Work(env, branch, queue) <= Work(env, branch, queue0) + i * child
      {
        ghost var s, journal1, view1 := Moment(done + queue, |done|, visit, out, i), journal, store.View();
        queue, visit := RelaxEdge(f, out[i].1, queue, visit, now, env, done, out, i, branch);
        ReadsOnward(old(journal), journal1, journal, old(store.View()), view1, store.View(), now);
        ReachableNext(env, s, Relaxed(env, s));
        OneMore(i + 1, child);
        i := i + 1;
      }
      PopPays(env, branch, f, |out|, child);
    }

    // Takes the entry at the front of the queue: nothing to do at full depth, its edges otherwise.
    method ExpandNext(queue0: seq<Frontier>, visit0: map<Id, Visited>, hops: int, now: int,
                      ghost env: Env, ghost done0: seq<Frontier>, ghost branch: nat)
      returns (queue: seq<Frontier>, visit: map<Id, Visited>, ghost done: seq<Frontier>)
      requires Ready(now) && env.live == LiveWeights(cfg, store.View(), now) && env.factor == cfg.depthPenaltyFactor
      requires queue0 != [] && env.hops == hops && |store.View().edges| < branch
      requires BetweenEntries(env, done0 + queue0, |done0|, visit0)
      modifies this`journal, store
      ensures Ready(now) && OnlyReads(old(journal), journal, now) && SameButPruned(old(store.View()), store.View())
      ensures env.live == LiveWeights(cfg, store.View(), now)
      ensures BetweenEntries(env, done + queue, |done|, visit)
      ensures Work(env, branch, queue) < Work(env, branch, queue0)
    {
      hide BetweenEntries, Possible, State, WellFormed, SoundDb, DriftOf, Issued, LiveWeights, TreeSize, OnlyReads, SameButPruned;
      var f := queue0[0];
      TreeNotEmpty(env, branch, f);
      NextDone(done0, queue0);
      NothingRead(journal, store.View(), now);
      queue, visit, done := queue0[1..], visit0, done0 + [f];
      if f.depth >= hops {
        FullDepth(env, done + queue, |done| - 1, visit);
        return;
      }
      queue, visit := ExpandNode(f, queue, visit, now, env, done, branch);
    }

    // The whole expansion: drains the queue first in, first out. It is one of the runs of the expansion on the
    // weights alive at this time, and so ends with the best walks.
    method Expand(seeds: seq<Id>, scores: map<Id, real>, hops: int, now: int)
      returns (visit: map<Id, Visited>, ghost env: Env)
      requires Ready(now) && (forall s :: s in scores <==> s in seeds) && (forall s :: s in scores ==> scores[s] >= 0.0)
      modifies this`journal, store
      ensures Ready(now) && OnlyReads(old(journal), journal, now) && SameButPruned(old(store.View()), store.View())
      ensures env == Env(LiveWeights(cfg, old(store.View()), now), scores, cfg.depthPenaltyFactor, hops)
      ensures LiveWeights(cfg, store.View(), now) == env.live
      ensures ValidEnv(env) && SeedsNonNegative(env) && Leaves(env, visit) && BestWalks(env, visit)
    {
      hide BetweenEntries, Possible, State, WellFormed, SoundDb, DriftOf, Issued, LiveWeights, BestWalks, TreeSize, Recorded,
           OnlyReads, SameButPruned;
      env := Env(LiveWeights(cfg, store.View(), now), scores, cfg.depthPenaltyFactor, hops);
      LiveNonNegative(cfg, store.View(), now);
      Recording(now);
      LiveNoLoops(cfg, store.View(), now);
      ghost var branch := |store.View().edges| + 1;
      visit := map s | s in seeds :: Visited([s], scores[s], s, 0, false);
      var queue := seq(|seeds|, i requires 0 <= i < |seeds| => Frontier(seeds[i], seeds[i], scores[seeds[i]], [seeds[i]], 0));
      ghost var done: seq<Frontier> := [];
      StartQueue(env, seeds, queue, visit);
      NothingRead(journal, store.View(), now);
      while queue != []
        invariant Ready(now) && OnlyReads(old(journal), journal, now) && SameButPruned(old(store.View()), store.View())
        invariant env.live == LiveWeights(cfg, store.View(), now) && |store.View().edges| < branch
        invariant BetweenEntries(env, done + queue, |done|, visit)
        decreases Work(env, branch, queue)
      {
        ghost var journal1, view1 := journal, store.View();
        queue, visit, done := ExpandNext(queue, visit, hops, now, env, done, branch);
        ReadsOnward(old(journal), journal1, journal, old(store.View()), view1, store.View(), now);
      }
      assert done + queue == done;
      LeavesBestWalks(env, visit);
    }
  }

  // Two distinct stored nodes.
  predicate Joinable(g: Graph, from: Id, to: Id) {
    from != to && from in g.nodes && to in g.nodes
  }

  // The journal grew by readings at one time.
  ghost predicate OnlyReads(before: seq<Step>, after: seq<Step>, now: int) {
    && before <= after
    && forall i :: |before| <= i < |after| ==> after[i].ReadStep? && after[i].now == now
  }

  ghost predicate SameButPruned(g: Graph, h: Graph) {
    h == g.(edges := h.edges) && h.edges.Keys <= g.edges.Keys && |h.edges| <= |g.edges|
  }

  lemma ReadsOnward(a: seq<Step>, b: seq<Step>, c: seq<Step>, g: Graph, h: Graph, k: Graph, now: int)
    requires OnlyReads(a, b, now) && OnlyReads(b, c, now) && SameButPruned(g, h) && SameButPruned(h, k)
    ensures OnlyReads(a, c, now) && SameButPruned(g, k) && |k.edges| <= |h.edges|
  {
  }

  lemma StartQueue(env: Env, seeds: seq<Id>, queue: seq<Frontier>, visit: map<Id, Visited>)
    requires forall s :: s in env.seeds <==> s in seeds
    requires visit == map s | s in seeds :: Visited([s], env.seeds[s], s, 0, false)
    requires |queue| == |seeds|
    requires forall i :: 0 <= i < |seeds| ==> queue[i] == Frontier(seeds[i], seeds[i], env.seeds[seeds[i]], [seeds[i]], 0)
    ensures BetweenEntries(env, [] + queue, 0, visit)
  {
    hide BetweenEntries;
    QueueIsSeedLog(env, seeds, queue);
    TableIsSeedTable(env, seeds, visit);
    StartBetween(env, seeds);
  }

  lemma QueueIsSeedLog(env: Env, seeds: seq<Id>, queue: seq<Frontier>)
    requires |queue| == |seeds| && forall i :: 0 <= i < |seeds| ==> seeds[i] in env.seeds
    requires forall i :: 0 <= i < |seeds| ==> queue[i] == Frontier(seeds[i], seeds[i], env.seeds[seeds[i]], [seeds[i]], 0)
    ensures [] + queue == queue == SeedLog(env, seeds)
  {
  }

  lemma TableIsSeedTable(env: Env, seeds: seq<Id>, visit: map<Id, Visited>)
    requires forall i :: 0 <= i < |seeds| ==> seeds[i] in env.seeds
    requires visit == map s | s in seeds :: Visited([s], env.seeds[s], s, 0, false)
    ensures visit == SeedTable(env, seeds)
  {
  }

  // The next entry popped, its edges listed.
  lemma NextEntry(env: Env, log: seq<Frontier>, head: nat, visit: map<Id, Visited>, out: seq<(Id, Id)>)
    requires head < |log| && BetweenEntries(env, log, head, visit) && Lists(env, log[head], out)
    ensures Reachable(env, Moment(log, head + 1, visit, out, 0))
  {
    hide Reachable, Lists;
    var before :| Reachable(env, Moment(log, head, visit, before, |before|));
    ReachableNext(env, Moment(log, head, visit, before, |before|), Moment(log, head + 1, visit, out, 0));
  }

  // An entry at full depth has no edges to relax.
  lemma FullDepth(env: Env, log: seq<Frontier>, head: nat, visit: map<Id, Visited>)
    requires head < |log| && BetweenEntries(env, log, head, visit) && log[head].depth >= Depths(env)
    ensures BetweenEntries(env, log, head + 1, visit)
  {
    hide Reachable;
    NextEntry(env, log, head, visit, []);
    assert |Moment(log, head + 1, visit, [], 0).out| == 0;
  }

  lemma NextDone(done: seq<Frontier>, queue: seq<Frontier>)
    requires queue != []
    ensures done + queue == (done + [queue[0]]) + queue[1..]
  {
  }

  lemma NothingRead(a: seq<Step>, g: Graph, now: int)
    ensures OnlyReads(a, a, now) && SameButPruned(g, g)
  {
  }

  lemma ReadPrunes(cfg: Config, g: Graph, p: (Id, Id), now: int)
    ensures SameButPruned(g, ReadEdge(cfg, g, p, now))
  {
    var h := ReadEdge(cfg, g, p, now);
    assert h.edges.Keys <= g.edges.Keys;
    if p in g.edges && DecayedEdge(cfg, g.edges[p], now).weight < cfg.edgeFloor {
      assert h.edges.Keys == g.edges.Keys - {p};
    } else {
      assert h.edges.Keys == g.edges.Keys;
    }
    assert |h.edges| == |h.edges.Keys| && |g.edges| == |g.edges.Keys|;
  }

  lemma LiveReading(cfg: Config, g: Graph, p: (Id, Id), now: int)
    ensures p in LiveWeights(cfg, g, now) <==> Reading(cfg, g, p, now).Some?
    ensures p in LiveWeights(cfg, g, now) ==> LiveWeights(cfg, g, now)[p] == Reading(cfg, g, p, now).value.weight
  {
  }

  // The stored edges of an entry are a listing of them.
  lemma EdgesListed(cfg: Config, g: Graph, now: int, env: Env, f: Frontier, out: seq<(Id, Id)>)
    requires env.live == LiveWeights(cfg, g, now) && f.depth < Depths(env)
    requires forall p :: p in out <==> p in g.edges && p.0 == f.node
    ensures Lists(env, f, out)
  {
  }

  lemma LiveEdgesStored(cfg: Config, g: Graph, now: int)
    ensures forall p :: p in LiveWeights(cfg, g, now) ==> p in g.edges
  {
  }

  lemma CountEdges(g: Graph, out: seq<(Id, Id)>)
    requires forall p :: p in out ==> p in g.edges
    requires forall i, j :: 0 <= i < j < |out| ==> out[i] != out[j]
    ensures |out| <= |g.edges|
  {
    CountWithin(out, g.edges.Keys);
    assert |g.edges| == |g.edges.Keys|;
  }

  lemma LiveNonNegative(cfg: Config, g: Graph, now: int)
    requires Decaying(cfg)
    ensures forall p :: p in LiveWeights(cfg, g, now) ==> LiveWeights(cfg, g, now)[p] >= 0.0
  {
    ReadKeepsLive(cfg, g, (0, 0), now);
  }

  lemma LiveNoLoops(cfg: Config, g: Graph, now: int)
    requires WellFormed(g)
    ensures forall p :: p in LiveWeights(cfg, g, now) ==> p.0 != p.1
  {
  }

  // A weight cap within the bound keeps every expansion's paths simple.
  lemma CapMakesTame(cfg: Config, g: Graph, env: Env, now: int)
    requires Decaying(cfg) && Disciplined(cfg, g) && cfg.edgeFloor > 0.0 && cfg.weightCap > 0.0
    requires env.live == LiveWeights(cfg, g, now) && env.factor == cfg.depthPenaltyFactor >= 1.0
    requires Within(cfg.depthPenaltyFactor, cfg.weightCap)
    ensures Tame(env)
  {
    forall p | p in env.live ensures Within(env.factor, env.live[p]) {
      LiveWithinCap(cfg, g, now, p);
      SmallerWithin(env.factor, env.live[p], cfg.weightCap);
    }
  }

  lemma LiveWithinCap(cfg: Config, g: Graph, now: int, p: (Id, Id))
    requires Decaying(cfg) && Disciplined(cfg, g) && cfg.edgeFloor > 0.0 && p in LiveWeights(cfg, g, now)
    ensures 0.0 <= LiveWeights(cfg, g, now)[p] <= cfg.weightCap
  {
    var e := g.edges[p];
    DecayShrinks(e.weight, RateForKind(cfg, e.kind), now - e.lastTouched);
  }

  lemma TreeNotEmpty(env: Env, branch: nat, f: Frontier)
    requires branch > 0
    ensures TreeSize(env, branch, f) > 0
  {
    PowNPositive(branch, if f.depth >= Depths(env) then 0 else Depths(env) - f.depth);
  }
}
