// Explicit bumps: Reinforce, Demote and Mark.
module Reinforcement {
  import opened Wrappers
  import opened RealPower
  import opened MemoryGraph
  import opened Neo4jStore
  import opened Dynamics
  import opened Runs
  import opened History
  import opened MemoryService

  datatype BumpResult = BumpResult(nodeId: Id, newWeight: real, skippedRefractory: bool)

  // h is g with one node bumped by the law, and r what the caller is told of it.
  ghost predicate BumpedOne(cfg: Config, g: Graph, h: Graph, id: Id, delta: real, now: int, r: Result<BumpResult, ServiceError>) {
    if id !in g.nodes then h == g && r == Failure(Storage(NotFound))
    else
      && id in h.nodes && h == g.(nodes := g.nodes[id := h.nodes[id]])
      && BumpLaw(cfg, g.nodes[id], h.nodes[id], delta, now)
      && r == Success(BumpResult(id, h.nodes[id].weight, !GateOpen(cfg, g.nodes[id], now)))
  }

  // One explicit bump by +nodeDelta or -nodeDelta, gated and dampened.
  method ExplicitBump(svc: Service, nodeId: IdText, delta: real, now: int) returns (r: Result<BumpResult, ServiceError>)
    requires svc.Ready(now)
    modifies svc`journal, svc.store
    ensures svc.Ready(now)
    ensures !nodeId.Named? ==>
              r == Failure(BadRequest) && svc.journal == old(svc.journal) && svc.store.View() == old(svc.store.View())
    ensures nodeId.Named? ==>
              && svc.journal == old(svc.journal) + [NodeStep(nodeId.id, Bump(delta, now))]
              && BumpedOne(svc.cfg, old(svc.store.View()), svc.store.View(), nodeId.id, delta, now, r)
  {
    hide SoundDb, DriftOf, Possible, State, WellFormed, OnNode, BumpLaw, BumpedNode, Refractory, GateOpen;
    if !nodeId.Named? {
      return Failure(BadRequest);
    }
    var bumped := svc.ApplyExplicitNodeBump(nodeId.id, delta, now);
    match bumped
    case Success((n, skipped)) => r := Success(BumpResult(nodeId.id, n.weight, skipped));
    case Failure(e) => r := Failure(Storage(e));
  }

  // Adds at most the node delta, gated and dampened by the law of bumps.
  method Reinforce(svc: Service, nodeId: IdText, now: int) returns (r: Result<BumpResult, ServiceError>)
    requires svc.Ready(now)
    modifies svc`journal, svc.store
    ensures svc.Ready(now)
    ensures svc.journal == old(svc.journal) + if nodeId.Named? then [NodeStep(nodeId.id, Bump(svc.cfg.nodeDelta, now))] else []
    ensures nodeId.Named? ==> BumpedOne(svc.cfg, old(svc.store.View()), svc.store.View(), nodeId.id, svc.cfg.nodeDelta, now, r)
    ensures !nodeId.Named? ==> r == Failure(BadRequest) && svc.store.View() == old(svc.store.View())
  {
    hide SoundDb, DriftOf, Possible, State, WellFormed, BumpedOne;
    r := ExplicitBump(svc, nodeId, svc.cfg.nodeDelta, now);
  }

  // Takes off the whole node delta, gated, and never below the floor.
  method Demote(svc: Service, nodeId: IdText, now: int) returns (r: Result<BumpResult, ServiceError>)
    requires svc.Ready(now)
    modifies svc`journal, svc.store
    ensures svc.Ready(now)
    ensures svc.journal == old(svc.journal) + if nodeId.Named? then [NodeStep(nodeId.id, Bump(-svc.cfg.nodeDelta, now))] else []
    ensures nodeId.Named? ==> BumpedOne(svc.cfg, old(svc.store.View()), svc.store.View(), nodeId.id, -svc.cfg.nodeDelta, now, r)
    ensures !nodeId.Named? ==> r == Failure(BadRequest) && svc.store.View() == old(svc.store.View())
  {
    hide SoundDb, DriftOf, Possible, State, WellFormed, BumpedOne;
    r := ExplicitBump(svc, nodeId, -svc.cfg.nodeDelta, now);
  }

  // A demotion that finds the gate open takes the delta off the aged weight, down to the floor; one that finds it
  // closed only ages the node.
  lemma DemotionTakesOff(cfg: Config, n: Node, m: Node, now: int, x: real)
    requires cfg.nodeDelta > 0.0 && cfg.nodeFloor <= cfg.weightCap && 0.0 < cfg.weightCap
    requires BumpLaw(cfg, n, m, -cfg.nodeDelta, now) && AgedTo(n.weight, cfg.nodeRate, n.lastTouched, now, x) && x <= cfg.weightCap
    ensures GateOpen(cfg, n, now) && x - cfg.nodeDelta >= cfg.nodeFloor ==> m.weight == x - cfg.nodeDelta
    ensures GateOpen(cfg, n, now) && x - cfg.nodeDelta < cfg.nodeFloor ==> m.weight == cfg.nodeFloor
    ensures !GateOpen(cfg, n, now) ==> m.weight == if x < cfg.nodeFloor then cfg.nodeFloor else x
  {
    hide Pow;
  }

  // ----- marking a window of recent nodes -----

  // 1 for a node made now, falling linearly to 0 at the start of the window.
  function Recency(createdAt: int, since: int, now: int): real
    requires since < now
  {
    var recency := 1.0 - (now - createdAt) as real / (now - since) as real;
    if recency < 0.0 then 0.0 else if recency > 1.0 then 1.0 else recency
  }

  function MarkDelta(cfg: Config, strength: real, createdAt: int, since: int, now: int): real
    requires since < now
  {
    strength * cfg.nodeDelta * Recency(createdAt, since, now)
  }

  // Newer nodes never get the smaller bump, and none gets more than a full one.
  lemma NewerMarkedHarder(cfg: Config, strength: real, c: int, d: int, since: int, now: int)
    requires since < now && strength > 0.0 && cfg.nodeDelta >= 0.0 && c <= d
    ensures 0.0 <= MarkDelta(cfg, strength, c, since, now) <= MarkDelta(cfg, strength, d, since, now)
    ensures MarkDelta(cfg, strength, d, since, now) <= strength * cfg.nodeDelta
    ensures MarkDelta(cfg, strength, now, since, now) == strength * cfg.nodeDelta
    ensures MarkDelta(cfg, strength, since, since, now) == 0.0
  {
    hide Recency;
    var full := strength * cfg.nodeDelta;
    MulNonNegative(strength, cfg.nodeDelta);
    RecencyRange(c, since, now);
    RecencyRange(d, since, now);
    RecencyGrows(c, d, since, now);
    MulNonNegative(full, Recency(c, since, now));
    MulMonotone(Recency(c, since, now), Recency(d, since, now), full);
    MulMonotone(Recency(d, since, now), 1.0, full);
  }

  lemma RecencyRange(c: int, since: int, now: int)
    requires since < now
    ensures 0.0 <= Recency(c, since, now) <= 1.0
    ensures Recency(now, since, now) == 1.0 && Recency(since, since, now) == 0.0
  {
    DivCancels((now - since) as real, (now - since) as real);
  }

  lemma RecencyGrows(c: int, d: int, since: int, now: int)
    requires since < now && c <= d
    ensures Recency(c, since, now) <= Recency(d, since, now)
  {
    DivMonotone((now - d) as real, (now - c) as real, (now - since) as real);
  }

  function Marked(cfg: Config, g: Graph, ids: seq<Id>, strength: real, since: int, now: int): Graph
    requires since < now
  {
    g.(nodes := map id | id in g.nodes ::
         if id in ids && MarkDelta(cfg, strength, g.nodes[id].createdAt, since, now) > 0.0
         then BumpedNode(cfg, g.nodes[id], MarkDelta(cfg, strength, g.nodes[id].createdAt, since, now), now)
         else g.nodes[id])
  }

  function MarkSteps(cfg: Config, g: Graph, ids: seq<Id>, strength: real, since: int, now: int): seq<Step>
    requires since < now && forall i :: 0 <= i < |ids| ==> ids[i] in g.nodes
  {
    if ids == [] then []
    else
      var n := |ids| - 1;
      var delta := MarkDelta(cfg, strength, g.nodes[ids[n]].createdAt, since, now);
      MarkSteps(cfg, g, ids[..n], strength, since, now) + if delta > 0.0 then [NodeStep(ids[n], Bump(delta, now))] else []
  }

  // How many of the bumped nodes the gate refused, or let through.
  function Gated(cfg: Config, g: Graph, ids: seq<Id>, strength: real, since: int, now: int, refused: bool): nat
    requires since < now && forall i :: 0 <= i < |ids| ==> ids[i] in g.nodes
  {
    if ids == [] then 0
    else
      var n := |ids| - 1;
      var node := g.nodes[ids[n]];
      Gated(cfg, g, ids[..n], strength, since, now, refused)
      + if MarkDelta(cfg, strength, node.createdAt, since, now) > 0.0 && Refractory(cfg, node, now) == refused then 1 else 0
  }

  // ----- the law of a mark -----

  // The share of a full bump: 0 up to the start of the window, 1 from now on, and linear between.
  predicate RecencyIs(createdAt: int, since: int, now: int, share: real) {
    && (createdAt <= since ==> share == 0.0)
    && (now <= createdAt ==> share == 1.0)
    && (since < createdAt < now ==> share * (now - since) as real == (createdAt - since) as real)
  }

  // m is n after a mark: bumped by its share, or left alone when the share is nothing.
  ghost predicate MarkLaw(cfg: Config, n: Node, m: Node, strength: real, since: int, now: int) {
    exists share, delta ::
      RecencyIs(n.createdAt, since, now, share) && delta == strength * cfg.nodeDelta * share && BumpedByShare(cfg, n, m, delta, now)
  }

  ghost predicate BumpedByShare(cfg: Config, n: Node, m: Node, delta: real, now: int) {
    if delta > 0.0 then BumpLaw(cfg, n, m, delta, now) else m == n
  }

  // The listed nodes marked, everything else as it was.
  ghost predicate MarkedByLaw(cfg: Config, g: Graph, h: Graph, ids: seq<Id>, strength: real, since: int, now: int) {
    && h == g.(nodes := h.nodes) && h.nodes.Keys == g.nodes.Keys
    && forall id :: id in g.nodes ==>
         if id in ids then MarkLaw(cfg, g.nodes[id], h.nodes[id], strength, since, now) else h.nodes[id] == g.nodes[id]
  }

  // The listed nodes a mark bumps, as the gate takes them: those made after the start of the window.
  ghost function Bumped(cfg: Config, g: Graph, ids: seq<Id>, since: int, now: int, open: bool): set<Id>
    requires forall i :: 0 <= i < |ids| ==> ids[i] in g.nodes
  {
    set id | id in ids && cfg.nodeDelta > 0.0 && since < g.nodes[id].createdAt && GateOpen(cfg, g.nodes[id], now) == open
  }

  lemma RecencyObeys(createdAt: int, since: int, now: int)
    requires since < now
    ensures RecencyIs(createdAt, since, now, Recency(createdAt, since, now))
    ensures Recency(createdAt, since, now) > 0.0 <==> since < createdAt
  {
    var width := (now - since) as real;
    DivCancels((now - createdAt) as real, width);
    DivCancels(width, width);
    RecencyRange(createdAt, since, now);
    if createdAt <= since {
      RecencyGrows(createdAt, since, since, now);
    } else if createdAt >= now {
      RecencyGrows(now, createdAt, since, now);
    } else {
      InsideWindow(createdAt, since, now);
    }
  }

  lemma InsideWindow(createdAt: int, since: int, now: int)
    requires since < createdAt < now
    ensures Recency(createdAt, since, now) * (now - since) as real == (createdAt - since) as real
    ensures Recency(createdAt, since, now) > 0.0
  {
    var age, width := (now - createdAt) as real, (now - since) as real;
    ProperFraction(age, width);
    DivCancels(age, width);
    assert (1.0 - age / width) * width == width - age / width * width;
  }

  lemma ShareOfMark(cfg: Config, strength: real, createdAt: int, since: int, now: int)
    requires since < now && strength > 0.0
    ensures MarkDelta(cfg, strength, createdAt, since, now) > 0.0 <==> cfg.nodeDelta > 0.0 && since < createdAt
  {
    hide Recency;
    RecencyObeys(createdAt, since, now);
    RecencyRange(createdAt, since, now);
    var d, share := cfg.nodeDelta, Recency(createdAt, since, now);
    if d > 0.0 && share > 0.0 {
      MulPositive(strength, d);
      MulPositive(strength * d, share);
    } else if d <= 0.0 {
      MulNonNegative(strength, -d);
      assert strength * -d == -(strength * d);
      MulNonNegative(-(strength * d), share);
    }
  }

  lemma MarkedObeys(cfg: Config, g: Graph, ids: seq<Id>, strength: real, since: int, now: int)
    requires since < now
    ensures MarkedByLaw(cfg, g, Marked(cfg, g, ids, strength, since, now), ids, strength, since, now)
  {
    hide BumpedNode, MarkLaw, MarkDelta;
    var h := Marked(cfg, g, ids, strength, since, now);
    forall id | id in g.nodes && id in ids ensures MarkLaw(cfg, g.nodes[id], h.nodes[id], strength, since, now) {
      MarkedNodeObeys(cfg, g.nodes[id], strength, since, now);
    }
  }

  lemma MarkedNodeObeys(cfg: Config, n: Node, strength: real, since: int, now: int)
    requires since < now
    ensures var delta := MarkDelta(cfg, strength, n.createdAt, since, now);
            MarkLaw(cfg, n, if delta > 0.0 then BumpedNode(cfg, n, delta, now) else n, strength, since, now)
  {
    hide BumpedNode, BumpLaw, Recency, RecencyIs;
    var share := Recency(n.createdAt, since, now);
    RecencyObeys(n.createdAt, since, now);
    var delta := MarkDelta(cfg, strength, n.createdAt, since, now);
    assert delta == strength * cfg.nodeDelta * share;
    BumpObeys(cfg, n, delta, now);
    var m := if delta > 0.0 then BumpedNode(cfg, n, delta, now) else n;
    assert BumpedByShare(cfg, n, m, delta, now);
    ShareMakesLaw(cfg, n, m, strength, since, now, share, delta);
  }

  lemma ShareMakesLaw(cfg: Config, n: Node, m: Node, strength: real, since: int, now: int, share: real, delta: real)
    requires RecencyIs(n.createdAt, since, now, share) && delta == strength * cfg.nodeDelta * share
    requires BumpedByShare(cfg, n, m, delta, now)
    ensures MarkLaw(cfg, n, m, strength, since, now)
  {
  }

  lemma {:induction false} GatedCounts(cfg: Config, g: Graph, ids: seq<Id>, strength: real, since: int, now: int, refused: bool)
    requires since < now && strength > 0.0 && forall i :: 0 <= i < |ids| ==> ids[i] in g.nodes
    requires forall a, b :: 0 <= a < b < |ids| ==> ids[a] != ids[b]
    ensures Gated(cfg, g, ids, strength, since, now, refused) == |Bumped(cfg, g, ids, since, now, !refused)|
  {
    hide MarkDelta, GateOpen, Refractory;
    if ids == [] {
      assert Bumped(cfg, g, ids, since, now, !refused) == {};
    } else {
      var n := |ids| - 1;
      var id := ids[n];
      GatedCounts(cfg, g, ids[..n], strength, since, now, refused);
      ShareOfMark(cfg, strength, g.nodes[id].createdAt, since, now);
      BumpObeys(cfg, g.nodes[id], 0.0, now);
      OneMoreBumped(cfg, g, ids, since, now, !refused);
    }
  }

  lemma InLonger(ids: seq<Id>, id: Id)
    requires ids != []
    ensures id in ids <==> id in ids[..|ids| - 1] || id == ids[|ids| - 1]
  {
    assert ids == ids[..|ids| - 1] + [ids[|ids| - 1]];
  }

  lemma OneMoreBumped(cfg: Config, g: Graph, ids: seq<Id>, since: int, now: int, open: bool)
    requires ids != [] && forall i :: 0 <= i < |ids| ==> ids[i] in g.nodes
    requires forall a, b :: 0 <= a < b < |ids| ==> ids[a] != ids[b]
    ensures var n, id := |ids| - 1, ids[|ids| - 1];
            |Bumped(cfg, g, ids, since, now, open)|
            == |Bumped(cfg, g, ids[..n], since, now, open)|
               + if cfg.nodeDelta > 0.0 && since < g.nodes[id].createdAt && GateOpen(cfg, g.nodes[id], now) == open then 1 else 0
  {
    hide GateOpen;
    var n, id := |ids| - 1, ids[|ids| - 1];
    var before, after := Bumped(cfg, g, ids[..n], since, now, open), Bumped(cfg, g, ids, since, now, open);
    forall x ensures x in ids <==> x in ids[..n] || x == id {
      InLonger(ids, x);
    }
    assert id !in before;
    if cfg.nodeDelta > 0.0 && since < g.nodes[id].createdAt && GateOpen(cfg, g.nodes[id], now) == open {
      assert after == before + {id};
    } else {
      assert after == before;
    }
  }

  datatype MarkResult = MarkResult(nodesAffected: nat, nodesSkippedRefractory: nat)

  // One more node of the list: untouched so far, and marked by its own bump.
  lemma MarkOneMore(cfg: Config, g: Graph, ids: seq<Id>, i: nat, strength: real, since: int, now: int)
    requires since < now && i < |ids| && forall k :: 0 <= k < |ids| ==> ids[k] in g.nodes
    requires forall a, b :: 0 <= a < b < |ids| ==> ids[a] != ids[b]
    ensures var id := ids[i];
            var delta := MarkDelta(cfg, strength, g.nodes[id].createdAt, since, now);
            var h := Marked(cfg, g, ids[..i], strength, since, now);
            && id in h.nodes && h.nodes[id] == g.nodes[id]
            && Marked(cfg, g, ids[..i + 1], strength, since, now)
               == (if delta > 0.0 then OnNode(cfg, h, id, Bump(delta, now)) else h)
  {
    hide MarkDelta, BumpedNode;
    assert ids[..i + 1] == ids[..i] + [ids[i]];
    assert ids[i] !in ids[..i];
  }

  lemma NoneMarked(cfg: Config, g: Graph, strength: real, since: int, now: int)
    requires since < now
    ensures Marked(cfg, g, [], strength, since, now) == g
  {
    assert Marked(cfg, g, [], strength, since, now).nodes == g.nodes;
  }

  // Distinct nodes of the list, all stored.
  lemma RecentStored(nodes: map<Id, Node>, since: int, exclude: Id, maxN: int, ids: seq<Id>)
    requires IsRecentList(nodes, since, exclude, maxN, ids)
    ensures forall i :: 0 <= i < |ids| ==> ids[i] in nodes
    ensures forall i, j :: 0 <= i < j < |ids| ==> ids[i] != ids[j]
  {
    forall i | 0 <= i < |ids| ensures ids[i] in nodes {
      assert IsRecent(nodes, since, exclude, ids[i]);
    }
    forall i, j | 0 <= i < j < |ids| ensures ids[i] != ids[j] {
      assert Newer(nodes, ids[i], ids[j]);
    }
  }

  lemma PrefixSteps(cfg: Config, g: Graph, ids: seq<Id>, i: nat, strength: real, since: int, now: int)
    requires since < now && i < |ids| && forall k :: 0 <= k < |ids| ==> ids[k] in g.nodes
    ensures var delta := MarkDelta(cfg, strength, g.nodes[ids[i]].createdAt, since, now);
            var r := Refractory(cfg, g.nodes[ids[i]], now);
            && MarkSteps(cfg, g, ids[..i + 1], strength, since, now)
               == MarkSteps(cfg, g, ids[..i], strength, since, now) + (if delta > 0.0 then [NodeStep(ids[i], Bump(delta, now))] else [])
            && Gated(cfg, g, ids[..i + 1], strength, since, now, true)
               == Gated(cfg, g, ids[..i], strength, since, now, true) + (if delta > 0.0 && r then 1 else 0)
            && Gated(cfg, g, ids[..i + 1], strength, since, now, false)
               == Gated(cfg, g, ids[..i], strength, since, now, false) + (if delta > 0.0 && !r then 1 else 0)
  {
    assert ids[..i + 1][..i] == ids[..i];
  }

  method MarkAll(svc: Service, ids: seq<Id>, strength: real, since: int, now: int) returns (out: MarkResult)
    requires svc.Ready(now) && since < now && (forall i :: 0 <= i < |ids| ==> ids[i] in svc.store.View().nodes)
    requires forall i, j :: 0 <= i < j < |ids| ==> ids[i] != ids[j]
    modifies svc`journal, svc.store
    ensures svc.Ready(now)
    ensures svc.store.View() == Marked(svc.cfg, old(svc.store.View()), ids, strength, since, now)
    ensures svc.journal == old(svc.journal) + MarkSteps(svc.cfg, old(svc.store.View()), ids, strength, since, now)
    ensures out == MarkResult(Gated(svc.cfg, old(svc.store.View()), ids, strength, since, now, false),
                              Gated(svc.cfg, old(svc.store.View()), ids, strength, since, now, true))
  {
    hide SoundDb, DriftOf, Possible, State, WellFormed, BumpedNode, Marked, MarkSteps, Gated, Refractory;
    ghost var g := svc.store.View();
    out := MarkResult(0, 0);
    NoneMarked(svc.cfg, g, strength, since, now);
    NoSteps(svc.cfg, g, strength, since, now);
    var i := 0;
    while i < |ids|
      invariant 0 <= i <= |ids| && svc.Ready(now)
      invariant svc.store.View() == Marked(svc.cfg, g, ids[..i], strength, since, now)
      invariant svc.journal == old(svc.journal) + MarkSteps(svc.cfg, g, ids[..i], strength, since, now)
      invariant out == MarkResult(Gated(svc.cfg, g, ids[..i], strength, since, now, false),
                                  Gated(svc.cfg, g, ids[..i], strength, since, now, true))
    {
      MarkOneMore(svc.cfg, g, ids, i, strength, since, now);
      PrefixSteps(svc.cfg, g, ids, i, strength, since, now);
      var n := svc.store.GetNode(ids[i]);
      var recency := 1.0 - (now - n.value.createdAt) as real / (now - since) as real;
      if recency < 0.0 {
        recency := 0.0;
      }
      if recency > 1.0 {
        recency := 1.0;
      }
      var delta := strength * svc.cfg.nodeDelta * recency;
      assert delta == MarkDelta(svc.cfg, strength, g.nodes[ids[i]].createdAt, since, now);
      if delta > 0.0 {
        var bumped := svc.ApplyExplicitNodeBump(ids[i], delta, now);
        if bumped.value.1 {
          out := out.(nodesSkippedRefractory := out.nodesSkippedRefractory + 1);
        } else {
          out := out.(nodesAffected := out.nodesAffected + 1);
        }
      }
      i := i + 1;
    }
    assert ids[..i] == ids;
  }

  lemma NoSteps(cfg: Config, g: Graph, strength: real, since: int, now: int)
    requires since < now
    ensures MarkSteps(cfg, g, [], strength, since, now) == []
    ensures Gated(cfg, g, [], strength, since, now, false) == Gated(cfg, g, [], strength, since, now, true) == 0
  {
  }

  function MarkLimit(cfg: Config): int { if cfg.markMaxNodes <= 0 then 256 else cfg.markMaxNodes }

  method Mark(svc: Service, since: Option<int>, strength: real, now: int)
    returns (r: Result<MarkResult, ServiceError>, ghost ids: seq<Id>)
    requires svc.Ready(now)
    modifies svc`journal, svc.store
    ensures svc.Ready(now)
    ensures r.Failure? <==> strength <= 0.0 || since.None? || since.value >= now
    ensures r.Failure? ==> r.error == BadRequest && svc.journal == old(svc.journal) && svc.store.View() == old(svc.store.View())
    ensures r.Success? ==> NewestFirst(old(svc.store.View()).nodes, since.value, NoId, MarkLimit(svc.cfg), ids)
    ensures r.Success? ==> forall i :: 0 <= i < |ids| ==> ids[i] in old(svc.store.View()).nodes
    ensures r.Success? ==>
              var g := old(svc.store.View());
              && MarkedByLaw(svc.cfg, g, svc.store.View(), ids, strength, since.value, now)
              && svc.journal == old(svc.journal) + MarkSteps(svc.cfg, g, ids, strength, since.value, now)
              && r.value == MarkResult(|Bumped(svc.cfg, g, ids, since.value, now, true)|,
                                       |Bumped(svc.cfg, g, ids, since.value, now, false)|)
  {
    hide SoundDb, DriftOf, Possible, State, WellFormed, BumpedNode, Marked, MarkSteps, Gated, Refractory, IsRecentList, NewestFirst,
         MarkedByLaw, Bumped;
    ids := [];
    if strength <= 0.0 || since.None? || since.value >= now {
      return Failure(BadRequest), ids;
    }
    var maxN := svc.cfg.markMaxNodes;
    if maxN <= 0 {
      maxN := 256;
    }
    var list := svc.store.RecentNodeIDs(since.value, NoId, maxN);
    ids := list;
    RecentStored(svc.store.View().nodes, since.value, NoId, maxN, list);
    MarkedObeys(svc.cfg, svc.store.View(), list, strength, since.value, now);
    GatedCounts(svc.cfg, svc.store.View(), list, strength, since.value, now, false);
    GatedCounts(svc.cfg, svc.store.View(), list, strength, since.value, now, true);
    var out := MarkAll(svc, list, strength, since.value, now);
    return Success(out), ids;
  }
}
