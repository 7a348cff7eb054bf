// Lazy decay, reinforcement, dampening, the refractory gate and pruning,
// on one node or one edge.
module Dynamics {
  import opened RealPower
  import opened MemoryGraph

  // Rates are survival factors per millisecond: exp(-lambda / 1000).
  datatype Config = Config(
    nodeRate: real,
    edgeStructuralRate: real,
    edgeCoRetrievalRate: real,
    edgeCoTraversalRate: real,
    nodeDelta: real,
    edgeCoRetrievalBase: real,
    edgeCoTraversalMultiplier: real,
    edgeStructuralWeight: real,
    edgeStructuralTemporalWeight: real,
    edgeFloor: real,
    nodeFloor: real,
    weightCap: real,
    structuralRecentN: int,
    structuralRecentDelta: int,
    refractoryPeriod: int,
    logDampening: bool,
    markMaxNodes: int,
    chunkWindowSize: int,
    chunkStride: int,
    defaultK: int,
    defaultHops: int,
    depthPenaltyFactor: real)

  // Non-negative decay constants.
  predicate Decaying(cfg: Config) {
    && 0.0 < cfg.nodeRate <= 1.0
    && 0.0 < cfg.edgeStructuralRate <= 1.0
    && 0.0 < cfg.edgeCoRetrievalRate <= 1.0
    && 0.0 < cfg.edgeCoTraversalRate <= 1.0
  }

  function Decay(weight: real, rate: real, dt: int): real {
    if weight <= 0.0 then 0.0
    else if dt <= 0 then weight
    else weight * Pow(rate, dt)
  }

  function CapWeight(w: real, cap: real): real {
    if w < 0.0 then 0.0
    else if cap > 0.0 && w > cap then cap
    else w
  }

  function RateForKind(cfg: Config, k: EdgeKind): real {
    match k
    case Structural => cfg.edgeStructuralRate
    case CoRetrieval => cfg.edgeCoRetrievalRate
    case CoTraversal => cfg.edgeCoTraversalRate
  }

  function KindRank(k: EdgeKind): nat {
    match k
    case CoTraversal => 3
    case CoRetrieval => 2
    case Structural => 1
  }

  // ----- nodes -----

  // The implicit path: neither gated nor dampened.
  function TouchedNode(cfg: Config, n: Node, delta: real, now: int): Node {
    n.(weight := CapWeight(Decay(n.weight, cfg.nodeRate, now - n.lastTouched) + delta, cfg.weightCap),
       lastTouched := now,
       accessCount := n.accessCount + 1)
  }

  predicate Refractory(cfg: Config, n: Node, now: int) {
    cfg.refractoryPeriod > 0 && now - n.lastTouched < cfg.refractoryPeriod
  }

  function Dampened(cfg: Config, decayed: real, delta: real): real {
    if delta > 0.0 && cfg.logDampening && cfg.weightCap > 0.0 then
      var scale := 1.0 - decayed / cfg.weightCap;
      delta * if scale < 0.0 then 0.0 else scale
    else delta
  }

  function Clamped(cfg: Config, w: real): real {
    var capped := if cfg.weightCap > 0.0 && w > cfg.weightCap then cfg.weightCap else w;
    if capped < cfg.nodeFloor then cfg.nodeFloor else capped
  }

  function BumpedWeight(cfg: Config, n: Node, delta: real, now: int): real {
    var decayed := Decay(n.weight, cfg.nodeRate, now - n.lastTouched);
    var eff := if Refractory(cfg, n, now) then 0.0 else delta;
    Clamped(cfg, decayed + Dampened(cfg, decayed, eff))
  }

  // The explicit path of Reinforce, Demote and Mark.
  function BumpedNode(cfg: Config, n: Node, delta: real, now: int): Node {
    n.(weight := BumpedWeight(cfg, n, delta, now), lastTouched := now, accessCount := n.accessCount + 1)
  }

  // ----- the laws of one touch and one bump -----

  // What a weight last touched at one time has come to at another: exponential, nothing gained or lost backwards in
  // time, and 0 for what is not positive.
  predicate AgedTo(w: real, rate: real, touched: int, now: int, x: real) {
    && (w > 0.0 && touched < now ==> x == w * Pow(rate, now - touched))
    && (w > 0.0 && now <= touched ==> x == w)
    && (w <= 0.0 ==> x == 0.0)
  }

  // The sum cut off at 0 and, if there is one, at the cap.
  predicate CutOff(sum: real, cap: real, w: real) {
    && (0.0 <= sum && (cap <= 0.0 || sum <= cap) ==> w == sum)
    && (sum < 0.0 ==> w == 0.0)
    && (0.0 < cap < sum ==> w == cap)
  }

  // The aim brought up to the floor and down to the cap; where the two cross the floor wins.
  predicate BroughtInto(floor: real, cap: real, aim: real, w: real) {
    && (floor <= aim && (cap <= 0.0 || aim <= cap) ==> w == aim)
    && (aim < floor ==> w == floor)
    && (0.0 < cap < aim ==> w == if cap < floor then floor else cap)
  }

  // Nothing has touched the node for a full refractory period, or there is none.
  predicate GateOpen(cfg: Config, n: Node, now: int) {
    cfg.refractoryPeriod <= 0 || n.lastTouched + cfg.refractoryPeriod <= now
  }

  // m is n after an implicit touch.
  ghost predicate TouchLaw(cfg: Config, n: Node, m: Node, delta: real, now: int) {
    && m == n.(weight := m.weight, lastTouched := now, accessCount := n.accessCount + 1)
    && exists x :: AgedTo(n.weight, cfg.nodeRate, n.lastTouched, now, x) && CutOff(x + delta, cfg.weightCap, m.weight)
  }

  // Where an explicit bump of a weight aged to x aims: a closed gate drops the delta, a demotion takes all of it off,
  // and a dampened reinforcement adds the share of it that is left of the way to the cap.
  predicate AimsAt(cfg: Config, open: bool, x: real, delta: real, aim: real) {
    && (!open ==> aim == x)
    && (open && (delta <= 0.0 || !cfg.logDampening || cfg.weightCap <= 0.0) ==> aim == x + delta)
    && (open && delta > 0.0 && cfg.logDampening && 0.0 < cfg.weightCap ==>
          aim == if x < cfg.weightCap then x + delta * (1.0 - x / cfg.weightCap) else x)
  }

  // m is n after an explicit bump.
  ghost predicate BumpLaw(cfg: Config, n: Node, m: Node, delta: real, now: int) {
    && m == n.(weight := m.weight, lastTouched := now, accessCount := n.accessCount + 1)
    && exists x :: AgedTo(n.weight, cfg.nodeRate, n.lastTouched, now, x) && BumpedFrom(cfg, GateOpen(cfg, n, now), x, delta, m.weight)
  }

  ghost predicate BumpedFrom(cfg: Config, open: bool, x: real, delta: real, w: real) {
    exists aim :: AimsAt(cfg, open, x, delta, aim) && BroughtInto(cfg.nodeFloor, cfg.weightCap, aim, w)
  }

  lemma TouchObeys(cfg: Config, n: Node, delta: real, now: int)
    ensures TouchLaw(cfg, n, TouchedNode(cfg, n, delta, now), delta, now)
  {
    hide Pow;
    var x := Decay(n.weight, cfg.nodeRate, now - n.lastTouched);
    assert AgedTo(n.weight, cfg.nodeRate, n.lastTouched, now, x);
    assert CutOff(x + delta, cfg.weightCap, CapWeight(x + delta, cfg.weightCap));
  }

  lemma ScaleSign(x: real, cap: real)
    requires cap > 0.0
    ensures x < cap ==> 1.0 - x / cap > 0.0
    ensures x >= cap ==> 1.0 - x / cap <= 0.0
  {
    DivCancels(x, cap);
    var q := x / cap;
    if x < cap && q >= 1.0 {
      MulMonotone(1.0, q, cap);
    } else if x >= cap {
      DivMonotone(cap, x, cap);
      DivCancels(cap, cap);
    }
  }

  // Every explicit bump obeys the law, and the gate is closed exactly within the refractory period.
  lemma BumpObeys(cfg: Config, n: Node, delta: real, now: int)
    ensures BumpLaw(cfg, n, BumpedNode(cfg, n, delta, now), delta, now)
    ensures Refractory(cfg, n, now) <==> !GateOpen(cfg, n, now)
  {
    hide Pow, Decay;
    var x := Decay(n.weight, cfg.nodeRate, now - n.lastTouched);
    AgeIsDecay(n.weight, cfg.nodeRate, n.lastTouched, now);
    var eff := if Refractory(cfg, n, now) then 0.0 else delta;
    var aim := x + Dampened(cfg, x, eff);
    DampenedAims(cfg, n, x, delta, now);
    assert BroughtInto(cfg.nodeFloor, cfg.weightCap, aim, Clamped(cfg, aim));
    assert BumpedFrom(cfg, GateOpen(cfg, n, now), x, delta, Clamped(cfg, aim));
  }

  lemma AgeIsDecay(w: real, rate: real, touched: int, now: int)
    ensures AgedTo(w, rate, touched, now, Decay(w, rate, now - touched))
  {
  }

  lemma DampenedAims(cfg: Config, n: Node, x: real, delta: real, now: int)
    ensures AimsAt(cfg, GateOpen(cfg, n, now), x, delta, x + Dampened(cfg, x, if Refractory(cfg, n, now) then 0.0 else delta))
  {
    if cfg.weightCap > 0.0 {
      ScaleSign(x, cfg.weightCap);
    }
  }

  // The law leaves no choice: one node and one delta have one outcome.
  lemma BumpLawDecides(cfg: Config, n: Node, m: Node, o: Node, delta: real, now: int)
    requires BumpLaw(cfg, n, m, delta, now) && BumpLaw(cfg, n, o, delta, now)
    ensures m == o
  {
    hide Pow;
  }

  datatype NodeEvent = Touch(delta: real, at: int) | Bump(delta: real, at: int)

  function AfterEvent(cfg: Config, n: Node, e: NodeEvent): Node {
    match e
    case Touch(delta, at) => TouchedNode(cfg, n, delta, at)
    case Bump(delta, at) => BumpedNode(cfg, n, delta, at)
  }

  function Evolve(cfg: Config, n: Node, events: seq<NodeEvent>): Node {
    if events == [] then n
    else AfterEvent(cfg, Evolve(cfg, n, events[..|events| - 1]), events[|events| - 1])
  }

  lemma EventTime(cfg: Config, n: Node, e: NodeEvent)
    ensures AfterEvent(cfg, n, e).lastTouched == e.at
  {
  }

  // How many of the events were bumps up that passed the gate.
  function BumpsUp(cfg: Config, n: Node, events: seq<NodeEvent>): nat {
    if events == [] then 0
    else
      var before, e := events[..|events| - 1], events[|events| - 1];
      BumpsUp(cfg, n, before)
      + if e.Bump? && e.delta > 0.0 && !Refractory(cfg, Evolve(cfg, n, before), e.at) then 1 else 0
  }

  // ----- decay -----

  lemma DecayMonotone(v: real, w: real, rate: real, dt: int)
    requires v <= w && 0.0 < rate
    ensures 0.0 <= Decay(v, rate, dt) <= Decay(w, rate, dt)
  {
    if dt > 0 {
      PowPositive(rate, dt);
      if v > 0.0 {
        assert (w - v) * Pow(rate, dt) >= 0.0;
      }
    }
  }

  lemma DecayShrinks(w: real, rate: real, dt: int)
    requires 0.0 < rate <= 1.0
    ensures 0.0 <= Decay(w, rate, dt) <= if w <= 0.0 then 0.0 else w
  {
    if dt > 0 {
      PowAntitone(rate, 0, dt);
      if w > 0.0 {
        assert w * (1.0 - Pow(rate, dt)) >= 0.0;
      }
    }
  }

  // Decaying twice over adjacent spans is decaying once over their sum.
  lemma DecayComposes(w: real, rate: real, s: nat, t: nat)
    requires 0.0 < rate
    ensures Decay(Decay(w, rate, s), rate, t) == Decay(w, rate, s + t)
  {
    PowPositive(rate, s);
    PowAdd(rate, s, t);
    if w > 0.0 && s > 0 && t > 0 {
      assert w * Pow(rate, s) > 0.0;
      assert (w * Pow(rate, s)) * Pow(rate, t) == w * (Pow(rate, s) * Pow(rate, t));
    } else if w > 0.0 && s > 0 {
      assert w * Pow(rate, s) > 0.0;
    }
  }

  // ----- order preservation -----

  // What a full dampened gain leads to, before clamping.
  function Gained(w: real, delta: real, cap: real): real
    requires cap > 0.0
  {
    w + delta * (1.0 - w / cap)
  }

  lemma GainMonotone(v: real, w: real, delta: real, cap: real)
    requires v <= w && 0.0 < delta <= cap
    ensures Gained(v, delta, cap) <= Gained(w, delta, cap)
  {
    calc {
      Gained(w, delta, cap) - Gained(v, delta, cap);
      (w - v) - delta * (w / cap - v / cap);
      { assert w / cap - v / cap == (w - v) / cap; }
      (w - v) - delta * ((w - v) / cap);
      { FractionOf(w - v, delta, cap); }
      (w - v) * (1.0 - delta / cap);
    }
    QuotientAtMostOne(delta, cap);
    assert (w - v) * (1.0 - delta / cap) >= 0.0;
  }

  lemma DampenedMonotone(cfg: Config, v: real, w: real, delta: real)
    requires 0.0 <= v <= w
    ensures Clamped(cfg, v + Dampened(cfg, v, delta)) <= Clamped(cfg, w + Dampened(cfg, w, delta))
  {
    var cap := cfg.weightCap;
    if delta > 0.0 && cfg.logDampening && cap > 0.0 {
      DampenedIsGained(cfg, v, delta);
      DampenedIsGained(cfg, w, delta);
      if w < cap && delta <= cap {
        GainMonotone(v, w, delta, cap);
      }
    }
  }

  // Below the cap a dampened bump is the full gain; otherwise the outcome is the cap or more.
  lemma DampenedIsGained(cfg: Config, w: real, delta: real)
    requires 0.0 <= w && delta > 0.0 && cfg.logDampening && cfg.weightCap > 0.0
    ensures w < cfg.weightCap ==> w + Dampened(cfg, w, delta) == Gained(w, delta, cfg.weightCap)
    ensures w >= cfg.weightCap || delta > cfg.weightCap ==> w + Dampened(cfg, w, delta) >= cfg.weightCap
  {
    GainReachesCap(w, delta, cfg.weightCap);
    QuotientAtMostOne(w, cfg.weightCap);
    if w >= cfg.weightCap {
      assert Dampened(cfg, w, delta) == 0.0;
    }
  }

  lemma FractionOf(x: real, delta: real, cap: real)
    requires cap > 0.0
    ensures x - delta * (x / cap) == x * (1.0 - delta / cap)
  {
    assert delta * (x / cap) == x * (delta / cap);
  }

  lemma QuotientAtMostOne(x: real, cap: real)
    requires cap > 0.0
    ensures x <= cap ==> x / cap <= 1.0
    ensures x >= cap ==> x / cap >= 1.0
    ensures x >= 0.0 ==> x / cap >= 0.0
  {
    assert (x / cap) * cap == x;
  }

  // A bump larger than the cap reaches it at once.
  lemma GainReachesCap(w: real, delta: real, cap: real)
    requires 0.0 <= w && cap > 0.0
    ensures w < cap && delta > cap ==> Gained(w, delta, cap) >= cap
  {
    QuotientAtMostOne(w, cap);
    if w < cap && delta > cap {
      assert (delta - cap) * (1.0 - w / cap) >= 0.0;
      assert cap * (w / cap) == w;
    }
  }

  // Two nodes last touched together and put through the same events never swap order,
  // whatever the deltas, the cap, the gate and the dampening.
  lemma {:induction false} NeverSwap(cfg: Config, m: Node, n: Node, events: seq<NodeEvent>)
    requires Decaying(cfg) && m.lastTouched == n.lastTouched && m.weight <= n.weight
    ensures Evolve(cfg, m, events).weight <= Evolve(cfg, n, events).weight
    ensures Evolve(cfg, m, events).lastTouched == Evolve(cfg, n, events).lastTouched
  {
    if events != [] {
      var before, e := events[..|events| - 1], events[|events| - 1];
      NeverSwap(cfg, m, n, before);
      var p, q := Evolve(cfg, m, before), Evolve(cfg, n, before);
      var dt := e.at - p.lastTouched;
      DecayMonotone(p.weight, q.weight, cfg.nodeRate, dt);
      if e.Bump? {
        var eff := if Refractory(cfg, p, e.at) then 0.0 else e.delta;
        DampenedMonotone(cfg, Decay(p.weight, cfg.nodeRate, dt), Decay(q.weight, cfg.nodeRate, dt), eff);
      }
    }
  }

  // ----- dampened saturation -----

  // What a full dampened bump of d leaves of a distance to the cap.
  function Left(gap: real, d: real, cap: real): real
    requires cap > 0.0
  {
    gap * (1.0 - d / cap)
  }

  // Dampening scales the distance to the cap.
  lemma GapScales(x: real, delta: real, cap: real)
    requires cap > 0.0
    ensures cap - Gained(x, delta, cap) == Left(cap - x, delta, cap)
  {
    FractionOf(cap - x, delta, cap);
    assert (cap - x) / cap == 1.0 - x / cap by {
      assert cap / cap == 1.0;
      assert (cap - x) / cap == cap / cap - x / cap;
    }
  }

  lemma GapKept(room: real, gap: real, delta: real, d: real, cap: real)
    requires 0.0 < gap <= room && 0.0 < delta <= d < cap
    ensures 0.0 < Left(gap, d, cap) <= Left(room, delta, cap)
    ensures Left(gap, d, cap) <= gap && Left(room, delta, cap) <= room
  {
    ProperFraction(d, cap);
    ProperFraction(delta, cap);
    DivMonotone(delta, d, cap);
    SharesOf(room, gap, 1.0 - delta / cap, 1.0 - d / cap);
  }

  lemma SharesOf(room: real, gap: real, p: real, q: real)
    requires 0.0 < gap <= room && 0.0 < q <= p <= 1.0
    ensures 0.0 < gap * q <= room * p
    ensures gap * q <= gap && room * p <= room
  {
    var a, b, c := gap * q, room * q, room * p;
    assert a > 0.0 by { MulPositive(gap, q); }
    assert a <= b by { MulMonotone(gap, room, q); }
    assert b <= c by { MulMonotone(q, p, room); }
    assert a <= gap by { MulMonotone(q, 1.0, gap); }
    assert c <= room by { MulNonNegative(room, 1.0 - p); assert room * (1.0 - p) == room - c; }
  }

  predicate BumpsUpTo(events: seq<NodeEvent>, d: real) {
    forall i :: 0 <= i < |events| ==> events[i].Bump? && events[i].delta <= d
  }

  lemma ClampKeepsGap(cfg: Config, w: real, gap: real)
    requires 0.0 <= gap <= cfg.weightCap - cfg.nodeFloor && gap <= cfg.weightCap - w
    ensures gap <= cfg.weightCap - Clamped(cfg, w)
  {
  }

  // One bump up of at most d leaves at least Left(gap) of a gap; a refused one and one down leave all of it.
  lemma GapStep(cfg: Config, n: Node, e: NodeEvent, d: real, gap: real)
    requires Decaying(cfg) && cfg.logDampening && 0.0 < d < cfg.weightCap
    requires e.Bump? && e.delta <= d
    requires 0.0 < gap <= cfg.weightCap && gap <= cfg.weightCap - cfg.nodeFloor
    requires gap <= cfg.weightCap - n.weight
    ensures 0.0 < Left(gap, d, cfg.weightCap) <= gap
    ensures cfg.weightCap - AfterEvent(cfg, n, e).weight
         >= if Refractory(cfg, n, e.at) || e.delta <= 0.0 then gap else Left(gap, d, cfg.weightCap)
  {
    hide Left, Gained;
    var cap := cfg.weightCap;
    var x := Decay(n.weight, cfg.nodeRate, e.at - n.lastTouched);
    DecayShrinks(n.weight, cfg.nodeRate, e.at - n.lastTouched);
    GapKept(gap, gap, d, d, cap);
    if Refractory(cfg, n, e.at) {
      ClampKeepsGap(cfg, x, gap);
    } else if e.delta <= 0.0 {
      ClampKeepsGap(cfg, x + e.delta, gap);
    } else {
      DampenedIsGained(cfg, x, e.delta);
      GapScales(x, e.delta, cap);
      GapKept(cap - x, gap, e.delta, d, cap);
      hide Dampened;
      ClampKeepsGap(cfg, x + Dampened(cfg, x, e.delta), Left(gap, d, cap));
    }
  }

  // The distance to the cap left by k full dampened bumps of d.
  function Remaining(cfg: Config, n: Node, d: real, k: nat): real
    requires cfg.weightCap > 0.0
  {
    if k == 0 then cfg.weightCap - n.weight else Left(Remaining(cfg, n, d, k - 1), d, cfg.weightCap)
  }

  lemma {:induction false} RemainingIsPower(cfg: Config, n: Node, d: real, k: nat)
    requires cfg.weightCap > 0.0
    ensures Remaining(cfg, n, d, k) == (cfg.weightCap - n.weight) * Pow(1.0 - d / cfg.weightCap, k)
  {
    if k > 0 {
      RemainingIsPower(cfg, n, d, k - 1);
    }
  }

  // However Reinforce, Demote and Mark are interleaved and spaced, the distance to the cap after
  // k applied bumps up of at most d each is at least (cap - w0) * (1 - d/cap)^k, and so never zero.
  lemma {:induction false} DampenedSaturation(cfg: Config, n: Node, events: seq<NodeEvent>, d: real)
    requires Decaying(cfg) && cfg.logDampening && 0.0 < d < cfg.weightCap
    requires 0.0 <= n.weight < cfg.weightCap && cfg.nodeFloor <= n.weight
    requires BumpsUpTo(events, d)
    ensures cfg.weightCap - Evolve(cfg, n, events).weight >= Remaining(cfg, n, d, BumpsUp(cfg, n, events))
    ensures 0.0 < Remaining(cfg, n, d, BumpsUp(cfg, n, events)) <= cfg.weightCap - n.weight
  {
    hide BumpedNode, TouchedNode, Left;
    if events != [] {
      var before, e := events[..|events| - 1], events[|events| - 1];
      DampenedSaturation(cfg, n, before, d);
      GapStep(cfg, Evolve(cfg, n, before), e, d, Remaining(cfg, n, d, BumpsUp(cfg, n, before)));
    }
  }

  // With no time passing and the gate off the bound is met with equality.
  lemma {:induction false} DampenedSaturationExact(cfg: Config, n: Node, events: seq<NodeEvent>, d: real)
    requires Decaying(cfg) && cfg.logDampening && 0.0 < d < cfg.weightCap && cfg.refractoryPeriod <= 0
    requires 0.0 <= n.weight < cfg.weightCap && cfg.nodeFloor <= n.weight
    requires forall i :: 0 <= i < |events| ==> events[i] == Bump(d, n.lastTouched)
    ensures n.weight <= Evolve(cfg, n, events).weight < cfg.weightCap
    ensures cfg.weightCap - Evolve(cfg, n, events).weight == Remaining(cfg, n, d, |events|)
    ensures Evolve(cfg, n, events).lastTouched == n.lastTouched
  {
    hide BumpedNode, TouchedNode, Left;
    if events != [] {
      var before := events[..|events| - 1];
      DampenedSaturationExact(cfg, n, before, d);
      FreshBump(cfg, Evolve(cfg, n, before), d);
      EventTime(cfg, Evolve(cfg, n, before), events[|before|]);
    }
  }

  lemma FreshBump(cfg: Config, p: Node, d: real)
    requires cfg.logDampening && 0.0 < d < cfg.weightCap && cfg.refractoryPeriod <= 0
    requires 0.0 <= p.weight < cfg.weightCap && cfg.nodeFloor <= p.weight
    ensures var w := BumpedNode(cfg, p, d, p.lastTouched).weight;
            && p.weight <= w < cfg.weightCap
            && cfg.weightCap - w == Left(cfg.weightCap - p.weight, d, cfg.weightCap)
  {
    hide Left, Gained;
    DampenedIsGained(cfg, p.weight, d);
    GapScales(p.weight, d, cfg.weightCap);
    GapKept(cfg.weightCap - p.weight, cfg.weightCap - p.weight, d, d, cfg.weightCap);
  }

  // ----- steady state of the implicit path -----

  function LastTouch(n: Node, events: seq<NodeEvent>): int {
    if events == [] then n.lastTouched else events[|events| - 1].at
  }

  // Touches of one size, each at least the given time after the one before.
  predicate SpacedTouches(n: Node, events: seq<NodeEvent>, delta: real, gap: nat) {
    events == [] ||
    var before, e := events[..|events| - 1], events[|events| - 1];
    e.Touch? && e.delta == delta && e.at >= gap + LastTouch(n, before) && SpacedTouches(n, before, delta, gap)
  }

  predicate EvenTouches(n: Node, events: seq<NodeEvent>, delta: real, gap: nat) {
    events == [] ||
    var before, e := events[..|events| - 1], events[|events| - 1];
    e.Touch? && e.delta == delta && e.at == gap + LastTouch(n, before) && EvenTouches(n, before, delta, gap)
  }

  // The weight at which decay over one gap takes away exactly one touch.
  function SteadyWeight(cfg: Config, delta: real, gap: nat): real
    requires 0.0 < cfg.nodeRate < 1.0 && gap > 0
  {
    PowBelowOne(cfg.nodeRate, gap);
    delta / (1.0 - Pow(cfg.nodeRate, gap))
  }

  lemma SteadyWeightFixed(cfg: Config, delta: real, gap: nat)
    requires 0.0 < cfg.nodeRate < 1.0 && gap > 0
    ensures SteadyWeight(cfg, delta, gap) == SteadyWeight(cfg, delta, gap) * Pow(cfg.nodeRate, gap) + delta
    ensures delta >= 0.0 ==> SteadyWeight(cfg, delta, gap) >= delta
  {
    PowBelowOne(cfg.nodeRate, gap);
    FixedPoint(delta, Pow(cfg.nodeRate, gap));
  }

  lemma FixedPoint(delta: real, q: real)
    requires 0.0 <= q < 1.0
    ensures var l := delta / (1.0 - q); l == l * q + delta && (delta >= 0.0 ==> l >= delta)
  {
    var l := delta / (1.0 - q);
    DivCancels(delta, 1.0 - q);
    assert l * (1.0 - q) == l - l * q;
    if delta >= 0.0 {
      DivMonotone(0.0, delta, 1.0 - q);
      MulNonNegative(l, q);
    }
  }

  // Touched no more often than every gap, a node never outgrows its start or the steady weight.
  lemma {:induction false} SteadyStateBound(cfg: Config, n: Node, events: seq<NodeEvent>, delta: real, gap: nat)
    requires Decaying(cfg) && cfg.nodeRate < 1.0 && gap > 0 && delta >= 0.0
    requires SpacedTouches(n, events, delta, gap)
    ensures Evolve(cfg, n, events).weight <= Highest(cfg, n, delta, gap)
    ensures Evolve(cfg, n, events).lastTouched == LastTouch(n, events)
  {
    if events != [] {
      var before, e := events[..|events| - 1], events[|events| - 1];
      SteadyStateBound(cfg, n, before, delta, gap);
      TouchStaysBelow(cfg, n, Evolve(cfg, n, before), e, gap);
    }
  }

  // The greater of a node's starting weight and the steady weight.
  function Highest(cfg: Config, n: Node, delta: real, gap: nat): real
    requires 0.0 < cfg.nodeRate < 1.0 && gap > 0
  {
    var limit := SteadyWeight(cfg, delta, gap);
    if n.weight > limit then n.weight else limit
  }

  lemma TouchStaysBelow(cfg: Config, n: Node, p: Node, e: NodeEvent, gap: nat)
    requires Decaying(cfg) && cfg.nodeRate < 1.0 && gap > 0
    requires e.Touch? && e.delta >= 0.0 && e.at >= gap + p.lastTouched
    requires p.weight <= Highest(cfg, n, e.delta, gap)
    ensures TouchedNode(cfg, p, e.delta, e.at).weight <= Highest(cfg, n, e.delta, gap)
    ensures 0.0 <= Decay(p.weight, cfg.nodeRate, e.at - p.lastTouched) + e.delta <= Highest(cfg, n, e.delta, gap)
  {
    hide SteadyWeight, Pow;
    var limit, bound := SteadyWeight(cfg, e.delta, gap), Highest(cfg, n, e.delta, gap);
    SteadyWeightFixed(cfg, e.delta, gap);
    if p.weight > 0.0 {
      PowBelowOne(cfg.nodeRate, gap);
      PowAntitone(cfg.nodeRate, gap, e.at - p.lastTouched);
      ScaledStaysBelow(p.weight, bound, limit, Pow(cfg.nodeRate, e.at - p.lastTouched), Pow(cfg.nodeRate, gap), e.delta);
    }
  }

  lemma ScaledStaysBelow(w: real, bound: real, limit: real, f: real, q: real, delta: real)
    requires 0.0 <= w <= bound && 0.0 <= f <= q < 1.0 && limit <= bound && 0.0 <= delta
    requires limit == limit * q + delta
    ensures 0.0 <= w * f + delta <= bound
  {
    var a, b, c := w * f, w * q, bound * q;
    assert a >= 0.0 by { MulNonNegative(w, f); }
    assert a <= b by { MulMonotone(f, q, w); }
    assert b <= c by { MulMonotone(w, bound, q); }
    assert c + delta <= bound by {
      MulNonNegative(bound - limit, 1.0 - q);
      assert (bound - limit) * (1.0 - q) == (bound - limit) - (c - limit * q);
    }
  }

  // Touched exactly every gap with the cap out of reach, the distance to the steady weight
  // shrinks by the factor r^gap per touch.
  lemma {:induction false} SteadyStateConverges(cfg: Config, n: Node, events: seq<NodeEvent>, delta: real, gap: nat)
    requires Decaying(cfg) && cfg.nodeRate < 1.0 && gap > 0 && delta >= 0.0 && n.weight >= 0.0
    requires EvenTouches(n, events, delta, gap)
    requires cfg.weightCap > 0.0 ==> Highest(cfg, n, delta, gap) <= cfg.weightCap
    ensures 0.0 <= Evolve(cfg, n, events).weight <= Highest(cfg, n, delta, gap)
    ensures Evolve(cfg, n, events).weight - SteadyWeight(cfg, delta, gap)
         == Scaled(n.weight - SteadyWeight(cfg, delta, gap), Pow(cfg.nodeRate, gap), |events|)
    ensures Evolve(cfg, n, events).lastTouched == LastTouch(n, events)
  {
    hide BumpedNode, TouchedNode, SteadyWeight, Pow;
    if events != [] {
      var before, e := events[..|events| - 1], events[|events| - 1];
      SteadyStateConverges(cfg, n, before, delta, gap);
      TouchStaysBelow(cfg, n, Evolve(cfg, n, before), e, gap);
      ConvergeStep(cfg, n, Evolve(cfg, n, before), e, gap);
      EventTime(cfg, Evolve(cfg, n, before), e);
    }
  }

  lemma ConvergeStep(cfg: Config, n: Node, p: Node, e: NodeEvent, gap: nat)
    requires Decaying(cfg) && cfg.nodeRate < 1.0 && gap > 0
    requires e.Touch? && e.delta >= 0.0 && e.at == gap + p.lastTouched
    requires 0.0 <= p.weight <= Highest(cfg, n, e.delta, gap)
    requires cfg.weightCap > 0.0 ==> Highest(cfg, n, e.delta, gap) <= cfg.weightCap
    ensures var limit, w := SteadyWeight(cfg, e.delta, gap), TouchedNode(cfg, p, e.delta, e.at).weight;
            0.0 <= w && w - limit == (p.weight - limit) * Pow(cfg.nodeRate, gap)
  {
    var limit, q := SteadyWeight(cfg, e.delta, gap), Pow(cfg.nodeRate, gap);
    TouchStaysBelow(cfg, n, p, e, gap);
    SteadyWeightFixed(cfg, e.delta, gap);
    assert Decay(p.weight, cfg.nodeRate, gap) == p.weight * q;
    assert (p.weight - limit) * q == p.weight * q - limit * q;
  }
}
