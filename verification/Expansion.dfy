// Recall's graph expansion: a first-in first-out label-correcting search, seen from its log of
// enqueued entries, and the depth-bounded best walks it finds.
module Expansion {
  import opened RealPower
  import opened MemoryGraph

  // The weight of every edge a reader would find alive.
  type Live = map<(Id, Id), real>

  // What one expansion runs against.
  datatype Env = Env(live: Live, seeds: map<Id, real>, factor: real, hops: int)

  datatype Frontier = Frontier(node: Id, seed: Id, score: real, path: seq<Id>, depth: nat)

  datatype Visited = Visited(path: seq<Id>, score: real, seed: Id, depth: nat, viaEdge: bool)

  // Stored edges are never loops.
  ghost predicate ValidEnv(env: Env) {
    env.factor > 0.0 && forall p :: p in env.live ==> env.live[p] >= 0.0 && p.0 != p.1
  }

  // ----- walks -----

  predicate IsWalk(env: Env, path: seq<Id>) {
    && 0 < |path|
    && path[0] in env.seeds
    && forall i :: 0 < i < |path| ==> (path[i - 1], path[i]) in env.live
  }

  lemma WalkPrefix(env: Env, path: seq<Id>, k: nat)
    requires IsWalk(env, path) && 0 < k <= |path|
    ensures IsWalk(env, path[..k])
  {
  }

  // One hop: the edge weight over a penalty that grows with the depth reached.
  function Hop(env: Env, score: real, weight: real, depth: nat): real
    requires env.factor > 0.0
  {
    PowPositive(env.factor, depth);
    score * weight / Pow(env.factor, depth)
  }

  // The seed's score carried along the walk; the penalties of the hops compound.
  function WalkScore(env: Env, path: seq<Id>): real
    requires env.factor > 0.0 && IsWalk(env, path)
  {
    if |path| == 1 then env.seeds[path[0]]
    else
      var n := |path| - 1;
      WalkPrefix(env, path, n);
      Hop(env, WalkScore(env, path[..n]), env.live[(path[n - 1], path[n])], n)
  }

  predicate IsWalkTo(env: Env, path: seq<Id>, node: Id, depth: nat) {
    IsWalk(env, path) && path[|path| - 1] == node && |path| == depth + 1 && depth <= Depths(env)
  }

  // Negative hop counts explore nothing.
  function Depths(env: Env): nat {
    if env.hops < 0 then 0 else env.hops
  }

  // ----- arithmetic of hops -----

  lemma HopPositive(env: Env, score: real, weight: real, depth: nat)
    requires env.factor > 0.0 && weight >= 0.0
    ensures Hop(env, score, weight, depth) > 0.0 <==> score > 0.0 && weight > 0.0
  {
    PowPositive(env.factor, depth);
    var q := Pow(env.factor, depth);
    DivCancels(score * weight, q);
    if score > 0.0 && weight > 0.0 {
      MulPositive(score, weight);
      if Hop(env, score, weight, depth) <= 0.0 {
        MulMonotone(Hop(env, score, weight, depth), 0.0, q);
      }
    } else {
      if score <= 0.0 {
        MulMonotone(score, 0.0, weight);
      }
      assert score * weight <= 0.0;
      DivMonotone(score * weight, 0.0, q);
    }
  }

  // A better score reached at no greater depth leads to a better score one hop on.
  lemma HopDominates(env: Env, s: real, t: real, weight: real, d: nat, e: nat)
    requires env.factor >= 1.0 && weight >= 0.0 && 0.0 <= t <= s && d <= e
    ensures Hop(env, s, weight, d) >= Hop(env, t, weight, e)
  {
    PowMonotone(env.factor, d, e);
    var p, q := Pow(env.factor, d), Pow(env.factor, e);
    MulMonotone(t, s, weight);
    MulNonNegative(t, weight);
    DivMonotone(t * weight, s * weight, p);
    DivAntitone(t * weight, p, q);
  }

  lemma DivAntitone(a: real, p: real, q: real)
    requires a >= 0.0 && 0.0 < p <= q
    ensures a / q <= a / p
  {
    DivCancels(a, p);
    DivCancels(a, q);
    DivMonotone(0.0, a, q);
    var x, y := a / p, a / q;
    assert y * p <= a by { MulMonotone(p, q, y); }
    if y > x {
      MulMonotone(x, y, p);
      assert (y - x) * p > 0.0 by { MulPositive(y - x, p); }
      assert (y - x) * p == y * p - x * p;
    }
  }

  // Weights whose squares stay within the cube of the factor: two hops from the start, at depths one and
  // two, pay the cube between them, and every later hop pays at least the square.
  predicate Within(factor: real, weight: real) {
    weight * weight <= factor * factor * factor
  }

  lemma SquareStrict(a: real, b: real)
    requires a > b >= 0.0
    ensures a * a > b * b
  {
    MulPositive(a - b, a);
    MulNonNegative(a - b, b);
  }

  lemma WithinSquare(factor: real, weight: real)
    requires factor >= 1.0 && weight >= 0.0 && Within(factor, weight)
    ensures weight <= factor * factor
  {
    var square := factor * factor;
    MulMonotone(1.0, factor, factor);
    MulMonotone(factor, square, square);
    assert factor * square == factor * factor * factor;
    if weight > square {
      SquareStrict(weight, square);
    }
  }

  lemma SmallerWithin(factor: real, weight: real, cap: real)
    requires 0.0 <= weight <= cap && Within(factor, cap)
    ensures Within(factor, weight)
  {
    MulMonotone(weight, cap, weight);
    MulMonotone(weight, cap, cap);
  }

  lemma WithinProduct(factor: real, v: real, w: real)
    requires v >= 0.0 && w >= 0.0 && Within(factor, v) && Within(factor, w)
    ensures v * w <= factor * factor * factor
  {
    if v <= w {
      MulMonotone(v, w, w);
    } else {
      MulMonotone(w, v, v);
    }
  }

  lemma HopClears(env: Env, score: real, weight: real, depth: nat, penalty: real)
    requires env.factor > 0.0 && penalty == Pow(env.factor, depth)
    ensures penalty > 0.0
    ensures Hop(env, score, weight, depth) * penalty == score * weight
  {
    PowPositive(env.factor, depth);
    DivCancels(score * weight, penalty);
  }

  lemma FirstPowers(b: real)
    ensures Pow(b, 1) == b && Pow(b, 2) == b * b && Pow(b, 3) == b * (b * b)
  {
    assert Pow(b, 0) == 1.0;
  }

  lemma Scale(x: real, y: real, q: real)
    requires q > 0.0
    ensures x > y <==> x * q > y * q
    ensures x == y <==> x * q == y * q
  {
    assert x > y ==> (x - y) * q > 0.0;
    assert x < y ==> (y - x) * q > 0.0;
    assert (x - y) * q == x * q - y * q;
  }

  // From depth two on no hop raises a score.
  lemma LateHopShrinks(env: Env, score: real, weight: real, depth: nat)
    requires env.factor >= 1.0 && weight >= 0.0 && Within(env.factor, weight) && score >= 0.0 && depth >= 2
    ensures Hop(env, score, weight, depth) <= score
  {
    hide Hop, Pow, Within;
    var penalty := Pow(env.factor, depth);
    FirstPowers(env.factor);
    PowMonotone(env.factor, 2, depth);
    WithinSquare(env.factor, weight);
    MulMonotone(weight, penalty, score);
    HopClears(env, score, weight, depth, penalty);
    Scale(Hop(env, score, weight, depth), score, penalty);
  }

  // The first two hops together do not raise it either.
  lemma FirstHopsShrink(env: Env, score: real, v: real, w: real)
    requires env.factor >= 1.0 && v >= 0.0 && w >= 0.0 && Within(env.factor, v) && Within(env.factor, w) && score >= 0.0
    ensures Hop(env, Hop(env, score, v, 1), w, 2) <= score
  {
    hide Hop, Pow, Within;
    var f := env.factor;
    FirstPowers(f);
    var once := Hop(env, score, v, 1);
    var twice := Hop(env, once, w, 2);
    HopClears(env, score, v, 1, f);
    HopClears(env, once, w, 2, f * f);
    WithinProduct(f, v, w);
    CubePaid(score, once, twice, v, w, f);
  }

  lemma CubePaid(score: real, once: real, twice: real, v: real, w: real, f: real)
    requires f > 0.0 && score >= 0.0 && once * f == score * v && twice * (f * f) == once * w && v * w <= f * f * f
    ensures twice <= score
  {
    var cube := f * f * f;
    MulPositive(f, f);
    MulPositive(f * f, f);
    MulMonotone(v * w, cube, score);
    assert twice * cube == twice * (f * f) * f == once * w * f == once * f * w == score * v * w == score * (v * w);
    Scale(twice, score, cube);
  }

  // ----- the log of enqueued entries -----

  // log[..head] has been taken from the queue, log[head..] is the queue.

  ghost predicate GoodEntry(env: Env, f: Frontier) {
    && env.factor > 0.0
    && IsWalkTo(env, f.path, f.node, f.depth)
    && f.seed == f.path[0]
    && f.score == WalkScore(env, f.path)
    && (f.depth > 0 ==> f.score > 0.0)
  }

  ghost predicate GoodLog(env: Env, log: seq<Frontier>) {
    forall i :: 0 <= i < |log| ==> GoodEntry(env, log[i])
  }

  // First in, first out: depths never decrease along the log, and the queue spans two depths at most.
  ghost predicate Ordered(log: seq<Frontier>, head: nat)
    requires head <= |log|
  {
    && (forall i, j :: 0 <= i < j < |log| ==> log[i].depth <= log[j].depth)
    && (forall i :: 0 <= i < |log| ==> log[i].depth <= if head == 0 then 0 else log[head - 1].depth + 1)
  }

  function Record(f: Frontier): Visited {
    Visited(f.path, f.score, f.seed, f.depth, f.depth > 0)
  }

  // The visit table holds the best entry of every node logged.
  ghost predicate Matches(log: seq<Frontier>, visit: map<Id, Visited>) {
    && (forall x :: x in visit ==> exists i :: 0 <= i < |log| && log[i].node == x && visit[x] == Record(log[i]))
    && (forall i :: 0 <= i < |log| ==> log[i].node in visit && visit[log[i].node].score >= log[i].score)
  }

  // Some entry reaches the node at no greater depth with at least the score.
  ghost predicate Reached(log: seq<Frontier>, node: Id, depth: nat, score: real) {
    exists j :: 0 <= j < |log| && log[j].node == node && log[j].depth <= depth && log[j].score >= score
  }

  // The edge from f to x has nothing more to offer.
  ghost predicate Settled(env: Env, log: seq<Frontier>, f: Frontier, x: Id)
    requires env.factor > 0.0 && (f.node, x) in env.live
  {
    var c := Hop(env, f.score, env.live[(f.node, x)], f.depth + 1);
    c <= 0.0 || Reached(log, x, f.depth + 1, c)
  }

  ghost predicate Expanded(env: Env, log: seq<Frontier>, f: Frontier)
    requires env.factor > 0.0
  {
    f.depth < Depths(env) ==> forall x :: (f.node, x) in env.live ==> Settled(env, log, f, x)
  }

  ghost predicate AllExpanded(env: Env, log: seq<Frontier>, n: nat)
    requires env.factor > 0.0 && n <= |log|
  {
    forall i :: 0 <= i < n ==> Expanded(env, log, log[i])
  }

  ghost predicate SeedsLogged(env: Env, log: seq<Frontier>) {
    forall s :: s in env.seeds ==> Reached(log, s, 0, env.seeds[s])
  }

  // Every node the entry's path passes through was recorded with at least the score it had there.
  ghost predicate PrefixKept(env: Env, f: Frontier, visit: map<Id, Visited>)
    requires GoodEntry(env, f)
  {
    forall m :: 0 <= m <= f.depth ==> KeptAt(env, f.path, visit, m)
  }

  ghost predicate KeptAt(env: Env, path: seq<Id>, visit: map<Id, Visited>, m: nat)
    requires env.factor > 0.0 && m < |path|
  {
    path[m] in visit && IsWalk(env, path[..m + 1]) && visit[path[m]].score >= WalkScore(env, path[..m + 1])
  }

  ghost predicate PrefixesKept(env: Env, log: seq<Frontier>, visit: map<Id, Visited>)
    requires GoodLog(env, log)
  {
    forall i :: 0 <= i < |log| ==> PrefixKept(env, log[i], visit)
  }

  // Wherever the path comes back to a seed it beats the seed's own score.
  ghost predicate BeatsSeeds(env: Env, path: seq<Id>)
    requires env.factor > 0.0 && IsWalk(env, path)
  {
    forall m :: 0 < m < |path| && path[m] in env.seeds ==>
      IsWalk(env, path[..m + 1]) && WalkScore(env, path[..m + 1]) > env.seeds[path[m]]
  }

  ghost predicate AllBeatSeeds(env: Env, log: seq<Frontier>)
    requires GoodLog(env, log)
  {
    forall i :: 0 <= i < |log| ==> BeatsSeeds(env, log[i].path)
  }

  predicate Simple(path: seq<Id>) {
    forall i, j :: 0 <= i < j < |path| ==> path[i] != path[j]
  }

  // The hypothesis under which no path revisits a node.
  ghost predicate Tame(env: Env) {
    env.factor >= 1.0 && forall p :: p in env.live ==> Within(env.factor, env.live[p])
  }

  ghost predicate AllSimple(env: Env, log: seq<Frontier>) {
    Tame(env) ==> forall i :: 0 <= i < |log| ==> Simple(log[i].path)
  }

  ghost predicate Exploring(env: Env, log: seq<Frontier>, head: nat, visit: map<Id, Visited>)
    requires head <= |log|
  {
    && ValidEnv(env)
    && GoodLog(env, log)
    && Ordered(log, head)
    && Matches(log, visit)
    && SeedsLogged(env, log)
    && PrefixesKept(env, log, visit)
    && AllBeatSeeds(env, log)
    && AllSimple(env, log)
  }

  // ----- one relaxation -----

  // The entry the edge from f to x offers.
  function Offer(env: Env, f: Frontier, x: Id): Frontier
    requires env.factor > 0.0 && (f.node, x) in env.live
  {
    Frontier(x, f.seed, Hop(env, f.score, env.live[(f.node, x)], f.depth + 1), f.path + [x], f.depth + 1)
  }

  // An offer is taken when it is positive and beats what the node has.
  predicate Taken(visit: map<Id, Visited>, e: Frontier) {
    e.score > 0.0 && (e.node !in visit || visit[e.node].score < e.score)
  }

  lemma OfferGood(env: Env, f: Frontier, x: Id)
    requires ValidEnv(env) && GoodEntry(env, f) && f.depth < Depths(env) && (f.node, x) in env.live
    requires Offer(env, f, x).score > 0.0
    ensures GoodEntry(env, Offer(env, f, x))
  {
    var e := Offer(env, f, x);
    assert e.path[..|e.path| - 1] == f.path;
    forall i | 0 < i < |e.path| ensures (e.path[i - 1], e.path[i]) in env.live {
      if i < |f.path| {
        assert e.path[i - 1] == f.path[i - 1] && e.path[i] == f.path[i];
      }
    }
  }

  lemma TakenOrdered(env: Env, log: seq<Frontier>, head: nat, x: Id)
    requires 0 < head <= |log| && Ordered(log, head)
    requires env.factor > 0.0 && (log[head - 1].node, x) in env.live
    ensures Ordered(log + [Offer(env, log[head - 1], x)], head)
  {
  }

  lemma TakenMatches(log: seq<Frontier>, visit: map<Id, Visited>, e: Frontier)
    requires Matches(log, visit) && Taken(visit, e)
    ensures Matches(log + [e], visit[e.node := Record(e)])
  {
    var log', visit' := log + [e], visit[e.node := Record(e)];
    forall x | x in visit'
      ensures exists i :: 0 <= i < |log'| && log'[i].node == x && visit'[x] == Record(log'[i])
    {
      if x == e.node {
        assert log'[|log|] == e;
      } else {
        var i :| 0 <= i < |log| && log[i].node == x && visit[x] == Record(log[i]);
        assert log'[i] == log[i];
      }
    }
  }

  lemma ReachedLater(log: seq<Frontier>, e: Frontier, node: Id, depth: nat, score: real)
    requires Reached(log, node, depth, score)
    ensures Reached(log + [e], node, depth, score)
  {
    var j :| 0 <= j < |log| && log[j].node == node && log[j].depth <= depth && log[j].score >= score;
    assert (log + [e])[j] == log[j];
  }

  lemma ExpandedLater(env: Env, log: seq<Frontier>, e: Frontier, f: Frontier)
    requires env.factor > 0.0 && Expanded(env, log, f)
    ensures Expanded(env, log + [e], f)
  {
    if f.depth < Depths(env) {
      forall x | (f.node, x) in env.live ensures Settled(env, log + [e], f, x) {
        SettledLater(env, log, e, f, x);
      }
    }
  }

  lemma SettledLater(env: Env, log: seq<Frontier>, e: Frontier, f: Frontier, x: Id)
    requires env.factor > 0.0 && (f.node, x) in env.live && Settled(env, log, f, x)
    ensures Settled(env, log + [e], f, x)
  {
    var c := Hop(env, f.score, env.live[(f.node, x)], f.depth + 1);
    if c > 0.0 {
      ReachedLater(log, e, x, f.depth + 1, c);
    }
  }

  lemma AllExpandedLater(env: Env, log: seq<Frontier>, e: Frontier, n: nat)
    requires env.factor > 0.0 && n <= |log| && AllExpanded(env, log, n)
    ensures AllExpanded(env, log + [e], n)
  {
    forall i | 0 <= i < n ensures Expanded(env, log + [e], (log + [e])[i]) {
      ExpandedLater(env, log, e, log[i]);
    }
  }

  lemma SeedsLoggedLater(env: Env, log: seq<Frontier>, e: Frontier)
    requires SeedsLogged(env, log)
    ensures SeedsLogged(env, log + [e])
  {
    forall s | s in env.seeds ensures Reached(log + [e], s, 0, env.seeds[s]) {
      ReachedLater(log, e, s, 0, env.seeds[s]);
    }
  }

  // A refused offer is already dominated by an entry at no greater depth: the queue's order
  // keeps every recorded depth within one of the depth being expanded.
  lemma RefusedIsSettled(env: Env, log: seq<Frontier>, head: nat, visit: map<Id, Visited>, x: Id)
    requires 0 < head <= |log| && Ordered(log, head) && Matches(log, visit)
    requires env.factor > 0.0 && (log[head - 1].node, x) in env.live
    requires !Taken(visit, Offer(env, log[head - 1], x))
    ensures Settled(env, log, log[head - 1], x)
  {
    if Offer(env, log[head - 1], x).score > 0.0 {
      var i :| 0 <= i < |log| && log[i].node == x && visit[x] == Record(log[i]);
    }
  }

  lemma TakenIsSettled(env: Env, log: seq<Frontier>, f: Frontier, x: Id)
    requires env.factor > 0.0 && (f.node, x) in env.live
    ensures Settled(env, log + [Offer(env, f, x)], f, x)
  {
    assert (log + [Offer(env, f, x)])[|log|] == Offer(env, f, x);
  }

  lemma PrefixKeptLater(env: Env, f: Frontier, visit: map<Id, Visited>, e: Frontier)
    requires GoodEntry(env, f) && PrefixKept(env, f, visit) && Taken(visit, e)
    ensures PrefixKept(env, f, visit[e.node := Record(e)])
  {
    hide KeptAt, WalkScore, IsWalk;
    var visit' := visit[e.node := Record(e)];
    forall m | 0 <= m <= f.depth ensures KeptAt(env, f.path, visit', m) {
      KeptLater(env, f.path, visit, e, m);
    }
  }

  lemma KeptLater(env: Env, path: seq<Id>, visit: map<Id, Visited>, e: Frontier, m: nat)
    requires env.factor > 0.0 && m < |path| && KeptAt(env, path, visit, m) && Taken(visit, e)
    ensures KeptAt(env, path, visit[e.node := Record(e)], m)
  {
    hide WalkScore, IsWalk;
  }

  lemma KeptOnward(env: Env, path: seq<Id>, longer: seq<Id>, visit: map<Id, Visited>, m: nat)
    requires env.factor > 0.0 && m < |path| <= |longer| && longer[..|path|] == path && KeptAt(env, path, visit, m)
    ensures KeptAt(env, longer, visit, m)
  {
    hide WalkScore, IsWalk;
    assert longer[m] == longer[..|path|][m] && longer[..m + 1] == path[..m + 1];
  }

  lemma OfferPrefix(env: Env, f: Frontier, visit: map<Id, Visited>, x: Id)
    requires GoodEntry(env, f) && (f.node, x) in env.live && GoodEntry(env, Offer(env, f, x))
    requires PrefixKept(env, f, visit) && Taken(visit, Offer(env, f, x))
    ensures PrefixKept(env, Offer(env, f, x), visit[x := Record(Offer(env, f, x))])
  {
    hide KeptAt, WalkScore, IsWalk, Hop, Taken;
    var e := Offer(env, f, x);
    var visit' := visit[x := Record(e)];
    PrefixKeptLater(env, f, visit, e);
    forall m | 0 <= m <= e.depth ensures KeptAt(env, e.path, visit', m) {
      if m <= f.depth {
        KeptOnward(env, f.path, e.path, visit', m);
      } else {
        RecordKept(env, e, visit);
      }
    }
  }

  // The entry itself is kept where it ends.
  lemma RecordKept(env: Env, e: Frontier, visit: map<Id, Visited>)
    requires GoodEntry(env, e)
    ensures KeptAt(env, e.path, visit[e.node := Record(e)], e.depth)
  {
    hide WalkScore, IsWalk;
    assert e.path[..e.depth + 1] == e.path;
  }

  lemma TakenPrefixes(env: Env, log: seq<Frontier>, visit: map<Id, Visited>, k: nat, x: Id)
    requires GoodLog(env, log) && PrefixesKept(env, log, visit) && k < |log|
    requires env.factor > 0.0 && (log[k].node, x) in env.live && GoodEntry(env, Offer(env, log[k], x))
    requires Taken(visit, Offer(env, log[k], x))
    ensures GoodLog(env, log + [Offer(env, log[k], x)])
    ensures PrefixesKept(env, log + [Offer(env, log[k], x)], visit[x := Record(Offer(env, log[k], x))])
  {
    hide GoodEntry, PrefixKept;
    var e := Offer(env, log[k], x);
    forall i | 0 <= i < |log| ensures PrefixKept(env, log[i], visit[x := Record(e)]) {
      PrefixKeptLater(env, log[i], visit, e);
    }
    OfferPrefix(env, log[k], visit, x);
  }

  lemma {:induction false} WalkNonNegative(env: Env, path: seq<Id>)
    requires ValidEnv(env) && IsWalk(env, path) && env.seeds[path[0]] >= 0.0
    ensures WalkScore(env, path) >= 0.0
  {
    var n := |path| - 1;
    if n > 0 {
      WalkPrefix(env, path, n);
      WalkNonNegative(env, path[..n]);
      HopNonNegative(env, WalkScore(env, path[..n]), env.live[(path[n - 1], path[n])], n);
    }
  }

  lemma LastHop(env: Env, path: seq<Id>, n: nat)
    requires env.factor > 0.0 && IsWalk(env, path) && |path| == n + 1 && n > 0
    ensures IsWalk(env, path[..n])
    ensures WalkScore(env, path) == Hop(env, WalkScore(env, path[..n]), env.live[(path[n - 1], path[n])], n)
  {
    WalkPrefix(env, path, n);
  }

  // Under Tame a walk scores no more than any prefix of it, but for the first hop alone.
  lemma {:induction false} WalkShrinks(env: Env, path: seq<Id>, k: nat)
    requires ValidEnv(env) && Tame(env) && IsWalk(env, path) && 0 < k <= |path|
    requires env.seeds[path[0]] >= 0.0 && (k >= 2 || |path| != 2)
    ensures IsWalk(env, path[..k]) && WalkScore(env, path) <= WalkScore(env, path[..k])
  {
    hide Hop, WalkScore, Within;
    WalkPrefix(env, path, k);
    var n := |path| - 1;
    if k == |path| {
      assert path[..k] == path;
    } else {
      LastHop(env, path, n);
      WalkNonNegative(env, path[..n]);
      if n == 2 && k == 1 {
        LastHop(env, path[..2], 1);
        assert path[..2][..1] == path[..1];
        WalkNonNegative(env, path[..1]);
        FirstHopsShrink(env, WalkScore(env, path[..1]), env.live[(path[0], path[1])], env.live[(path[1], path[2])]);
      } else {
        WalkShrinks(env, path[..n], k);
        assert path[..n][..k] == path[..k];
        LateHopShrinks(env, WalkScore(env, path[..n]), env.live[(path[n - 1], path[n])], n);
      }
    }
  }

  lemma HopNonNegative(env: Env, score: real, weight: real, depth: nat)
    requires env.factor > 0.0 && score >= 0.0 && weight >= 0.0
    ensures Hop(env, score, weight, depth) >= 0.0
  {
    PowPositive(env.factor, depth);
    MulNonNegative(score, weight);
    DivMonotone(0.0, score * weight, Pow(env.factor, depth));
  }

  lemma OfferWalk(env: Env, f: Frontier, x: Id)
    requires GoodEntry(env, f) && (f.node, x) in env.live
    ensures IsWalk(env, f.path + [x]) && WalkScore(env, f.path + [x]) == Offer(env, f, x).score
  {
    var path := f.path + [x];
    assert path[..|path| - 1] == f.path;
    forall i | 0 < i < |path| ensures (path[i - 1], path[i]) in env.live {
      if i < |f.path| {
        assert path[i - 1] == f.path[i - 1] && path[i] == f.path[i];
      }
    }
  }

  // A path through a node cannot offer that node more than the node already has.
  lemma TakenSimple(env: Env, log: seq<Frontier>, visit: map<Id, Visited>, k: nat, x: Id)
    requires ValidEnv(env) && Tame(env) && SeedsNonNegative(env)
    requires GoodLog(env, log) && PrefixesKept(env, log, visit) && k < |log| && Simple(log[k].path)
    requires (log[k].node, x) in env.live && Taken(visit, Offer(env, log[k], x))
    ensures Simple(Offer(env, log[k], x).path)
  {
    hide Tame, WalkScore, Offer;
    var f := log[k];
    GoodAt(env, log, k);
    OfferWalk(env, f, x);
    OfferShape(env, f, x);
    var path := f.path + [x];
    forall m | 0 <= m < |f.path| ensures f.path[m] != x {
      assert PrefixKept(env, f, visit) && KeptAt(env, f.path, visit, m);
      assert path[..m + 1] == f.path[..m + 1];
      if m > 0 || f.depth > 0 {
        WalkShrinks(env, path, m + 1);
      }
    }
  }

  lemma OfferShape(env: Env, f: Frontier, x: Id)
    requires env.factor > 0.0 && (f.node, x) in env.live
    ensures Offer(env, f, x).node == x && Offer(env, f, x).path == f.path + [x]
  {
  }

  lemma OfferBeatsSeeds(env: Env, f: Frontier, visit: map<Id, Visited>, x: Id)
    requires GoodEntry(env, f) && BeatsSeeds(env, f.path) && (f.node, x) in env.live && GoodEntry(env, Offer(env, f, x))
    requires Taken(visit, Offer(env, f, x)) && (x in env.seeds ==> x in visit && visit[x].score >= env.seeds[x])
    ensures BeatsSeeds(env, Offer(env, f, x).path)
  {
    hide Taken;
    OfferExceeds(env, f, visit, x);
    var e := Offer(env, f, x);
    forall m | 0 < m < |e.path| && e.path[m] in env.seeds
      ensures IsWalk(env, e.path[..m + 1]) && WalkScore(env, e.path[..m + 1]) > env.seeds[e.path[m]]
    {
      if m < |f.path| {
        assert e.path[..m + 1] == f.path[..m + 1] && e.path[m] == f.path[m];
      } else {
        assert e.path[..m + 1] == e.path;
      }
    }
  }

  lemma OfferExceeds(env: Env, f: Frontier, visit: map<Id, Visited>, x: Id)
    requires env.factor > 0.0 && (f.node, x) in env.live && Taken(visit, Offer(env, f, x))
    requires x in env.seeds ==> x in visit && visit[x].score >= env.seeds[x]
    ensures x in env.seeds ==> Offer(env, f, x).score > env.seeds[x]
  {
  }

  lemma TakenBeatsSeeds(env: Env, log: seq<Frontier>, visit: map<Id, Visited>, k: nat, x: Id)
    requires GoodLog(env, log) && AllBeatSeeds(env, log) && Matches(log, visit) && SeedsLogged(env, log) && k < |log|
    requires env.factor > 0.0 && (log[k].node, x) in env.live && GoodEntry(env, Offer(env, log[k], x))
    requires Taken(visit, Offer(env, log[k], x)) && GoodLog(env, log + [Offer(env, log[k], x)])
    ensures AllBeatSeeds(env, log + [Offer(env, log[k], x)])
  {
    hide GoodEntry, BeatsSeeds, Matches, SeedsLogged, Taken;
    SeedsDominated(env, log, visit);
    OfferBeatsSeeds(env, log[k], visit, x);
  }

  lemma GoodAt(env: Env, log: seq<Frontier>, i: nat)
    requires GoodLog(env, log) && i < |log|
    ensures GoodEntry(env, log[i])
  {
  }

  ghost predicate SeedsNonNegative(env: Env) {
    forall s :: s in env.seeds ==> env.seeds[s] >= 0.0
  }

  // Taking an offer keeps the log in order.
  lemma TakeOffer(env: Env, log: seq<Frontier>, head: nat, visit: map<Id, Visited>, x: Id)
    requires 0 < head <= |log| && Exploring(env, log, head, visit) && SeedsNonNegative(env)
    requires log[head - 1].depth < Depths(env) && (log[head - 1].node, x) in env.live
    requires Taken(visit, Offer(env, log[head - 1], x))
    ensures var e := Offer(env, log[head - 1], x); Exploring(env, log + [e], head, visit[x := Record(e)])
  {
    hide GoodLog, GoodEntry, Ordered, Matches, SeedsLogged, PrefixesKept, AllBeatSeeds, Simple;
    var f := log[head - 1];
    var e := Offer(env, f, x);
    GoodAt(env, log, head - 1);
    OfferGood(env, f, x);
    TakenOrdered(env, log, head, x);
    TakenMatches(log, visit, e);
    SeedsLoggedLater(env, log, e);
    TakenPrefixes(env, log, visit, head - 1, x);
    TakenBeatsSeeds(env, log, visit, head - 1, x);
    if Tame(env) {
      TakenSimple(env, log, visit, head - 1, x);
    }
  }

  // Popping the next entry: the queue stays in order.
  lemma Pop(env: Env, log: seq<Frontier>, head: nat, visit: map<Id, Visited>)
    requires head < |log| && Exploring(env, log, head, visit)
    ensures Exploring(env, log, head + 1, visit)
  {
    hide GoodLog, Matches, SeedsLogged, PrefixesKept, AllBeatSeeds, AllSimple;
    if head > 0 {
      assert log[head - 1].depth <= log[head].depth;
    }
  }

  // ----- expanding one entry, edge by edge -----

  // The last popped entry has had the first i of the listed edges relaxed.
  ghost predicate Relaxing(env: Env, log: seq<Frontier>, head: nat, visit: map<Id, Visited>, out: seq<(Id, Id)>, i: nat) {
    && env.factor > 0.0 && 0 < head <= |log| && i <= |out|
    && Exploring(env, log, head, visit) && SeedsNonNegative(env)
    && log[head - 1].depth < Depths(env)
    && (forall m :: 0 <= m < |out| ==> out[m].0 == log[head - 1].node)
    && AllExpanded(env, log, head - 1)
    && (forall m :: 0 <= m < i && out[m] in env.live ==> Settled(env, log, log[head - 1], out[m].1))
  }

  lemma RelaxStart(env: Env, log: seq<Frontier>, head: nat, visit: map<Id, Visited>, out: seq<(Id, Id)>)
    requires env.factor > 0.0 && 0 < head <= |log| && Exploring(env, log, head, visit) && SeedsNonNegative(env)
    requires log[head - 1].depth < Depths(env) && AllExpanded(env, log, head - 1)
    requires forall p :: p in out ==> p.0 == log[head - 1].node
    ensures Relaxing(env, log, head, visit, out, 0)
  {
    hide Exploring, AllExpanded;
  }

  lemma RelaxTaken(env: Env, log: seq<Frontier>, head: nat, visit: map<Id, Visited>, out: seq<(Id, Id)>, i: nat)
    requires Relaxing(env, log, head, visit, out, i) && i < |out| && out[i] in env.live
    requires Taken(visit, Offer(env, log[head - 1], out[i].1))
    ensures var e := Offer(env, log[head - 1], out[i].1);
            Relaxing(env, log + [e], head, visit[out[i].1 := Record(e)], out, i + 1)
  {
    hide Exploring, AllExpanded, Settled;
    var f := log[head - 1];
    var e := Offer(env, f, out[i].1);
    TakeOffer(env, log, head, visit, out[i].1);
    AllExpandedLater(env, log, e, head - 1);
    TakenIsSettled(env, log, f, out[i].1);
    forall m | 0 <= m < i && out[m] in env.live ensures Settled(env, log + [e], f, out[m].1) {
      SettledLater(env, log, e, f, out[m].1);
    }
  }

  lemma RelaxRefused(env: Env, log: seq<Frontier>, head: nat, visit: map<Id, Visited>, out: seq<(Id, Id)>, i: nat)
    requires Relaxing(env, log, head, visit, out, i) && i < |out|
    requires out[i] in env.live ==> !Taken(visit, Offer(env, log[head - 1], out[i].1))
    ensures Relaxing(env, log, head, visit, out, i + 1)
  {
    hide GoodLog, Matches, Ordered, SeedsLogged, PrefixesKept, AllBeatSeeds, AllSimple, AllExpanded, Settled;
    if out[i] in env.live {
      RefusedIsSettled(env, log, head, visit, out[i].1);
    }
  }

  lemma RelaxDone(env: Env, log: seq<Frontier>, head: nat, visit: map<Id, Visited>, out: seq<(Id, Id)>)
    requires Relaxing(env, log, head, visit, out, |out|)
    requires forall p :: p in env.live && p.0 == log[head - 1].node ==> p in out
    ensures Exploring(env, log, head, visit) && AllExpanded(env, log, head)
  {
    hide Exploring, Settled;
  }

  // ----- the start: one entry per seed -----

  function SeedEntry(env: Env, s: Id): Frontier
    requires s in env.seeds
  {
    Frontier(s, s, env.seeds[s], [s], 0)
  }

  function SeedLog(env: Env, seeds: seq<Id>): seq<Frontier>
    requires forall i :: 0 <= i < |seeds| ==> seeds[i] in env.seeds
  {
    seq(|seeds|, i requires 0 <= i < |seeds| => SeedEntry(env, seeds[i]))
  }

  function SeedTable(env: Env, seeds: seq<Id>): map<Id, Visited>
    requires forall i :: 0 <= i < |seeds| ==> seeds[i] in env.seeds
  {
    map s | s in seeds :: Record(SeedEntry(env, s))
  }

  lemma Start(env: Env, seeds: seq<Id>)
    requires ValidEnv(env)
    requires forall s :: s in env.seeds <==> s in seeds
    ensures Exploring(env, SeedLog(env, seeds), 0, SeedTable(env, seeds))
  {
    hide GoodLog, Matches, SeedsLogged, PrefixesKept, AllBeatSeeds, AllSimple;
    StartGood(env, seeds);
    StartMatches(env, seeds);
    StartPrefixes(env, seeds);
  }

  lemma StartGood(env: Env, seeds: seq<Id>)
    requires ValidEnv(env)
    requires forall s :: s in env.seeds <==> s in seeds
    ensures GoodLog(env, SeedLog(env, seeds)) && AllSimple(env, SeedLog(env, seeds))
    ensures AllBeatSeeds(env, SeedLog(env, seeds))
  {
  }

  lemma StartMatches(env: Env, seeds: seq<Id>)
    requires forall s :: s in env.seeds <==> s in seeds
    ensures Matches(SeedLog(env, seeds), SeedTable(env, seeds)) && SeedsLogged(env, SeedLog(env, seeds))
  {
    var log := SeedLog(env, seeds);
    var visit := SeedTable(env, seeds);
    forall s | s in env.seeds
      ensures Reached(log, s, 0, env.seeds[s])
      ensures exists i :: 0 <= i < |log| && log[i].node == s && visit[s] == Record(log[i])
    {
      var i :| 0 <= i < |seeds| && seeds[i] == s;
      assert log[i] == SeedEntry(env, s);
    }
  }

  lemma StartPrefixes(env: Env, seeds: seq<Id>)
    requires ValidEnv(env)
    requires forall s :: s in env.seeds <==> s in seeds
    requires GoodLog(env, SeedLog(env, seeds))
    ensures PrefixesKept(env, SeedLog(env, seeds), SeedTable(env, seeds))
  {
    var log := SeedLog(env, seeds);
    var visit := SeedTable(env, seeds);
    forall i | 0 <= i < |log| ensures PrefixKept(env, log[i], visit) {
      assert log[i].path[..0 + 1] == [seeds[i]];
    }
  }

  // ----- the end: best walks -----

  // What the visit table means once the queue is empty.
  ghost predicate BestWalks(env: Env, visit: map<Id, Visited>)
    requires env.factor > 0.0
  {
    && (forall x :: x in visit ==> Attained(env, x, visit[x]))
    && (forall s :: s in env.seeds ==> s in visit && visit[s].score >= env.seeds[s])
    && (env.factor >= 1.0 ==>
          forall path :: IsWalk(env, path) && |path| <= Depths(env) + 1 && WalkScore(env, path) > 0.0 ==>
            var x := path[|path| - 1]; x in visit && visit[x].score >= WalkScore(env, path))
    && (forall x :: x in visit ==> BeatsSeeds(env, visit[x].path))
    && Closed(env, visit)
    && (Tame(env) ==> forall x :: x in visit ==> Simple(visit[x].path))
  }

  // What a record offers over an edge, hops permitting, the node at its end has.
  ghost predicate Closed(env: Env, visit: map<Id, Visited>)
    requires env.factor > 0.0
  {
    forall x, y :: x in visit && visit[x].depth < Depths(env) && (x, y) in env.live ==> Matched(env, visit, x, y)
  }

  ghost predicate Matched(env: Env, visit: map<Id, Visited>, x: Id, y: Id)
    requires env.factor > 0.0 && x in visit && (x, y) in env.live
  {
    var c := Hop(env, visit[x].score, env.live[(x, y)], visit[x].depth + 1);
    c > 0.0 ==> y in visit && visit[y].score >= c
  }

  // The recorded score is that of the recorded walk, which starts at the recorded seed.
  ghost predicate Attained(env: Env, x: Id, v: Visited)
    requires env.factor > 0.0
  {
    && IsWalkTo(env, v.path, x, v.depth)
    && v.seed == v.path[0]
    && v.score == WalkScore(env, v.path)
    && (v.depth > 0 ==> v.score > 0.0)
    && v.viaEdge == (v.depth > 0)
  }

  // Every positive walk is dominated by an entry of the log: the dominance argument, hop by hop.
  lemma {:induction false} WalkDominated(env: Env, log: seq<Frontier>, path: seq<Id>)
    requires ValidEnv(env) && env.factor >= 1.0
    requires SeedsLogged(env, log) && AllExpanded(env, log, |log|)
    requires IsWalk(env, path) && |path| <= Depths(env) + 1 && WalkScore(env, path) > 0.0
    ensures Reached(log, path[|path| - 1], |path| - 1, WalkScore(env, path))
  {
    if |path| > 1 {
      var n := |path| - 1;
      WalkPrefix(env, path, n);
      var y, x := path[n - 1], path[n];
      var t, w := WalkScore(env, path[..n]), env.live[(y, x)];
      HopPositive(env, t, w, n);
      WalkDominated(env, log, path[..n]);
      var j :| 0 <= j < |log| && log[j].node == y && log[j].depth <= n - 1 && log[j].score >= t;
      HopDominates(env, log[j].score, t, w, log[j].depth + 1, n);
      assert Expanded(env, log, log[j]);
      assert Settled(env, log, log[j], x);
    }
  }

  lemma QueueEmpty(env: Env, log: seq<Frontier>, visit: map<Id, Visited>)
    requires Exploring(env, log, |log|, visit) && AllExpanded(env, log, |log|)
    ensures BestWalks(env, visit)
  {
    hide IsWalk, Simple, AllExpanded, PrefixesKept, AllBeatSeeds, BeatsSeeds, Closed, Ordered, GoodLog, AllSimple, Matches, SeedsLogged;
    RecordsAttained(env, log, visit);
    SeedsDominated(env, log, visit);
    TableClosed(env, log, visit);
    if env.factor >= 1.0 {
      WalksDominated(env, log, visit);
    }
  }

  lemma TableClosed(env: Env, log: seq<Frontier>, visit: map<Id, Visited>)
    requires env.factor > 0.0 && Matches(log, visit) && AllExpanded(env, log, |log|)
    ensures Closed(env, visit)
  {
    hide Hop;
    forall x, y | x in visit && visit[x].depth < Depths(env) && (x, y) in env.live ensures Matched(env, visit, x, y) {
      var i :| 0 <= i < |log| && log[i].node == x && visit[x] == Record(log[i]);
      assert Expanded(env, log, log[i]);
      assert Settled(env, log, log[i], y);
    }
  }

  lemma SeedsDominated(env: Env, log: seq<Frontier>, visit: map<Id, Visited>)
    requires Matches(log, visit) && SeedsLogged(env, log)
    ensures forall s :: s in env.seeds ==> s in visit && visit[s].score >= env.seeds[s]
  {
    forall s | s in env.seeds ensures s in visit && visit[s].score >= env.seeds[s] {
      RecordsDominate(log, visit, s, 0, env.seeds[s]);
    }
  }

  lemma WalksDominated(env: Env, log: seq<Frontier>, visit: map<Id, Visited>)
    requires ValidEnv(env) && env.factor >= 1.0 && Matches(log, visit)
    requires SeedsLogged(env, log) && AllExpanded(env, log, |log|)
    ensures forall path :: IsWalk(env, path) && |path| <= Depths(env) + 1 && WalkScore(env, path) > 0.0 ==>
              var x := path[|path| - 1]; x in visit && visit[x].score >= WalkScore(env, path)
  {
    forall path | IsWalk(env, path) && |path| <= Depths(env) + 1 && WalkScore(env, path) > 0.0
      ensures var x := path[|path| - 1]; x in visit && visit[x].score >= WalkScore(env, path)
    {
      WalkDominated(env, log, path);
      RecordsDominate(log, visit, path[|path| - 1], |path| - 1, WalkScore(env, path));
    }
  }

  lemma RecordsAttained(env: Env, log: seq<Frontier>, visit: map<Id, Visited>)
    requires env.factor > 0.0 && GoodLog(env, log) && Matches(log, visit) && AllSimple(env, log) && AllBeatSeeds(env, log)
    ensures forall x :: x in visit ==> Attained(env, x, visit[x]) && BeatsSeeds(env, visit[x].path)
    ensures Tame(env) ==> forall x :: x in visit ==> Simple(visit[x].path)
  {
    hide BeatsSeeds;
    forall x | x in visit
      ensures Attained(env, x, visit[x]) && BeatsSeeds(env, visit[x].path) && (Tame(env) ==> Simple(visit[x].path))
    {
      var i :| 0 <= i < |log| && log[i].node == x && visit[x] == Record(log[i]);
      assert GoodEntry(env, log[i]);
    }
  }

  lemma RecordsDominate(log: seq<Frontier>, visit: map<Id, Visited>, x: Id, depth: nat, score: real)
    requires Matches(log, visit) && Reached(log, x, depth, score)
    ensures x in visit && visit[x].score >= score
  {
  }

  // The recorded score is exactly the maximum over the seed itself and all positive walks of at
  // most hops live edges, and the recorded path attains it.
  lemma BestScoreIsMaximum(env: Env, visit: map<Id, Visited>, x: Id)
    requires ValidEnv(env) && env.factor >= 1.0 && SeedsNonNegative(env) && BestWalks(env, visit)
    ensures x in visit <==> x in env.seeds || exists path, d: nat :: IsWalkTo(env, path, x, d) && WalkScore(env, path) > 0.0
    ensures x in visit ==> IsWalkTo(env, visit[x].path, x, visit[x].depth)
                           && visit[x].score == WalkScore(env, visit[x].path)
    ensures x in visit ==> forall path, d: nat :: IsWalkTo(env, path, x, d) ==> WalkScore(env, path) <= visit[x].score
  {
    hide BestWalks, IsWalk, WalkScore;
    SeedsHave(env, visit, x);
    if x in visit {
      AttainedAt(env, visit, x);
      AttainedNonNegative(env, x, visit[x]);
    }
    forall path, d: nat | IsWalkTo(env, path, x, d) && WalkScore(env, path) > 0.0
      ensures x in visit && WalkScore(env, path) <= visit[x].score
    {
      WalkHas(env, visit, path);
    }
  }

  lemma SeedsHave(env: Env, visit: map<Id, Visited>, x: Id)
    requires env.factor > 0.0 && BestWalks(env, visit)
    ensures x in env.seeds ==> x in visit
  {
  }

  lemma AttainedAt(env: Env, visit: map<Id, Visited>, x: Id)
    requires env.factor > 0.0 && BestWalks(env, visit) && x in visit
    ensures IsWalkTo(env, visit[x].path, x, visit[x].depth) && visit[x].score == WalkScore(env, visit[x].path)
    ensures Attained(env, x, visit[x])
    ensures visit[x].depth > 0 ==> visit[x].score > 0.0
    ensures visit[x].depth == 0 ==> x in env.seeds
  {
    hide WalkScore, BeatsSeeds, Simple, Closed;
  }

  lemma WalkHas(env: Env, visit: map<Id, Visited>, path: seq<Id>)
    requires env.factor >= 1.0 && BestWalks(env, visit)
    requires IsWalk(env, path) && |path| <= Depths(env) + 1 && WalkScore(env, path) > 0.0
    ensures var x := path[|path| - 1]; x in visit && visit[x].score >= WalkScore(env, path)
  {
    hide WalkScore, IsWalk, BeatsSeeds, Simple, Closed, Attained;
  }

  lemma AttainedNonNegative(env: Env, x: Id, v: Visited)
    requires env.factor > 0.0 && SeedsNonNegative(env) && Attained(env, x, v)
    ensures v.score >= 0.0
  {
  }

  // ----- termination -----

  function PowN(b: nat, n: nat): nat {
    if n == 0 then 1 else b * PowN(b, n - 1)
  }

  // Each queued entry may still enqueue a tree of entries, branch wide at every level left.
  function Work(env: Env, branch: nat, queue: seq<Frontier>): nat {
    if queue == [] then 0
    else TreeSize(env, branch, queue[0]) + Work(env, branch, queue[1..])
  }

  function TreeSize(env: Env, branch: nat, f: Frontier): nat {
    if f.depth >= Depths(env) then 1 else PowN(branch, Depths(env) - f.depth)
  }

  lemma {:induction false} WorkAppend(env: Env, branch: nat, queue: seq<Frontier>, e: Frontier)
    ensures Work(env, branch, queue + [e]) == Work(env, branch, queue) + TreeSize(env, branch, e)
  {
    if queue == [] {
      assert queue + [e] == [e];
    } else {
      WorkAppend(env, branch, queue[1..], e);
      assert (queue + [e])[1..] == queue[1..] + [e];
    }
  }

  lemma {:induction false} PowNPositive(b: nat, n: nat)
    requires b > 0
    ensures PowN(b, n) > 0
  {
    if n > 0 {
      PowNPositive(b, n - 1);
    }
  }

  // Popping an entry pays for every entry its edges may enqueue.
  lemma PopPays(env: Env, branch: nat, f: Frontier, taken: nat, child: nat)
    requires 0 < branch && taken < branch && f.depth < Depths(env)
    requires child == PowN(branch, Depths(env) - f.depth - 1)
    ensures taken * child < TreeSize(env, branch, f)
  {
    PowNPositive(branch, Depths(env) - f.depth - 1);
    assert (branch - taken) * child > 0;
  }

  // What taking one offer adds to the work is what popping its parent paid for.
  lemma OfferWork(env: Env, branch: nat, queue: seq<Frontier>, f: Frontier, x: Id)
    requires env.factor > 0.0 && (f.node, x) in env.live && f.depth < Depths(env)
    ensures Work(env, branch, queue + [Offer(env, f, x)])
         == Work(env, branch, queue) + PowN(branch, Depths(env) - f.depth - 1)
  {
    WorkAppend(env, branch, queue, Offer(env, f, x));
  }

  // An entry at full depth has nothing to expand.
  lemma FullDepthExpanded(env: Env, log: seq<Frontier>, n: nat)
    requires env.factor > 0.0 && n < |log| && AllExpanded(env, log, n) && log[n].depth >= Depths(env)
    ensures AllExpanded(env, log, n + 1)
  {
  }
}
