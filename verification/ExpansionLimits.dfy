// The exact conditions of the expansion's theorems, with the graphs that show where they end.
module ExpansionLimits {
  import opened RealPower
  import opened MemoryGraph
  import opened Expansion
  import opened ExpansionRuns
  import opened ExpansionRing

  // ----- a weight beyond the penalty makes a path come back -----

  // Two nodes joined both ways with weight w, the first of them the seed.
  function TwoCycle(w: real, factor: real): Env {
    Env(map[(1, 2) := w, (2, 1) := w], map[1 := 1.0], factor, 2)
  }

  // There and back scores more than staying exactly when the weights outgrow the penalties.
  lemma RoundTripScore(w: real, factor: real)
    requires w > 0.0 && factor > 0.0
    ensures IsWalk(TwoCycle(w, factor), [1, 2, 1]) && IsWalk(TwoCycle(w, factor), [1])
    ensures WalkScore(TwoCycle(w, factor), [1]) == 1.0
    ensures WalkScore(TwoCycle(w, factor), [1, 2, 1]) > 1.0 <==> !Within(factor, w)
  {
    hide Hop, Pow;
    var env := TwoCycle(w, factor);
    FirstPowers(factor);
    assert [1, 2, 1][..2] == [1, 2] && [1, 2][..1] == [1];
    assert IsWalk(env, [1, 2]) && IsWalk(env, [1]);
    var once, twice := WalkScore(env, [1, 2]), WalkScore(env, [1, 2, 1]);
    assert once == Hop(env, 1.0, w, 1) && twice == Hop(env, once, w, 2);
    HopClears(env, 1.0, w, 1, factor);
    HopClears(env, once, w, 2, factor * factor);
    TwoHops(once, twice, w, factor);
  }

  lemma TwoHops(once: real, twice: real, w: real, factor: real)
    requires once * factor == w && twice * (factor * factor) == once * w && factor > 0.0
    ensures twice > 1.0 <==> w * w > factor * factor * factor
  {
    var cube := factor * factor * factor;
    MulPositive(factor, factor);
    MulPositive(factor * factor, factor);
    Scale(twice, 1.0, cube);
    assert twice * cube == twice * (factor * factor) * factor;
    assert once * w * factor == once * factor * w;
  }

  lemma WalksBack(w: real, factor: real, path: seq<Id>)
    requires IsWalk(TwoCycle(w, factor), path) && path[|path| - 1] == 1 && |path| <= 3
    ensures path == [1] || path == [1, 2, 1]
  {
    assert |path| > 1 ==> (path[0], path[0 + 1]) in TwoCycle(w, factor).live;
    assert |path| > 2 ==> (path[1], path[1 + 1]) in TwoCycle(w, factor).live;
  }

  // On this graph the recorded path to the seed is simple exactly when the weights are within the bound.
  lemma PathRevisitsSeed(w: real, factor: real, visit: map<Id, Visited>)
    requires w > 0.0 && factor >= 1.0 && BestWalks(TwoCycle(w, factor), visit)
    ensures 1 in visit
    ensures Simple(visit[1].path) <==> Within(factor, w)
  {
    hide BestWalks, WalkScore, BeatsSeeds;
    var env := TwoCycle(w, factor);
    assert 1 in env.seeds;
    RecordOf(env, visit, 1);
    var path := visit[1].path;
    WalksBack(w, factor, path);
    RoundTripScore(w, factor);
    if WalkScore(env, [1, 2, 1]) > 0.0 {
      WalkHas(env, visit, [1, 2, 1]);
    }
    ReturnBeats(env, path);
  }

  // What the visit table says of one node.
  lemma RecordOf(env: Env, visit: map<Id, Visited>, x: Id)
    requires env.factor > 0.0 && BestWalks(env, visit)
    ensures x in env.seeds ==> x in visit
    ensures x in visit ==> Attained(env, x, visit[x]) && BeatsSeeds(env, visit[x].path)
  {
  }

  // A recorded path that ends by returning to a seed beats it.
  lemma ReturnBeats(env: Env, path: seq<Id>)
    requires env.factor > 0.0 && IsWalk(env, path) && BeatsSeeds(env, path)
    ensures |path| > 1 && path[|path| - 1] in env.seeds ==> WalkScore(env, path) > env.seeds[path[|path| - 1]]
  {
    var m := |path| - 1;
    assert path[..m + 1] == path;
  }

  predicate WeightsUpTo(env: Env, cap: real) {
    forall p :: p in env.live ==> env.live[p] <= cap
  }

  predicate AllPathsSimple(visit: map<Id, Visited>) {
    forall x :: x in visit ==> Simple(visit[x].path)
  }

  // With weights up to a cap, every run of the expansion on every graph leaves simple paths exactly when the
  // penalty factor is at least one and its cube at least the square of the cap.
  lemma PathsSimpleExactly(cap: real, factor: real)
    requires cap > 0.0 && factor > 0.0
    ensures factor >= 1.0 && Within(factor, cap) <==>
            forall env: Env, visit :: Expands(env, factor) && WeightsUpTo(env, cap) && Leaves(env, visit) ==> AllPathsSimple(visit)
  {
    hide BestWalks, Within, Ring, Carried, Leaves;
    if factor >= 1.0 && Within(factor, cap) {
      forall env: Env, visit | Expands(env, factor) && WeightsUpTo(env, cap) && Leaves(env, visit) ensures AllPathsSimple(visit) {
        CapIsTame(env, cap);
        LeavesBestWalks(env, visit);
        TameTable(env, visit);
      }
    } else if factor >= 1.0 {
      var env := TwoCycle(cap, factor);
      var visit := SomeTable(env);
      PathRevisitsSeed(cap, factor, visit);
      assert Expands(env, factor) && WeightsUpTo(env, cap) && Leaves(env, visit) && !AllPathsSimple(visit);
    } else {
      var n := LongEnough(cap, factor);
      var env := Ring(n, cap, factor);
      RingValid(n, cap, factor);
      var visit := SomeTable(env);
      RoundRecorded(n, cap, factor, visit);
      assert Expands(env, factor) && WeightsUpTo(env, cap) && Leaves(env, visit) && !AllPathsSimple(visit);
    }
  }

  // A graph the expansion can be run on, with its penalty factor.
  ghost predicate Expands(env: Env, factor: real) {
    env.factor == factor && ValidEnv(env) && SeedsNonNegative(env)
  }

  lemma RingValid(n: nat, cap: real, factor: real)
    requires n >= 2 && cap > 0.0 && factor > 0.0
    ensures Expands(Ring(n, cap, factor), factor) && WeightsUpTo(Ring(n, cap, factor), cap)
  {
    hide Ring;
    RingSeed(n, cap, factor);
    forall p | p in Ring(n, cap, factor).live ensures Ring(n, cap, factor).live[p] == cap && p.0 != p.1 {
      RingEdge(n, cap, factor, p);
    }
  }

  lemma CapIsTame(env: Env, cap: real)
    requires ValidEnv(env) && env.factor >= 1.0 && WeightsUpTo(env, cap) && Within(env.factor, cap)
    ensures Tame(env)
  {
    forall p | p in env.live ensures Within(env.factor, env.live[p]) {
      SmallerWithin(env.factor, env.live[p], cap);
    }
  }

  lemma TameTable(env: Env, visit: map<Id, Visited>)
    requires env.factor > 0.0 && BestWalks(env, visit) && Tame(env)
    ensures AllPathsSimple(visit)
  {
  }

  // ----- a penalty factor below one loses the best walk -----

  // The seed 1 joined both ways with 2, and to 3.
  function Detour(factor: real): Env {
    Env(map[(1, 2) := factor * factor, (2, 1) := factor * factor, (1, 3) := 1.0], map[1 := 1.0], factor, 3)
  }

  // Once round the cycle loses score, but the walk on to 3 then pays a smaller penalty.
  lemma DetourScores(factor: real)
    requires 0.0 < factor < 1.0
    ensures var env := Detour(factor);
            && IsWalk(env, [1, 2, 1]) && WalkScore(env, [1, 2, 1]) < 1.0
            && IsWalk(env, [1, 2, 1, 3]) && IsWalk(env, [1, 3])
            && WalkScore(env, [1, 2, 1, 3]) > WalkScore(env, [1, 3])
  {
    hide Hop, Pow;
    var env, sq := Detour(factor), factor * factor;
    FirstPowers(factor);
    assert [1, 2, 1, 3][..3] == [1, 2, 1] && [1, 2, 1][..2] == [1, 2] && [1, 2][..1] == [1] && [1, 3][..1] == [1];
    assert IsWalk(env, [1, 2]) && IsWalk(env, [1]) && IsWalk(env, [1, 2, 1]);
    var once, twice := WalkScore(env, [1, 2]), WalkScore(env, [1, 2, 1]);
    var direct, detour := WalkScore(env, [1, 3]), WalkScore(env, [1, 2, 1, 3]);
    assert env.live[(1, 2)] == sq && env.live[(2, 1)] == sq && env.live[(1, 3)] == 1.0;
    LastHop(env, [1, 2], 1);
    LastHop(env, [1, 2, 1], 2);
    LastHop(env, [1, 3], 1);
    LastHop(env, [1, 2, 1, 3], 3);
    assert once == Hop(env, 1.0, sq, 1) && twice == Hop(env, once, sq, 2);
    assert direct == Hop(env, 1.0, 1.0, 1) && detour == Hop(env, twice, 1.0, 3);
    HopClears(env, 1.0, sq, 1, factor);
    HopClears(env, once, sq, 2, sq);
    HopClears(env, 1.0, 1.0, 1, factor);
    HopClears(env, twice, 1.0, 3, factor * sq);
    DetourWins(once, twice, direct, detour, factor, sq);
  }

  lemma DetourWins(once: real, twice: real, direct: real, detour: real, factor: real, sq: real)
    requires 0.0 < factor < 1.0 && sq == factor * factor
    requires once * factor == sq && twice * sq == once * sq && direct * factor == 1.0 && detour * (factor * sq) == twice
    ensures twice == factor && detour > direct
  {
    MulPositive(factor, factor);
    MulPositive(factor, sq);
    Scale(once, factor, factor);
    Scale(twice, once, sq);
    Scale(1.0, factor, factor);
    Scale(detour, direct, factor * sq);
    assert direct * (factor * sq) == direct * factor * sq;
  }

  lemma WalksOut(factor: real, path: seq<Id>)
    requires IsWalk(Detour(factor), path) && path[|path| - 1] == 3 && |path| <= 4
    ensures path == [1, 3] || path == [1, 2, 1, 3]
  {
    var env := Detour(factor);
    assert |path| > 1 ==> (path[0], path[0 + 1]) in env.live;
    assert |path| > 2 ==> (path[1], path[1 + 1]) in env.live;
    assert |path| > 3 ==> (path[2], path[2 + 1]) in env.live;
  }

  // The factor of at least one is needed: below it, for every value, the expansion of this graph
  // misses the best walk to 3, whatever the order of the edges.
  lemma BestWalkMissed(factor: real, visit: map<Id, Visited>)
    requires 0.0 < factor < 1.0 && BestWalks(Detour(factor), visit)
    ensures IsWalkTo(Detour(factor), [1, 2, 1, 3], 3, 3)
    ensures 3 in visit ==> visit[3].score < WalkScore(Detour(factor), [1, 2, 1, 3])
  {
    hide BestWalks, WalkScore, BeatsSeeds;
    var env := Detour(factor);
    DetourScores(factor);
    RecordOf(env, visit, 3);
    if 3 in visit {
      var path := visit[3].path;
      WalksOut(factor, path);
      PassesSeed(env, path, 2);
      assert [1, 2, 1, 3][..3] == [1, 2, 1];
    }
  }

  // No walk within the hops scores more than what is recorded for its end.
  ghost predicate Optimal(env: Env, visit: map<Id, Visited>)
    requires env.factor > 0.0
  {
    forall path :: IsWalk(env, path) && |path| <= Depths(env) + 1 && WalkScore(env, path) > 0.0 ==>
      var x := path[|path| - 1]; x in visit && visit[x].score >= WalkScore(env, path)
  }

  lemma SeedScore(env: Env, s: Id)
    requires env.factor > 0.0 && s in env.seeds
    ensures IsWalk(env, [s]) && WalkScore(env, [s]) == env.seeds[s]
  {
  }

  // Every run of the expansion on every graph finds the best walks exactly when the penalty factor is at least one.
  lemma BestWalksExactly(factor: real)
    requires factor > 0.0
    ensures factor >= 1.0 <==> forall env: Env, visit :: Expands(env, factor) && Leaves(env, visit) ==> Optimal(env, visit)
  {
    hide BestWalks, WalkScore, Optimal, Leaves;
    if factor >= 1.0 {
      forall env: Env, visit | Expands(env, factor) && Leaves(env, visit) ensures Optimal(env, visit) {
        LeavesBestWalks(env, visit);
        AboveOne(env, visit);
      }
    } else {
      var env := Detour(factor);
      MulPositive(factor, factor);
      var visit := SomeTable(env);
      BestWalkMissed(factor, visit);
      DetourScores(factor);
      DetourPositive(factor);
      Missed(env, visit, [1, 2, 1, 3]);
      assert Expands(env, factor) && Leaves(env, visit);
    }
  }

  lemma AboveOne(env: Env, visit: map<Id, Visited>)
    requires env.factor >= 1.0 && BestWalks(env, visit)
    ensures Optimal(env, visit)
  {
    hide IsWalk, WalkScore, BeatsSeeds, Attained, Simple;
  }

  lemma Missed(env: Env, visit: map<Id, Visited>, path: seq<Id>)
    requires env.factor > 0.0 && IsWalk(env, path) && |path| <= Depths(env) + 1 && WalkScore(env, path) > 0.0
    requires path[|path| - 1] in visit ==> visit[path[|path| - 1]].score < WalkScore(env, path)
    ensures !Optimal(env, visit)
  {
    hide WalkScore, IsWalk;
  }

  lemma DetourPositive(factor: real)
    requires 0.0 < factor < 1.0
    ensures var env := Detour(factor); IsWalk(env, [1, 2, 1, 3]) && WalkScore(env, [1, 2, 1, 3]) > 0.0
  {
    hide WalkScore;
    var env := Detour(factor);
    DetourScores(factor);
    SeedScore(env, 1);
    assert [1, 3][..1] == [1];
    LastHop(env, [1, 3], 1);
    HopPositive(env, 1.0, 1.0, 1);
  }

  // A recorded path that passes through a seed beats it there.
  lemma PassesSeed(env: Env, path: seq<Id>, m: nat)
    requires env.factor > 0.0 && IsWalk(env, path) && BeatsSeeds(env, path) && 0 < m
    ensures m < |path| && path[m] in env.seeds ==>
              IsWalk(env, path[..m + 1]) && WalkScore(env, path[..m + 1]) > env.seeds[path[m]]
  {
  }
}
