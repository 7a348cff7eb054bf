// Below a penalty factor of one a long enough ring brings every expansion back to its seed, whatever the weights.
module ExpansionRing {
  import opened RealPower
  import opened MemoryGraph
  import opened Expansion

  // ----- powers below any bound -----

  // Bernoulli: the power times its linear bound stays below one.
  lemma {:induction false} PowTimesLinear(f: real, h: real, m: nat)
    requires 0.0 < f < 1.0 && h > 0.0 && f * (1.0 + h) == 1.0
    ensures Pow(f, m) * (1.0 + m as real * h) <= 1.0
  {
    if m > 0 {
      PowTimesLinear(f, h, m - 1);
      PowPositive(f, m - 1);
      LinearStep(f, h, (m - 1) as real, Pow(f, m - 1));
    }
  }

  lemma LinearStep(f: real, h: real, m: real, p: real)
    requires 0.0 < f < 1.0 && h > 0.0 && f * (1.0 + h) == 1.0 && m >= 0.0 && p > 0.0
    requires p * (1.0 + m * h) <= 1.0
    ensures f * p * (1.0 + (m + 1.0) * h) <= 1.0
  {
    var mh := m * h;
    MulNonNegative(m, h);
    MulMonotone(f, 1.0, mh);
    assert f * (1.0 + mh + h) == f * (1.0 + h) + f * mh;
    assert f * (1.0 + mh + h) <= 1.0 + mh;
    MulMonotone(f * (1.0 + mh + h), 1.0 + mh, p);
    assert (m + 1.0) * h == mh + h;
    assert f * p * (1.0 + mh + h) == p * (f * (1.0 + mh + h));
  }

  lemma PowBelow(f: real, eps: real) returns (m: nat)
    requires 0.0 < f < 1.0 && eps > 0.0
    ensures Pow(f, m) <= eps
  {
    var h := 1.0 / f - 1.0;
    DivCancels(1.0, f);
    assert f * (1.0 + h) == 1.0;
    Scale(1.0 / f, 1.0, f);
    var need := 1.0 / eps / h;
    DivCancels(1.0, eps);
    DivCancels(1.0 / eps, h);
    Scale(1.0 / eps, 0.0, eps);
    Scale(need, 0.0, h);
    m := (need.Floor + 1) as nat;
    PowTimesLinear(f, h, m);
    MulMonotone(need, m as real, h);
    PowPositive(f, m);
    BelowInverse(Pow(f, m), 1.0 + m as real * h, 1.0 / eps, eps);
  }

  lemma BelowInverse(p: real, bound: real, inverse: real, eps: real)
    requires p > 0.0 && p * bound <= 1.0 && inverse <= bound && inverse * eps == 1.0 && eps > 0.0
    ensures p <= eps
  {
    MulMonotone(inverse, bound, p);
    MulMonotone(p * inverse, 1.0, eps);
    assert p * inverse * eps == p * (inverse * eps) == p;
  }

  // ----- the ring -----

  // 1 to 2, 2 to 3, and so on, and from n back to the seed 1.
  function Onward(k: nat): (Id, Id) { (k, k + 1) }

  function RingEdges(n: nat): set<(Id, Id)> {
    (set k: nat | 1 <= k < n :: Onward(k)) + {(n, 1)}
  }

  function Ring(n: nat, w: real, factor: real): Env {
    Env(map p | p in RingEdges(n) :: w, map[1 := 1.0], factor, n)
  }

  function Along(k: nat): seq<Id> { seq(k, i requires 0 <= i < k => i + 1) }

  function Round(n: nat): seq<Id> { Along(n) + [1] }

  // The score carried k hops along the ring.
  function Carried(env: Env, w: real, k: nat): real
    requires env.factor > 0.0
  {
    if k == 0 then 1.0 else Hop(env, Carried(env, w, k - 1), w, k)
  }

  lemma RingEdge(n: nat, w: real, factor: real, p: (Id, Id))
    requires n >= 2
    ensures p in Ring(n, w, factor).live <==> (1 <= p.0 < n && p.1 == p.0 + 1) || p == (n, 1)
    ensures p in Ring(n, w, factor).live ==> Ring(n, w, factor).live[p] == w && p.0 != p.1
  {
    if 1 <= p.0 < n && p.1 == p.0 + 1 {
      assert p == Onward(p.0);
    }
  }

  lemma {:induction false} AlongScore(n: nat, w: real, factor: real, k: nat)
    requires n >= 2 && 0 < k <= n && factor > 0.0
    ensures IsWalk(Ring(n, w, factor), Along(k))
    ensures WalkScore(Ring(n, w, factor), Along(k)) == Carried(Ring(n, w, factor), w, k - 1)
  {
    hide Hop, Ring;
    var env := Ring(n, w, factor);
    RingSeed(n, w, factor);
    if k > 1 {
      AlongScore(n, w, factor, k - 1);
      assert Along(k)[..k - 1] == Along(k - 1);
      RingEdge(n, w, factor, (k - 1, k));
      ExtendWalk(env, Along(k - 1), k);
      assert Along(k - 1) + [k] == Along(k);
      LastHop(env, Along(k), k - 1);
    } else {
      assert Along(1) == [1];
    }
  }

  lemma RingSeed(n: nat, w: real, factor: real)
    ensures var env := Ring(n, w, factor);
            env.seeds == map[1 := 1.0] && env.factor == factor && env.hops == n && Depths(env) == n
  {
  }

  lemma ExtendWalk(env: Env, path: seq<Id>, x: Id)
    requires IsWalk(env, path) && (path[|path| - 1], x) in env.live
    ensures IsWalk(env, path + [x])
  {
    var longer := path + [x];
    forall i | 0 < i < |longer| ensures (longer[i - 1], longer[i]) in env.live {
      if i < |path| {
        assert longer[i - 1] == path[i - 1] && longer[i] == path[i];
      }
    }
  }

  lemma RoundScore(n: nat, w: real, factor: real)
    requires n >= 2 && factor > 0.0
    ensures IsWalk(Ring(n, w, factor), Round(n))
    ensures WalkScore(Ring(n, w, factor), Round(n)) == Carried(Ring(n, w, factor), w, n)
  {
    hide Hop, Ring;
    RingSeed(n, w, factor);
    AlongScore(n, w, factor, n);
    RingEdge(n, w, factor, (n, 1));
    ExtendWalk(Ring(n, w, factor), Along(n), 1);
    LastHop(Ring(n, w, factor), Round(n), n);
    assert Round(n)[..n] == Along(n);
  }

  // The walks of at most n hops run along the ring.
  lemma {:induction false} RingWalks(n: nat, w: real, factor: real, path: seq<Id>)
    requires n >= 2 && IsWalk(Ring(n, w, factor), path) && |path| <= n + 1
    ensures path == if |path| <= n then Along(|path|) else Round(n)
  {
    hide Ring;
    var env := Ring(n, w, factor);
    RingSeed(n, w, factor);
    var k := |path| - 1;
    if k == 0 {
      assert path == [1] == Along(1);
    } else {
      WalkPrefix(env, path, k);
      RingWalks(n, w, factor, path[..k]);
      assert path[k - 1] == path[..k][k - 1] == k;
      RingEdge(n, w, factor, (path[k - 1], path[k]));
      assert path == path[..k] + [path[k]];
      assert k < n ==> Along(k) + [k + 1] == Along(k + 1);
    }
  }

  // ----- a score above one -----

  lemma {:induction false} CarriedPositive(env: Env, w: real, k: nat)
    requires env.factor > 0.0 && w > 0.0
    ensures Carried(env, w, k) > 0.0
  {
    hide Hop;
    if k > 0 {
      CarriedPositive(env, w, k - 1);
      HopPositive(env, Carried(env, w, k - 1), w, k);
    }
  }

  // The score depends on the factor alone.
  lemma {:induction false} CarriedSame(env: Env, other: Env, w: real, k: nat)
    requires env.factor > 0.0 && env.factor == other.factor
    ensures Carried(env, w, k) == Carried(other, w, k)
  {
    hide Hop;
    if k > 0 {
      CarriedSame(env, other, w, k - 1);
      HopSame(env, other, Carried(env, w, k - 1), w, k);
    }
  }

  lemma HopSame(env: Env, other: Env, s: real, w: real, k: nat)
    requires env.factor > 0.0 && env.factor == other.factor
    ensures Hop(env, s, w, k) == Hop(other, s, w, k)
  {
  }

  // Once the penalty is down to half the weight every hop doubles the score.
  lemma {:induction false} CarriedDoubles(env: Env, w: real, m: nat, t: nat)
    requires 0.0 < env.factor < 1.0 && w > 0.0 && Pow(env.factor, m) <= w / 2.0
    ensures Carried(env, w, m + t) * Pow(0.5, t) >= Carried(env, w, m)
  {
    hide Hop, Carried;
    HalvesStart();
    if t > 0 {
      CarriedDoubles(env, w, m, t - 1);
      var s := Carried(env, w, m + t - 1);
      CarriedPositive(env, w, m + t - 1);
      CarriedNext(env, w, m + t);
      PowAntitone(env.factor, m, m + t);
      hide Pow;
      DoublingHop(env, s, w, m + t);
      HalveOnce(t);
      PowPositive(0.5, t);
      Doubled(s, Carried(env, w, m + t), Pow(0.5, t - 1), Pow(0.5, t));
    }
  }

  lemma HalvesStart()
    ensures Pow(0.5, 0) == 1.0
  {
  }

  lemma HalveOnce(t: nat)
    requires t > 0
    ensures Pow(0.5, t - 1) == 2.0 * Pow(0.5, t)
  {
  }

  lemma Doubled(s: real, next: real, p: real, q: real)
    requires next >= 2.0 * s && p == 2.0 * q && q > 0.0
    ensures next * q >= s * p
  {
    MulMonotone(2.0 * s, next, q);
    assert 2.0 * s * q == s * p;
  }

  lemma DoublingHop(env: Env, s: real, w: real, depth: nat)
    requires env.factor > 0.0 && s > 0.0 && Pow(env.factor, depth) <= w / 2.0
    ensures Hop(env, s, w, depth) >= 2.0 * s
  {
    hide Hop, Pow;
    var penalty := Pow(env.factor, depth);
    HopClears(env, s, w, depth, penalty);
    MulMonotone(2.0 * penalty, w, s);
    assert 2.0 * s * penalty == s * (2.0 * penalty);
    Scale(2.0 * s, Hop(env, s, w, depth), penalty);
  }

  // A ring long enough for its round to beat the seed's own score.
  lemma LongEnough(w: real, factor: real) returns (n: nat)
    requires w > 0.0 && 0.0 < factor < 1.0
    ensures n >= 2 && Carried(Ring(n, w, factor), w, n) > 1.0
  {
    hide Ring, Carried, Pow;
    var env := Ring(2, w, factor);
    RingSeed(2, w, factor);
    var m := PowBelow(factor, w / 2.0);
    var start := Carried(env, w, m);
    CarriedPositive(env, w, m);
    var t := PowBelow(0.5, start / 2.0);
    CarriedDoubles(env, w, m, t);
    PowPositive(0.5, t);
    Scale(Carried(env, w, m + t), 1.0, Pow(0.5, t));
    OneMoreDoubles(env, w, m, t);
    n := m + t + 2;
    RingSeed(n, w, factor);
    CarriedSame(env, Ring(n, w, factor), w, n);
  }

  lemma OneMoreDoubles(env: Env, w: real, m: nat, t: nat)
    requires 0.0 < env.factor < 1.0 && w > 0.0 && Pow(env.factor, m) <= w / 2.0 && Carried(env, w, m + t) > 1.0
    ensures Carried(env, w, m + t + 2) > 1.0
  {
    hide Hop, Pow;
    PowAntitone(env.factor, m, m + t + 1);
    PowAntitone(env.factor, m, m + t + 2);
    DoublingHop(env, Carried(env, w, m + t), w, m + t + 1);
    DoublingHop(env, Carried(env, w, m + t + 1), w, m + t + 2);
  }

  // ----- what every expansion of the ring leaves -----

  // Were the seed recorded as itself, each node along the ring would be recorded with its walk.
  lemma {:induction false} AlongRecorded(n: nat, w: real, factor: real, visit: map<Id, Visited>, k: nat)
    requires n >= 2 && w > 0.0 && factor > 0.0 && BestWalks(Ring(n, w, factor), visit)
    requires 1 in visit && visit[1].path == [1] && 0 < k <= n
    ensures k in visit && visit[k].path == Along(k) && visit[k].depth == k - 1
    ensures visit[k].score == Carried(Ring(n, w, factor), w, k - 1)
  {
    hide Ring, BestWalks, Carried, Hop;
    var env := Ring(n, w, factor);
    RingSeed(n, w, factor);
    AlongScore(n, w, factor, k);
    if k == 1 {
      assert Along(1) == [1];
      RecordAttained(env, visit, 1);
    } else {
      AlongRecorded(n, w, factor, visit, k - 1);
      RingEdge(n, w, factor, (k - 1, k));
      RecordMatched(env, visit, k - 1, k);
      CarriedPositive(env, w, k - 1);
      CarriedNext(env, w, k - 1);
      RecordAttained(env, visit, k);
      RingWalks(n, w, factor, visit[k].path);
      EndsOfWalks(n, visit[k].path, k);
    }
  }

  lemma CarriedNext(env: Env, w: real, k: nat)
    requires env.factor > 0.0 && k > 0
    ensures Carried(env, w, k) == Hop(env, Carried(env, w, k - 1), w, k)
  {
  }

  // Only the walk of k - 1 hops ends at k, unless k is the seed.
  lemma EndsOfWalks(n: nat, path: seq<Id>, k: nat)
    requires n >= 2 && 0 < |path| <= n + 1 && path == (if |path| <= n then Along(|path|) else Round(n))
    requires path[|path| - 1] == k
    ensures if k == 1 then path == Along(1) || path == Round(n) else path == Along(k)
  {
  }

  lemma RecordAttained(env: Env, visit: map<Id, Visited>, x: Id)
    requires env.factor > 0.0 && BestWalks(env, visit) && x in visit
    ensures Attained(env, x, visit[x]) && IsWalk(env, visit[x].path) && |visit[x].path| == visit[x].depth + 1 <= Depths(env) + 1
    ensures visit[x].path[|visit[x].path| - 1] == x && visit[x].score == WalkScore(env, visit[x].path)
  {
    hide WalkScore, BeatsSeeds, Simple, Closed;
    assert Attained(env, x, visit[x]);
  }

  lemma RecordMatched(env: Env, visit: map<Id, Visited>, x: Id, y: Id)
    requires env.factor > 0.0 && BestWalks(env, visit) && x in visit && visit[x].depth < Depths(env) && (x, y) in env.live
    ensures var c := Hop(env, visit[x].score, env.live[(x, y)], visit[x].depth + 1);
            c > 0.0 ==> y in visit && visit[y].score >= c
  {
    hide WalkScore, BeatsSeeds, Simple, Attained, Hop;
    assert Matched(env, visit, x, y);
  }

  // Whenever the round beats the seed, the recorded path to the seed goes round.
  lemma RoundRecorded(n: nat, w: real, factor: real, visit: map<Id, Visited>)
    requires n >= 2 && w > 0.0 && factor > 0.0 && Carried(Ring(n, w, factor), w, n) > 1.0
    requires BestWalks(Ring(n, w, factor), visit)
    ensures 1 in visit && visit[1].path == Round(n) && !Simple(visit[1].path)
  {
    hide Ring, BestWalks, Carried, Hop, Simple;
    var env := Ring(n, w, factor);
    RingSeed(n, w, factor);
    SeedRecorded(env, visit, 1);
    RecordAttained(env, visit, 1);
    RingWalks(n, w, factor, visit[1].path);
    EndsOfWalks(n, visit[1].path, 1);
    RingEdge(n, w, factor, (n, 1));
    CarriedNext(env, w, n);
    AlongScore(n, w, factor, 1);
    CarriedStart(env, w);
    assert Along(1) == [1];
    if visit[1].path == Along(1) {
      AlongRecorded(n, w, factor, visit, n);
      RecordMatched(env, visit, n, 1);
    }
    RoundNotSimple(n);
  }

  lemma CarriedStart(env: Env, w: real)
    requires env.factor > 0.0
    ensures Carried(env, w, 0) == 1.0
  {
  }

  lemma SeedRecorded(env: Env, visit: map<Id, Visited>, s: Id)
    requires env.factor > 0.0 && BestWalks(env, visit) && s in env.seeds
    ensures s in visit
  {
  }

  lemma RoundNotSimple(n: nat)
    requires n >= 2
    ensures !Simple(Round(n))
  {
    assert Round(n)[0] == Round(n)[n];
  }
}
