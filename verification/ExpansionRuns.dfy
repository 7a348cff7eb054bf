// The expansion as a state machine, edge order left open: every run keeps the invariant, and every graph has a run
// that comes to an end.
module ExpansionRuns {
  import opened RealPower
  import opened MemoryGraph
  import opened Expansion

  // A moment of the two loops: the log, how much of it was popped, the visit table, the edges listed for the last
  // popped entry, and how many of them were relaxed.
  datatype Moment = Moment(log: seq<Frontier>, head: nat, visit: map<Id, Visited>, out: seq<(Id, Id)>, i: nat)

  // The seeds queued in any order.
  ghost predicate Starts(env: Env, s: Moment) {
    exists seeds :: QueuesAll(env, seeds) && s == Moment(SeedLog(env, seeds), 0, SeedTable(env, seeds), [], 0)
  }

  ghost predicate QueuesAll(env: Env, seeds: seq<Id>) {
    forall s :: s in env.seeds <==> s in seeds
  }

  // The edges of an entry in any order, live or not; none at full depth.
  ghost predicate Lists(env: Env, f: Frontier, out: seq<(Id, Id)>) {
    if f.depth >= Depths(env) then out == []
    else (forall p :: p in out ==> p.0 == f.node) && (forall p :: p in env.live && p.0 == f.node ==> p in out)
  }

  // One edge relaxed: its offer is taken or refused.
  function Relaxed(env: Env, s: Moment): Moment
    requires env.factor > 0.0 && 0 < s.head <= |s.log| && s.i < |s.out|
  {
    var f, x := s.log[s.head - 1], s.out[s.i].1;
    if (f.node, x) in env.live && Taken(s.visit, Offer(env, f, x))
    then s.(log := s.log + [Offer(env, f, x)], visit := s.visit[x := Record(Offer(env, f, x))], i := s.i + 1)
    else s.(i := s.i + 1)
  }

  // Relaxes the next listed edge, or pops the next entry and lists its edges.
  ghost predicate Moves(env: Env, s: Moment, t: Moment) {
    if s.i < |s.out| then env.factor > 0.0 && 0 < s.head <= |s.log| && t == Relaxed(env, s)
    else s.head < |s.log| && Lists(env, s.log[s.head], t.out) && t == Moment(s.log, s.head + 1, s.visit, t.out, 0)
  }

  ghost predicate IsRun(env: Env, run: seq<Moment>) {
    0 < |run| && Starts(env, run[0]) && forall k :: 0 < k < |run| ==> Moves(env, run[k - 1], run[k])
  }

  ghost predicate Reachable(env: Env, s: Moment) {
    exists run: seq<Moment> :: IsRun(env, run) && run[|run| - 1] == s
  }

  lemma ReachableStart(env: Env, s: Moment)
    requires Starts(env, s)
    ensures Reachable(env, s)
  {
    assert IsRun(env, [s]);
  }

  lemma ReachableNext(env: Env, s: Moment, t: Moment)
    requires Reachable(env, s) && Moves(env, s, t)
    ensures Reachable(env, t)
  {
    hide Starts, Moves;
    var run: seq<Moment> :| IsRun(env, run) && run[|run| - 1] == s;
    assert IsRun(env, run + [t]);
  }

  // A moment between two entries.
  ghost predicate BetweenEntries(env: Env, log: seq<Frontier>, head: nat, visit: map<Id, Visited>) {
    exists out :: Reachable(env, Moment(log, head, visit, out, |out|))
  }

  lemma StartBetween(env: Env, seeds: seq<Id>)
    requires QueuesAll(env, seeds)
    ensures BetweenEntries(env, SeedLog(env, seeds), 0, SeedTable(env, seeds))
  {
    hide Reachable;
    var s := Moment(SeedLog(env, seeds), 0, SeedTable(env, seeds), [], 0);
    ReachableStart(env, s);
    assert s == Moment(s.log, 0, s.visit, s.out, |s.out|);
  }

  // Some run ends with this visit table.
  ghost predicate Leaves(env: Env, visit: map<Id, Visited>) {
    exists log :: BetweenEntries(env, log, |log|, visit)
  }

  // ----- what every run keeps -----

  ghost predicate Sound(env: Env, s: Moment) {
    && env.factor > 0.0 && s.head <= |s.log| && s.i <= |s.out|
    && Exploring(env, s.log, s.head, s.visit)
    && if s.i == |s.out| then AllExpanded(env, s.log, s.head)
       else Relaxing(env, s.log, s.head, s.visit, s.out, s.i) && Lists(env, s.log[s.head - 1], s.out)
  }

  lemma StartSound(env: Env, s: Moment)
    requires ValidEnv(env) && Starts(env, s)
    ensures Sound(env, s)
  {
    hide Exploring;
    var seeds :| QueuesAll(env, seeds) && s == Moment(SeedLog(env, seeds), 0, SeedTable(env, seeds), [], 0);
    Start(env, seeds);
  }

  // Some of the listed edges of the last popped entry have been relaxed, or all.
  lemma ListSound(env: Env, s: Moment)
    requires 0 < s.head <= |s.log| && Relaxing(env, s.log, s.head, s.visit, s.out, s.i) && Lists(env, s.log[s.head - 1], s.out)
    ensures Sound(env, s)
  {
    hide Exploring, AllExpanded, Settled;
    if s.i == |s.out| {
      RelaxDone(env, s.log, s.head, s.visit, s.out);
    }
  }

  lemma RelaxedSound(env: Env, s: Moment)
    requires Sound(env, s) && s.i < |s.out|
    ensures 0 < s.head && Sound(env, Relaxed(env, s))
  {
    hide Sound, Relaxed, Relaxing, Lists;
    RelaxedKeeps(env, s);
    ListSound(env, Relaxed(env, s));
  }

  lemma RelaxedKeeps(env: Env, s: Moment)
    requires Sound(env, s) && s.i < |s.out|
    ensures env.factor > 0.0 && 0 < s.head <= |s.log|
    ensures var t := Relaxed(env, s);
            && t.head == s.head <= |t.log| && t.out == s.out && t.i == s.i + 1
            && Relaxing(env, t.log, t.head, t.visit, t.out, t.i) && Lists(env, t.log[t.head - 1], t.out)
  {
    hide Exploring, AllExpanded, Settled, Taken;
    var f, x := s.log[s.head - 1], s.out[s.i].1;
    assert s.out[s.i] == (f.node, x);
    if (f.node, x) in env.live && Taken(s.visit, Offer(env, f, x)) {
      RelaxTaken(env, s.log, s.head, s.visit, s.out, s.i);
    } else {
      RelaxRefused(env, s.log, s.head, s.visit, s.out, s.i);
    }
  }

  lemma PoppedSound(env: Env, s: Moment, t: Moment)
    requires SeedsNonNegative(env) && Sound(env, s) && s.i == |s.out| && Moves(env, s, t)
    ensures Sound(env, t)
  {
    hide Exploring, AllExpanded;
    Pop(env, s.log, s.head, s.visit);
    if s.log[s.head].depth >= Depths(env) {
      FullDepthExpanded(env, s.log, s.head);
    } else {
      RelaxStart(env, t.log, t.head, t.visit, t.out);
      ListSound(env, t);
    }
  }

  // Whatever the order of the seeds and of the edges, every moment of every run is sound.
  lemma {:induction false} RunSound(env: Env, run: seq<Moment>)
    requires ValidEnv(env) && SeedsNonNegative(env) && IsRun(env, run)
    ensures Sound(env, run[|run| - 1])
  {
    hide Sound, Starts, Moves;
    var n := |run| - 1;
    if n == 0 {
      StartSound(env, run[0]);
    } else {
      RunSound(env, run[..n]);
      MoveSound(env, run[n - 1], run[n]);
    }
  }

  lemma MoveSound(env: Env, s: Moment, t: Moment)
    requires SeedsNonNegative(env) && Sound(env, s) && Moves(env, s, t)
    ensures Sound(env, t)
  {
    if s.i < |s.out| {
      hide Exploring, AllExpanded, Relaxing, Lists, Relaxed;
      RelaxedSound(env, s);
    } else {
      hide Exploring, AllExpanded, Relaxing, Lists, Relaxed;
      PoppedSound(env, s, t);
    }
  }

  lemma ReachableSound(env: Env, s: Moment)
    requires ValidEnv(env) && SeedsNonNegative(env) && Reachable(env, s)
    ensures Sound(env, s)
  {
    hide Sound, Starts, Moves;
    var run: seq<Moment> :| IsRun(env, run) && run[|run| - 1] == s;
    RunSound(env, run);
  }

  // The table every run ends with holds the best walks.
  lemma LeavesBestWalks(env: Env, visit: map<Id, Visited>)
    requires ValidEnv(env) && SeedsNonNegative(env) && Leaves(env, visit)
    ensures BestWalks(env, visit)
  {
    hide Exploring, AllExpanded, BestWalks, IsRun;
    var log :| BetweenEntries(env, log, |log|, visit);
    var out :| Reachable(env, Moment(log, |log|, visit, out, |out|));
    ReachableSound(env, Moment(log, |log|, visit, out, |out|));
    QueueEmpty(env, log, visit);
  }

  // ----- every expansion has an end -----

  lemma {:induction false} Listing<T>(all: set<T>) returns (s: seq<T>)
    ensures |s| == |all| && forall x :: x in all <==> x in s
    decreases |all|
  {
    if all == {} {
      s := [];
    } else {
      var x :| x in all;
      var rest := Listing(all - {x});
      s := rest + [x];
    }
  }

  lemma OutEdges(env: Env, f: Frontier) returns (out: seq<(Id, Id)>)
    ensures Lists(env, f, out) && |out| <= |env.live|
  {
    if f.depth >= Depths(env) {
      out := [];
    } else {
      var from := set p: (Id, Id) | p in env.live && p.0 == f.node;
      out := Listing(from);
      Fewer(from, env.live.Keys);
      assert |env.live| == |env.live.Keys|;
    }
  }

  lemma Fewer<T>(a: set<T>, b: set<T>)
    requires a <= b
    ensures |a| <= |b|
  {
    assert b == a + (b - a);
  }

  // What a listed edge of the last popped entry may still cost.
  function Child(env: Env, branch: nat, s: Moment): nat
    requires s.head <= |s.log|
  {
    if s.head == 0 || s.log[s.head - 1].depth >= Depths(env) then 0
    else PowN(branch, Depths(env) - s.log[s.head - 1].depth - 1)
  }

  function Left(env: Env, branch: nat, s: Moment): nat
    requires s.head <= |s.log| && s.i <= |s.out|
  {
    Work(env, branch, s.log[s.head..]) + (|s.out| - s.i) * Child(env, branch, s)
  }

  lemma RelaxedPays(env: Env, branch: nat, s: Moment)
    requires Sound(env, s) && s.i < |s.out|
    ensures 0 < s.head && s.i + 1 <= |s.out|
    ensures var t := Relaxed(env, s);
            t.head <= |t.log| && t.out == s.out && t.i == s.i + 1 && Left(env, branch, t) <= Left(env, branch, s)
  {
    hide Exploring, AllExpanded, Settled, Taken, Work, PowN;
    var f, x, t := s.log[s.head - 1], s.out[s.i].1, Relaxed(env, s);
    var child := Child(env, branch, s);
    OneLess(|s.out| - s.i, child);
    if (f.node, x) in env.live && Taken(s.visit, Offer(env, f, x)) {
      OfferWork(env, branch, s.log[s.head..], f, x);
      assert t.log[t.head..] == s.log[s.head..] + [Offer(env, f, x)];
    }
  }

  lemma OneLess(n: int, c: nat)
    ensures n * c == (n - 1) * c + c
  {
  }

  lemma PoppedPays(env: Env, branch: nat, s: Moment, t: Moment)
    requires Sound(env, s) && s.i == |s.out| && Moves(env, s, t) && |t.out| < branch
    ensures t.head <= |t.log| && Left(env, branch, t) < Left(env, branch, s)
  {
    hide Exploring, AllExpanded, PowN;
    var f := s.log[s.head];
    assert s.log[s.head..][0] == f && s.log[s.head..][1..] == t.log[t.head..];
    if f.depth < Depths(env) {
      PopPays(env, branch, f, |t.out|, Child(env, branch, t));
    }
  }

  // From every reachable moment there is a way to an end.
  lemma {:induction false} Finish(env: Env, branch: nat, s: Moment) returns (visit: map<Id, Visited>)
    requires ValidEnv(env) && SeedsNonNegative(env) && |env.live| < branch && Reachable(env, s) && Sound(env, s)
    ensures Leaves(env, visit)
    decreases Left(env, branch, s), |s.out| - s.i
  {
    hide Exploring, AllExpanded, Relaxing, Lists, Relaxed, Reachable, Left;
    if s.i < |s.out| {
      RelaxedSound(env, s);
      RelaxedPays(env, branch, s);
      ReachableNext(env, s, Relaxed(env, s));
      visit := Finish(env, branch, Relaxed(env, s));
    } else if s.head < |s.log| {
      var out := OutEdges(env, s.log[s.head]);
      var t := Moment(s.log, s.head + 1, s.visit, out, 0);
      PoppedSound(env, s, t);
      PoppedPays(env, branch, s, t);
      ReachableNext(env, s, t);
      visit := Finish(env, branch, t);
    } else {
      visit := s.visit;
      assert BetweenEntries(env, s.log, |s.log|, visit);
    }
  }

  // So there is always a table to be left.
  lemma SomeTable(env: Env) returns (visit: map<Id, Visited>)
    requires ValidEnv(env) && SeedsNonNegative(env)
    ensures Leaves(env, visit) && BestWalks(env, visit)
  {
    hide BestWalks, Sound, Moves;
    var seeds := Listing(env.seeds.Keys);
    assert QueuesAll(env, seeds);
    var s := Moment(SeedLog(env, seeds), 0, SeedTable(env, seeds), [], 0);
    StartSound(env, s);
    ReachableStart(env, s);
    visit := Finish(env, |env.live| + 1, s);
    LeavesBestWalks(env, visit);
  }
}
