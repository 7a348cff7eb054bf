// Whole sessions: the service serving an arbitrary list of requests, and what holds after every one.
module Sessions {
  import opened Wrappers
  import opened Chunker
  import opened MemoryGraph
  import opened Neo4jStore
  import opened Dynamics
  import opened Runs
  import opened History
  import opened Expansion
  import opened MemoryService
  import opened RecallPipeline
  import opened WritePath
  import opened Forgetting
  import opened Reinforcement
  import opened Statistics

  // A request with what the embedder and the vector search answer to it.
  datatype Call =
    | WriteCall(write: WriteRequest, embedded: Option<seq<Vec>>)
    | RecallCall(recall: RecallRequest, embedded: Option<seq<Vec>>, hits: seq<Hit>)
    | ForgetCall(messageId: IdText, before: Option<int>)
    | StatsCall
    | ReinforceCall(nodeId: IdText)
    | DemoteCall(nodeId: IdText)
    | MarkCall(since: Option<int>, strength: real)

  datatype Request = Request(call: Call, at: int)

  datatype Reply =
    | WriteReply(written: Result<(Id, seq<Id>), ServiceError>)
    | RecallReply(recalled: Result<seq<RecallHit>, ServiceError>)
    | ForgetReply(forgotten: Result<ForgetResult, ServiceError>)
    | StatsReply(stats: StatsResult)
    | BumpReply(bumped: Result<BumpResult, ServiceError>)
    | MarkReply(marked: Result<MarkResult, ServiceError>)

  // The clock never runs backwards, and a search returns no node twice.
  ghost predicate Timely(reqs: seq<Request>) {
    && (forall i, j :: 0 <= i < j < |reqs| ==> reqs[i].at <= reqs[j].at)
    && (forall i :: 0 <= i < |reqs| && reqs[i].call.RecallCall? ==> DistinctHits(reqs[i].call.hits))
  }

  // ----- what serving a request means -----

  // What stays the same over a session: the configuration, the vector length and the two score powers.
  datatype Setting = Setting(cfg: Config, dim: nat, simPow: real -> real, weightPow: real -> real)

  // One request as it was served: the last identifier issued and the graph before it, the graph after it, its steps
  // and its reply.
  datatype Served = Served(last: Id, before: Graph, after: Graph, steps: seq<Step>, reply: Reply)

  ghost predicate Idle(s: Served) {
    s.steps == [] && s.after == s.before
  }

  ghost predicate Stores(env: Setting, m: Message, chunks: seq<Chunk>, vecs: seq<Vec>, now: int, s: Served, w: Writing) {
    if forall i :: 0 <= i < |vecs| ==> |vecs[i]| == env.dim
    then && Writes(env.cfg, s.before, s.last, m, chunks, vecs, now, w)
         && s.after == Ingest(env.cfg, s.before, w) && s.steps == [WriteStep(w)]
         && s.reply == WriteReply(Success((w.msgId, w.ids)))
    else && Refused(s.before, env.dim, s.last, m, chunks, vecs, now, w)
         && s.after == Abort(s.before, w) && s.steps == [AbortStep(w)]
         && s.reply == WriteReply(Failure(Storage(InvalidVector)))
  }

  ghost predicate HandlesWrite(env: Setting, req: WriteRequest, embedded: Option<seq<Vec>>, now: int, s: Served) {
    if TrimSpace(req.message) == "" then Idle(s) && s.reply == WriteReply(Failure(BadRequest))
    else if embedded.None? then Idle(s) && s.reply == WriteReply(Failure(EmbedderFailed))
    else exists chunks ::
      && AllWindows(Split(TrimSpace(req.message), 0), ClampWindow(env.cfg.chunkWindowSize),
                    ClampStride(env.cfg.chunkWindowSize, env.cfg.chunkStride), chunks)
      && if |embedded.value| != |chunks| then Idle(s) && s.reply == WriteReply(Failure(EmbedderMismatch))
         else exists w :: Stores(env, Message(req.message, req.metadata, now), chunks, embedded.value, now, s, w)
  }

  ghost predicate HandlesRecall(env: Setting, req: RecallRequest, embedded: Option<seq<Vec>>, hits: seq<Hit>, now: int, s: Served) {
    if TrimSpace(req.query) == "" then Idle(s) && s.reply == RecallReply(Failure(BadRequest))
    else if embedded.None? then Idle(s) && s.reply == RecallReply(Failure(EmbedderFailed))
    else if embedded.value == [] then Idle(s) && s.reply == RecallReply(Failure(EmbedderMismatch))
    else if |embedded.value[0]| != env.dim then Idle(s) && s.reply == RecallReply(Failure(Storage(InvalidVector)))
    else if PresentHits(s.before, hits) == [] then s.steps == TouchSteps(env.cfg, hits, now) && s.reply == RecallReply(Success([]))
    else && s.reply.RecallReply? && s.reply.recalled.Success?
         && exists t :: && ScoredBy(t, env.simPow, env.weightPow) && s.steps == StepsOf(env.cfg, hits, now, t)
                        && Answers(env.cfg, s.before, s.after, hits, EffectiveK(env.cfg, req.k),
                                   EffectiveHops(env.cfg, req.hops), now, t, s.reply.recalled.value)
                        && BestFirst(t.env, t.visit, s.after.nodes, env.weightPow, EffectiveK(env.cfg, req.k), s.reply.recalled.value)
  }

  ghost predicate HandlesForget(messageId: IdText, before: Option<int>, now: int, s: Served) {
    if !messageId.Named? && before.None? then Idle(s) && s.reply == ForgetReply(Failure(BadRequest))
    else
      var msgs := Targets(s.before, messageId, if before.Some? then before.value else 0);
      var nodes := NodesOf(s.before, msgs);
      && s.steps == [ForgetStep(msgs, now)] && s.after == Erase(s.before, msgs)
      && s.reply == ForgetReply(Success(ForgetResult(|nodes|, |nodes|, |PairsTouching(s.before.edges, nodes)|)))
  }

  ghost predicate HandlesBump(env: Setting, nodeId: IdText, delta: real, now: int, s: Served) {
    if !nodeId.Named? then Idle(s) && s.reply == BumpReply(Failure(BadRequest))
    else
      && s.steps == [NodeStep(nodeId.id, Bump(delta, now))] && s.reply.BumpReply?
      && BumpedOne(env.cfg, s.before, s.after, nodeId.id, delta, now, s.reply.bumped)
  }

  ghost predicate HandlesMark(env: Setting, since: Option<int>, strength: real, now: int, s: Served) {
    if strength <= 0.0 || since.None? || since.value >= now then Idle(s) && s.reply == MarkReply(Failure(BadRequest))
    else exists ids ::
      && NewestFirst(s.before.nodes, since.value, NoId, MarkLimit(env.cfg), ids)
      && (forall i :: 0 <= i < |ids| ==> ids[i] in s.before.nodes)
      && MarkedByLaw(env.cfg, s.before, s.after, ids, strength, since.value, now)
      && s.steps == MarkSteps(env.cfg, s.before, ids, strength, since.value, now)
      && s.reply == MarkReply(Success(MarkResult(|Bumped(env.cfg, s.before, ids, since.value, now, true)|,
                                                 |Bumped(env.cfg, s.before, ids, since.value, now, false)|)))
  }

  // The steps lead from the graph before to the graph after, and they, that graph and the reply are what the call
  // stands for.
  ghost predicate Handles(env: Setting, req: Request, s: Served) {
    && Possible(env.cfg, s.before, s.steps) && s.after == State(env.cfg, s.before, s.steps)
    && match req.call
       case WriteCall(write, embedded) => HandlesWrite(env, write, embedded, req.at, s)
       case RecallCall(recall, embedded, hits) => HandlesRecall(env, recall, embedded, hits, req.at, s)
       case ForgetCall(id, before) => HandlesForget(id, before, req.at, s)
       case StatsCall => Idle(s) && s.reply.StatsReply? && Summarizes([s.before], s.reply.stats)
       case ReinforceCall(id) => HandlesBump(env, id, env.cfg.nodeDelta, req.at, s)
       case DemoteCall(id) => HandlesBump(env, id, -env.cfg.nodeDelta, req.at, s)
       case MarkCall(since, strength) => HandlesMark(env, since, strength, req.at, s)
  }

  // ----- serving -----

  method ServeWrite(svc: Service, req: WriteRequest, embedded: Option<seq<Vec>>, ghost env: Setting, now: int)
    returns (reply: Reply, ghost s: Served)
    requires svc.Ready(now) && env.cfg == svc.cfg && env.dim == svc.store.dim
    modifies svc`journal, svc.store, svc.source
    ensures svc.Ready(now) && svc.journal == old(svc.journal) + s.steps
    ensures s == Served(old(svc.source.last), old(svc.store.View()), svc.store.View(), s.steps, reply)
    ensures HandlesWrite(env, req, embedded, now, s)
  {
    hide SoundDb, DriftOf, Possible, State, WellFormed, Abort, Ingest, Writes, Refused, AllWindows, Split, TrimSpace, Issued;
    ghost var last, g, start := svc.source.last, svc.store.View(), svc.journal;
    var r;
    ghost var chunks, w;
    r, chunks, w := Write(svc, req, embedded, now);
    reply := WriteReply(r);
    s := Served(last, g, svc.store.View(), svc.journal[|start|..], reply);
    if w.Some? {
      assert Stores(env, Message(req.message, req.metadata, now), chunks, embedded.value, now, s, w.value);
    }
  }

  method ServeRecall(svc: Service, req: RecallRequest, embedded: Option<seq<Vec>>, hits: seq<Hit>, simPow: real -> real,
                     weightPow: real -> real, ghost env: Setting, now: int)
    returns (reply: Reply, ghost s: Served)
    requires svc.Ready(now) && env == Setting(svc.cfg, svc.store.dim, simPow, weightPow) && DistinctHits(hits)
    requires forall x :: x >= 0.0 ==> simPow(x) >= 0.0 && weightPow(x) >= 0.0
    modifies svc`journal, svc.store
    ensures svc.Ready(now) && svc.journal == old(svc.journal) + s.steps
    ensures s == Served(svc.source.last, old(svc.store.View()), svc.store.View(), s.steps, reply)
    ensures HandlesRecall(env, req, embedded, hits, now, s)
  {
    hide *;
    ghost var g, start := svc.store.View(), svc.journal;
    var r;
    ghost var t;
    r, t := Recall(svc, req, embedded, hits, simPow, weightPow, now);
    reply := RecallReply(r);
    s := Served(svc.source.last, g, svc.store.View(), svc.journal[|start|..], reply);
    RecallHandled(env, req, embedded, hits, now, s, t);
  }

  lemma RecallHandled(env: Setting, req: RecallRequest, embedded: Option<seq<Vec>>, hits: seq<Hit>, now: int, s: Served,
                      t: Option<Trace>)
    requires s.reply.RecallReply?
    requires s.reply.recalled.Success? <==> TrimSpace(req.query) != "" && embedded.Some? && embedded.value != []
                                            && |embedded.value[0]| == env.dim
    requires s.reply.recalled.Failure? ==>
               && t.None? && s.after == s.before && s.steps == []
               && s.reply.recalled.error == if TrimSpace(req.query) == "" then BadRequest
                                            else if embedded.None? then EmbedderFailed
                                            else if embedded.value == [] then EmbedderMismatch else Storage(InvalidVector)
    requires t.None? && s.reply.recalled.Success? ==>
               && s.reply.recalled.value == [] && Candidates(env.cfg, s.before, hits, now, [])
               && s.steps == TouchSteps(env.cfg, hits, now)
    requires t.Some? ==>
               && s.reply.recalled.Success? && t.value.cands != [] && ScoredBy(t.value, env.simPow, env.weightPow)
               && s.steps == StepsOf(env.cfg, hits, now, t.value)
               && Answers(env.cfg, s.before, s.after, hits, EffectiveK(env.cfg, req.k), EffectiveHops(env.cfg, req.hops), now,
                          t.value, s.reply.recalled.value)
               && BestFirst(t.value.env, t.value.visit, s.after.nodes, env.weightPow, EffectiveK(env.cfg, req.k), s.reply.recalled.value)
    ensures HandlesRecall(env, req, embedded, hits, now, s)
  {
    hide TrimSpace, TouchSteps, StepsOf, ScoredBy, Describes, HitsTouched, IsCandidate, AreSeeds, EdgesOnly, LiveWeights,
         SeedScores, ValidEnv, SeedsNonNegative, BestWalks, SameButPruned, IsTopRanking, PresentHits, EffectiveK, EffectiveHops, BestFirst;
  }

  method ServeForget(svc: Service, id: IdText, before: Option<int>, now: int) returns (reply: Reply, ghost s: Served)
    requires svc.Ready(now)
    modifies svc`journal, svc.store
    ensures svc.Ready(now) && svc.journal == old(svc.journal) + s.steps
    ensures s == Served(svc.source.last, old(svc.store.View()), svc.store.View(), s.steps, reply)
    ensures HandlesForget(id, before, now, s)
  {
    hide SoundDb, DriftOf, Possible, State, WellFormed, Issued, Erase, NodesOf, PairsTouching, Targets;
    ghost var g, start := svc.store.View(), svc.journal;
    var r := Forget(svc, id, before, now);
    reply := ForgetReply(r);
    s := Served(svc.source.last, g, svc.store.View(), svc.journal[|start|..], reply);
  }

  method ServeBump(svc: Service, id: IdText, up: bool, ghost env: Setting, now: int) returns (reply: Reply, ghost s: Served)
    requires svc.Ready(now) && env.cfg == svc.cfg
    modifies svc`journal, svc.store
    ensures svc.Ready(now) && svc.journal == old(svc.journal) + s.steps
    ensures s == Served(svc.source.last, old(svc.store.View()), svc.store.View(), s.steps, reply)
    ensures HandlesBump(env, id, if up then env.cfg.nodeDelta else -env.cfg.nodeDelta, now, s)
  {
    hide *;
    ghost var g, start, delta := svc.store.View(), svc.journal, if up then env.cfg.nodeDelta else -env.cfg.nodeDelta;
    var r;
    if up {
      r := Reinforce(svc, id, now);
    } else {
      r := Demote(svc, id, now);
    }
    reply := BumpReply(r);
    s := Served(svc.source.last, g, svc.store.View(), svc.journal[|start|..], reply);
    BumpHandled(env, id, delta, now, s, r);
  }

  lemma BumpHandled(env: Setting, id: IdText, delta: real, now: int, s: Served, r: Result<BumpResult, ServiceError>)
    requires s.reply == BumpReply(r) && s.steps == if id.Named? then [NodeStep(id.id, Bump(delta, now))] else []
    requires id.Named? ==> BumpedOne(env.cfg, s.before, s.after, id.id, delta, now, r)
    requires !id.Named? ==> r == Failure(BadRequest) && s.after == s.before
    ensures HandlesBump(env, id, delta, now, s)
  {
    hide BumpedOne;
  }

  method ServeMark(svc: Service, since: Option<int>, strength: real, ghost env: Setting, now: int)
    returns (reply: Reply, ghost s: Served)
    requires svc.Ready(now) && env.cfg == svc.cfg
    modifies svc`journal, svc.store
    ensures svc.Ready(now) && svc.journal == old(svc.journal) + s.steps
    ensures s == Served(svc.source.last, old(svc.store.View()), svc.store.View(), s.steps, reply)
    ensures HandlesMark(env, since, strength, now, s)
  {
    hide SoundDb, DriftOf, Possible, State, WellFormed, Issued, NewestFirst, MarkedByLaw, MarkSteps, Bumped;
    ghost var g, start := svc.store.View(), svc.journal;
    var r;
    ghost var ids;
    r, ids := Mark(svc, since, strength, now);
    reply := MarkReply(r);
    s := Served(svc.source.last, g, svc.store.View(), svc.journal[|start|..], reply);
  }

  method ServeStats(svc: Service, now: int) returns (reply: Reply, ghost s: Served)
    requires svc.Ready(now)
    ensures svc.journal == svc.journal + s.steps
    ensures s == Served(svc.source.last, svc.store.View(), svc.store.View(), [], reply)
    ensures reply.StatsReply? && Summarizes([svc.store.View()], reply.stats)
  {
    hide SoundDb, DriftOf, Possible, State, WellFormed, Issued, Summarizes;
    var r := Stats([svc.store]);
    assert Views([]) == [] && Views([svc.store]) == [svc.store.View()];
    reply := StatsReply(r);
    s := Served(svc.source.last, svc.store.View(), svc.store.View(), [], reply);
  }

  method Serve(svc: Service, req: Request, simPow: real -> real, weightPow: real -> real)
    returns (reply: Reply, ghost s: Served)
    requires svc.Ready(req.at) && (req.call.RecallCall? ==> DistinctHits(req.call.hits))
    requires forall x :: x >= 0.0 ==> simPow(x) >= 0.0 && weightPow(x) >= 0.0
    modifies svc`journal, svc.store, svc.source
    ensures svc.Ready(req.at) && svc.journal == old(svc.journal) + s.steps
    ensures s == Served(old(svc.source.last), old(svc.store.View()), svc.store.View(), s.steps, reply)
    ensures Handles(Setting(svc.cfg, svc.store.dim, simPow, weightPow), req, s)
  {
    hide *;
    ghost var env := Setting(svc.cfg, svc.store.dim, simPow, weightPow);
    ghost var start := svc.journal;
    Standing(svc, req.at);
    match req.call {
      case WriteCall(write, embedded) => reply, s := ServeWrite(svc, write, embedded, env, req.at);
      case RecallCall(recall, embedded, hits) =>
        reply, s := ServeRecall(svc, recall, embedded, hits, simPow, weightPow, env, req.at);
      case ForgetCall(id, before) => reply, s := ServeForget(svc, id, before, req.at);
      case StatsCall => reply, s := ServeStats(svc, req.at);
      case ReinforceCall(id) => reply, s := ServeBump(svc, id, true, env, req.at);
      case DemoteCall(id) => reply, s := ServeBump(svc, id, false, env, req.at);
      case MarkCall(since, strength) => reply, s := ServeMark(svc, since, strength, env, req.at);
    }
    Standing(svc, req.at);
    Resume(svc.cfg, svc.origin, start, s.steps);
    IsHandled(env, req, s);
  }

  // The journal leads to the stored graph.
  lemma Standing(svc: Service, now: int)
    requires svc.Ready(now)
    ensures Possible(svc.cfg, svc.origin, svc.journal) && State(svc.cfg, svc.origin, svc.journal) == svc.store.View()
  {
  }

  lemma IsHandled(env: Setting, req: Request, s: Served)
    requires Possible(env.cfg, s.before, s.steps) && s.after == State(env.cfg, s.before, s.steps)
    requires match req.call
             case WriteCall(write, embedded) => HandlesWrite(env, write, embedded, req.at, s)
             case RecallCall(recall, embedded, hits) => HandlesRecall(env, recall, embedded, hits, req.at, s)
             case ForgetCall(id, before) => HandlesForget(id, before, req.at, s)
             case StatsCall => s.steps == [] && s.after == s.before && s.reply.StatsReply? && Summarizes([s.before], s.reply.stats)
             case ReinforceCall(id) => HandlesBump(env, id, env.cfg.nodeDelta, req.at, s)
             case DemoteCall(id) => HandlesBump(env, id, -env.cfg.nodeDelta, req.at, s)
             case MarkCall(since, strength) => HandlesMark(env, since, strength, req.at, s)
    ensures Handles(env, req, s)
  {
    hide HandlesWrite, HandlesRecall, HandlesForget, HandlesBump, HandlesMark, Summarizes, Possible, State;
  }

  // ----- a session -----

  // The steps of the requests, in order.
  ghost function StepsServed(log: seq<Served>): seq<Step> {
    if log == [] then [] else StepsServed(log[..|log| - 1]) + log[|log| - 1].steps
  }

  // The graph after the first n requests of a session.
  ghost function GraphAt(g: Graph, log: seq<Served>, n: nat): Graph
    requires n <= |log|
  {
    if n == 0 then g else log[n - 1].after
  }

  // One request of a session, served from the graph the one before it left.
  ghost predicate ServedAt(env: Setting, g: Graph, reqs: seq<Request>, log: seq<Served>, replies: seq<Reply>, i: nat)
    requires i < |log| == |reqs| == |replies|
  {
    Handles(env, reqs[i], log[i]) && log[i].before == GraphAt(g, log, i) && log[i].reply == replies[i]
  }

  ghost predicate Serves(env: Setting, g: Graph, reqs: seq<Request>, log: seq<Served>, replies: seq<Reply>) {
    |log| == |reqs| == |replies| && forall i :: 0 <= i < |reqs| ==> ServedAt(env, g, reqs, log, replies, i)
  }

  lemma ServesMore(env: Setting, g: Graph, reqs: seq<Request>, i: nat, log: seq<Served>, replies: seq<Reply>, s: Served)
    requires i < |reqs| && Serves(env, g, reqs[..i], log, replies)
    requires Handles(env, reqs[i], s) && s.before == GraphAt(g, log, i)
    ensures Serves(env, g, reqs[..i + 1], log + [s], replies + [s.reply])
    ensures StepsServed(log + [s]) == StepsServed(log) + s.steps
  {
    hide Handles, ServedAt, StepsServed, GraphAt;
    var served, longer, answers := reqs[..i + 1], log + [s], replies + [s.reply];
    forall j | 0 <= j <= i ensures ServedAt(env, g, served, longer, answers, j) {
      ServedAtMore(env, g, reqs, i, log, replies, s, j);
    }
    StepsMore(log, s);
  }

  lemma ServedAtMore(env: Setting, g: Graph, reqs: seq<Request>, i: nat, log: seq<Served>, replies: seq<Reply>, s: Served, j: nat)
    requires j <= i < |reqs| && |log| == |replies| == i && (j < i ==> ServedAt(env, g, reqs[..i], log, replies, j))
    requires Handles(env, reqs[i], s) && s.before == GraphAt(g, log, i)
    ensures ServedAt(env, g, reqs[..i + 1], log + [s], replies + [s.reply], j)
  {
    hide Handles;
  }

  lemma StepsMore(log: seq<Served>, s: Served)
    ensures StepsServed(log + [s]) == StepsServed(log) + s.steps
  {
    assert (log + [s])[..|log|] == log;
  }

  // Request after request: each one finds the service as the one before left it.
  method ServeAll(svc: Service, reqs: seq<Request>, simPow: real -> real, weightPow: real -> real)
    returns (replies: seq<Reply>, ghost log: seq<Served>)
    requires Timely(reqs) && (if reqs == [] then svc.Valid() else svc.Ready(reqs[0].at))
    requires forall x :: x >= 0.0 ==> simPow(x) >= 0.0 && weightPow(x) >= 0.0
    modifies svc`journal, svc.store, svc.source
    ensures svc.Valid() && (reqs != [] ==> svc.Ready(reqs[|reqs| - 1].at))
    ensures Serves(Setting(svc.cfg, svc.store.dim, simPow, weightPow), old(svc.store.View()), reqs, log, replies)
    ensures svc.journal == old(svc.journal) + StepsServed(log)
    ensures svc.store.View() == GraphAt(old(svc.store.View()), log, |log|)
  {
    hide DistinctHits, Possible, State, WellFormed, SoundDb, DriftOf, Issued, Handles, Serves, StepsServed;
    ghost var env, g, start := Setting(svc.cfg, svc.store.dim, simPow, weightPow), svc.store.View(), svc.journal;
    replies, log := [], [];
    NothingServed(env, g);
    var i := 0;
    while i < |reqs|
      invariant 0 <= i == |log| <= |reqs| && svc.Valid()
      invariant i < |reqs| ==> svc.Ready(reqs[i].at)
      invariant i == |reqs| > 0 ==> svc.Ready(reqs[i - 1].at)
      invariant Serves(env, g, reqs[..i], log, replies) && svc.journal == start + StepsServed(log)
      invariant svc.store.View() == GraphAt(g, log, i)
    {
      var reply;
      ghost var s;
      reply, s := Serve(svc, reqs[i], simPow, weightPow);
      ServesMore(env, g, reqs, i, log, replies, s);
      replies, log := replies + [reply], log + [s];
      i := i + 1;
    }
    assert reqs[..i] == reqs;
  }

  lemma NothingServed(env: Setting, g: Graph)
    ensures Serves(env, g, [], [], []) && StepsServed([]) == []
  {
  }

  // What a service over an origin keeps, whatever it has served.
  ghost predicate Kept(svc: Service)
    reads svc, svc.store
    requires Possible(svc.cfg, svc.origin, svc.journal)
  {
    && WellFormed(svc.store.View())
    && svc.store.Exact()
    && (Disciplined(svc.cfg, svc.origin) && svc.cfg.weightCap > 0.0 && StructuralInRange(svc.cfg) ==>
          Disciplined(svc.cfg, svc.store.View()))
    && (svc.cfg.refractoryPeriod > 0 ==> forall id, start, length: nat :: BumpsBounded(svc.cfg, svc.origin, svc.journal, id, start, length))
  }

  ghost predicate BumpsBounded(cfg: Config, g: Graph, run: seq<Step>, id: Id, start: int, length: nat)
    requires Possible(cfg, g, run) && cfg.refractoryPeriod > 0
  {
    AppliedWithin(cfg, g, run, |run|, id, start, length) <= length / cfg.refractoryPeriod + 1
  }

  lemma ServiceKeeps(svc: Service)
    requires svc.Valid()
    ensures Kept(svc)
  {
    hide Disciplined, WellFormed, SoundDb, DriftOf, Issued, AppliedWithin;
    var cfg, g, run := svc.cfg, svc.origin, svc.journal;
    AlwaysWellFormed(cfg, g, run);
    if Disciplined(cfg, g) && cfg.weightCap > 0.0 && StructuralInRange(cfg) {
      AlwaysDisciplined(cfg, g, run);
    }
    if cfg.refractoryPeriod > 0 {
      forall id, start, length: nat ensures BumpsBounded(cfg, g, run, id, start, length) {
        RefractoryBound(cfg, g, run, id, start, length);
      }
    }
  }

  // From an empty store, any requests whatsoever: each is served in its turn, the journal is the steps of the requests
  // in order, and afterwards there are no loops and no dangling edges, the counters are exact, every edge weight is
  // between floor and cap, and no window has too many applied bumps.
  method SessionFromEmpty(cfg: Config, dim: nat, reqs: seq<Request>, simPow: real -> real, weightPow: real -> real)
    returns (svc: Service, replies: seq<Reply>, ghost log: seq<Served>)
    requires Decaying(cfg) && cfg.depthPenaltyFactor > 0.0 && cfg.defaultK >= 0 && Timely(reqs)
    requires forall x :: x >= 0.0 ==> simPow(x) >= 0.0 && weightPow(x) >= 0.0
    ensures fresh(svc) && svc.Valid() && svc.cfg == cfg && svc.origin == EmptyGraph && Kept(svc)
    ensures cfg.weightCap > 0.0 && StructuralInRange(cfg) ==> Disciplined(cfg, svc.store.View())
    ensures Serves(Setting(cfg, dim, simPow, weightPow), EmptyGraph, reqs, log, replies)
    ensures svc.journal == StepsServed(log) && svc.store.View() == GraphAt(EmptyGraph, log, |log|)
  {
    hide SoundDb, DriftOf, Timely, Kept, Possible, State, WellFormed, Serves, StepsServed;
    var store := new Store(dim);
    var source := new IdSource();
    svc := new Service(cfg, store, source);
    replies, log := ServeAll(svc, reqs, simPow, weightPow);
    ServiceKeeps(svc);
    KeptFromEmpty(svc);
  }

  lemma KeptFromEmpty(svc: Service)
    requires svc.Valid() && Kept(svc) && svc.origin == EmptyGraph
    ensures svc.cfg.weightCap > 0.0 && StructuralInRange(svc.cfg) ==> Disciplined(svc.cfg, svc.store.View())
  {
    hide Possible, State, WellFormed, SoundDb, DriftOf, Issued;
  }
}
