// Writing a message and forgetting it at once, through the service's own operations.
module RoundTrip {
  import opened Wrappers
  import opened Chunker
  import opened MemoryGraph
  import opened Neo4jStore
  import opened Dynamics
  import opened Runs
  import opened WriteForget
  import opened History
  import opened MemoryService
  import opened WritePath
  import opened Forgetting

  // How many distinct pairs a refused write has linked: none.
  lemma AbortPairs(g: Graph, w: Writing)
    requires Fresh(g, w) && WellFormed(g)
    ensures |PairsTouching(Abort(g, w).edges, NodesOf(Abort(g, w), {w.msgId}))| == 0
  {
    hide Abort;
    AbortShape(g, w);
    EraseUndoesAbort(g, w);
    assert PairsTouching(Abort(g, w).edges, NodesOf(Abort(g, w), {w.msgId})) == {};
  }

  // A message has as many nodes as the write drew identifiers.
  lemma {:induction false} CountIds(ids: seq<Id>, all: set<Id>)
    requires forall i, j :: 0 <= i < j < |ids| ==> ids[i] != ids[j]
    requires forall id :: id in all <==> id in ids
    ensures |all| == |ids|
  {
    if ids == [] {
      assert all == {};
    } else {
      var n := |ids| - 1;
      assert ids == ids[..n] + [ids[n]];
      CountIds(ids[..n], all - {ids[n]});
    }
  }

  lemma ForgetAfterWrite(cfg: Config, g: Graph, w: Writing)
    requires Fresh(g, w) && WellFormed(g)
    ensures var h := Ingest(cfg, g, w);
            var nodes := NodesOf(h, {w.msgId});
            && Erase(h, {w.msgId}) == g && |nodes| == |w.ids|
            && |PairsTouching(h.edges, nodes)| == |w.ids| - 1 + |w.recent|
  {
    hide Ingest, WellFormed, PairsTouching;
    EraseUndoesIngest(cfg, g, w);
    IngestPairs(cfg, g, w);
    CountIds(w.ids, NodesOf(Ingest(cfg, g, w), {w.msgId}));
  }

  lemma ForgetAfterAbort(g: Graph, w: Writing)
    requires Fresh(g, w) && WellFormed(g)
    ensures var h := Abort(g, w);
            var nodes := NodesOf(h, {w.msgId});
            Erase(h, {w.msgId}) == g && |nodes| == |w.ids| && |PairsTouching(h.edges, nodes)| == 0
  {
    hide Abort, WellFormed, PairsTouching;
    EraseUndoesAbort(g, w);
    AbortPairs(g, w);
    CountIds(w.ids, NodesOf(Abort(g, w), {w.msgId}));
  }

  // Forgetting what was just written brings back the graph exactly: nodes, edges, messages and vectors,
  // and with them the counters.
  method WriteThenForget(svc: Service, req: WriteRequest, embedded: Option<seq<Vec>>, now: int)
    returns (gone: Option<ForgetResult>, ghost chunks: seq<Chunk>, ghost w: Option<Writing>)
    requires svc.Ready(now)
    modifies svc`journal, svc.store, svc.source
    ensures svc.Ready(now)
    ensures TrimSpace(req.message) != "" ==>
              AllWindows(Split(TrimSpace(req.message), 0), ClampWindow(svc.cfg.chunkWindowSize),
                         ClampStride(svc.cfg.chunkWindowSize, svc.cfg.chunkStride), chunks)
    ensures w.None? <==> TrimSpace(req.message) == "" || embedded.None? || |embedded.value| != |chunks|
    ensures gone.Some? <==> w.Some? && forall i :: 0 <= i < |embedded.value| ==> |embedded.value[i]| == svc.store.dim
    ensures w.Some? ==>
              var m := Message(req.message, req.metadata, now);
              if gone.Some?
              then Writes(svc.cfg, old(svc.store.View()), old(svc.source.last), m, chunks, embedded.value, now, w.value)
              else Refused(old(svc.store.View()), svc.store.dim, old(svc.source.last), m, chunks, embedded.value, now, w.value)
    ensures svc.store.View() == if gone.Some? || w.None? then old(svc.store.View()) else Abort(old(svc.store.View()), w.value)
    ensures svc.journal == old(svc.journal)
                           + (if w.None? then [] else if gone.Some? then [WriteStep(w.value), ForgetStep({w.value.msgId}, now)]
                              else [AbortStep(w.value)])
    ensures gone.Some? ==>
              && gone.value.deletedNodes == gone.value.deletedVectors == |chunks|
              && gone.value.deletedEdges == |chunks| - 1 + |w.value.recent|
  {
    hide SoundDb, DriftOf, Possible, State, WellFormed, Abort, Ingest, Issued, AllWindows, Split, TrimSpace, Erase,
         NodesOf, PairsTouching;
    ghost var g := svc.store.View();
    svc.Recording(now);
    var written;
    written, chunks, w := Write(svc, req, embedded, now);
    gone := None;
    if written.Failure? {
      return;
    }
    ForgetAfterWrite(svc.cfg, g, w.value);
    var r := Forget(svc, Named(written.value.0), None, now);
    gone := Some(r.value);
  }
}
