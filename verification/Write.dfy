// Ingesting a message: chunk it, store it, link its chunks.
module WritePath {
  import opened Wrappers
  import opened Chunker
  import opened MemoryGraph
  import opened Neo4jStore
  import opened Dynamics
  import opened Runs
  import opened WriteForget
  import opened History
  import opened MemoryService

  // ----- storing the chunks -----

  // The write as far as its identifiers are known.
  function Draft(msgId: Id, m: Message, ids: seq<Id>, chunks: seq<Chunk>, vecs: seq<Vec>, now: int): Writing
    requires |ids| <= |chunks| == |vecs|
  {
    Writing(msgId, m, ids, chunks[..|ids|], vecs[..|ids|], [], now)
  }

  // Chunks already stored do not depend on identifiers still to come.
  lemma {:induction false} PutChunksPrefix(g: Graph, v: Writing, w: Writing, k: nat)
    requires k <= |v.ids| == |v.chunks| == |v.vecs| && k <= |w.ids| == |w.chunks| == |w.vecs|
    requires v.msgId == w.msgId && v.message == w.message && v.now == w.now
    requires v.ids[..k] == w.ids[..k] && v.chunks[..k] == w.chunks[..k] && v.vecs[..k] == w.vecs[..k]
    ensures PutChunks(g, v, k) == PutChunks(g, w, k)
  {
    if k > 0 {
      assert v.ids[..k - 1] == v.ids[..k][..k - 1] && w.ids[..k - 1] == w.ids[..k][..k - 1];
      assert v.chunks[..k - 1] == v.chunks[..k][..k - 1] && w.chunks[..k - 1] == w.chunks[..k][..k - 1];
      assert v.vecs[..k - 1] == v.vecs[..k][..k - 1] && w.vecs[..k - 1] == w.vecs[..k][..k - 1];
      PutChunksPrefix(g, v, w, k - 1);
      assert v.ids[..k][k - 1] == w.ids[..k][k - 1];
      assert v.chunks[..k][k - 1] == w.chunks[..k][k - 1] && v.vecs[..k][k - 1] == w.vecs[..k][k - 1];
    }
  }

  // New identifiers above everything in use make a write fresh.
  lemma NewIsFresh(g: Graph, last: Id, w: Writing)
    requires Issued(g, last) && w.msgId > last && 0 < |w.ids| == |w.chunks| == |w.vecs|
    requires forall i :: 0 <= i < |w.ids| ==> w.ids[i] > w.msgId
    requires forall i, j :: 0 <= i < j < |w.ids| ==> w.ids[i] < w.ids[j]
    requires forall i :: 0 <= i < |w.recent| ==> w.recent[i] in g.nodes
    requires forall i, j :: 0 <= i < j < |w.recent| ==> w.recent[i] != w.recent[j]
    ensures Fresh(g, w)
  {
  }

  ghost predicate Ascending(msgId: Id, ids: seq<Id>, last: Id) {
    && (forall i :: 0 <= i < |ids| ==> msgId < ids[i] <= last)
    && (forall i, j :: 0 <= i < j < |ids| ==> ids[i] < ids[j])
  }

  method PutChunk(st: Store, id: Id, msgId: Id, c: Chunk, v: Vec, now: int) returns (r: Result<(), StoreError>)
    requires st.Valid() && id != NoId
    modifies st
    ensures st.Valid()
    ensures r == if |v| != st.dim then Failure(InvalidVector) else Success(())
    ensures var n := Node(msgId, c.spanStart, c.spanEnd, c.text, |v|, now, now, 1.0, 0, false);
            var g := old(st.View());
            st.View() == if r.Success? then g.(nodes := g.nodes[id := n], vectors := g.vectors[id := v])
                         else g.(nodes := g.nodes[id := n])
  {
    hide SoundDb, DriftOf;
    var n := Node(msgId, c.spanStart, c.spanEnd, c.text, |v|, now, now, 1.0, 0, false);
    var put := st.PutNode(id, n);
    r := st.InsertVector(id, v);
  }

  // One more chunk of the draft, with or without its vector.
  lemma DraftStep(g: Graph, msgId: Id, m: Message, ids: seq<Id>, id: Id, chunks: seq<Chunk>, vecs: seq<Vec>, now: int)
    requires |ids| < |chunks| == |vecs|
    ensures var k := |ids|;
            var h := PutChunks(g, Draft(msgId, m, ids, chunks, vecs, now), k);
            var w := Draft(msgId, m, ids + [id], chunks, vecs, now);
            var n := Node(msgId, chunks[k].spanStart, chunks[k].spanEnd, chunks[k].text, |vecs[k]|, now, now, 1.0, 0, false);
            && PutChunks(g, w, k + 1) == h.(nodes := h.nodes[id := n], vectors := h.vectors[id := vecs[k]])
            && Abort(g, w) == h.(nodes := h.nodes[id := n])
  {
    var k := |ids|;
    var v, w := Draft(msgId, m, ids, chunks, vecs, now), Draft(msgId, m, ids + [id], chunks, vecs, now);
    assert w.ids[..k] == v.ids[..k] && w.chunks[..k] == v.chunks[..k] && w.vecs[..k] == v.vecs[..k];
    PutChunksPrefix(g, v, w, k);
  }

  // Stores node and vector chunk by chunk, up to the first vector the index refuses.
  method StoreChunks(st: Store, source: IdSource, msgId: Id, ghost m: Message, chunks: seq<Chunk>, vecs: seq<Vec>,
                     now: int, ghost g: Graph)
    returns (r: Result<(), StoreError>, ids: seq<Id>)
    requires st.Valid() && |chunks| == |vecs| && source.last == msgId > NoId
    requires st.View() == g.(messages := g.messages[msgId := m])
    modifies st, source
    ensures st.Valid() && |ids| <= |chunks| && Ascending(msgId, ids, source.last)
    ensures r == if forall i :: 0 <= i < |vecs| ==> |vecs[i]| == st.dim then Success(()) else Failure(InvalidVector)
    ensures r.Success? ==> |ids| == |chunks|
    ensures r.Success? ==> st.View() == PutChunks(g, Draft(msgId, m, ids, chunks, vecs, now), |ids|)
    ensures r.Failure? ==> 0 < |ids| && |vecs[|ids| - 1]| != st.dim && forall i :: 0 <= i < |ids| - 1 ==> |vecs[i]| == st.dim
    ensures r.Failure? ==> st.View() == Abort(g, Draft(msgId, m, ids, chunks, vecs, now))
  {
    hide SoundDb, DriftOf, PutChunks, Abort;
    ids := [];
    NoChunks(g, msgId, m, chunks, vecs, now);
    var i := 0;
    while i < |chunks|
      invariant 0 <= i == |ids| <= |chunks| && st.Valid() && NoId < msgId <= source.last && Ascending(msgId, ids, source.last)
      invariant st.View() == PutChunks(g, Draft(msgId, m, ids, chunks, vecs, now), i)
      invariant forall j :: 0 <= j < i ==> |vecs[j]| == st.dim
    {
      var id := source.New();
      DraftStep(g, msgId, m, ids, id, chunks, vecs, now);
      ids := ids + [id];
      r := PutChunk(st, id, msgId, chunks[i], vecs[i], now);
      if r.Failure? {
        return;
      }
      i := i + 1;
    }
    r := Success(());
  }

  lemma NoChunks(g: Graph, msgId: Id, m: Message, chunks: seq<Chunk>, vecs: seq<Vec>, now: int)
    requires |chunks| == |vecs|
    ensures PutChunks(g, Draft(msgId, m, [], chunks, vecs, now), 0) == g.(messages := g.messages[msgId := m])
  {
  }

  // ----- linking -----

  // Both directions, unless the ends are one node.
  method PutStructuralEdgePair(st: Store, a: Id, b: Id, weight: real, now: int)
    requires st.Valid() && a in st.View().nodes && b in st.View().nodes
    modifies st
    ensures st.Valid() && st.View() == PutPair(old(st.View()), a, b, weight, now)
  {
    hide SoundDb, DriftOf;
    StoredNode(st, a);
    StoredNode(st, b);
    if a == b {
      return;
    }
    var first := st.PutEdge(a, b, StructuralEdge(weight, now));
    var second := st.PutEdge(b, a, StructuralEdge(weight, now));
  }

  method LinkSequence(st: Store, cfg: Config, ids: seq<Id>, now: int)
    requires st.Valid() && 0 < |ids| && (forall i :: 0 <= i < |ids| ==> ids[i] in st.View().nodes)
    modifies st
    ensures st.Valid() && st.View() == LinkChain(cfg, old(st.View()), ids, |ids| - 1, now)
    ensures st.View().nodes == old(st.View()).nodes
  {
    hide SoundDb, DriftOf;
    ghost var g := st.View();
    var i := 0;
    while i + 1 < |ids|
      invariant 0 <= i < |ids| && st.Valid() && st.View() == LinkChain(cfg, g, ids, i, now)
      invariant st.View().nodes == g.nodes
    {
      PutStructuralEdgePair(st, ids[i], ids[i + 1], cfg.edgeStructuralWeight, now);
      i := i + 1;
    }
  }

  method LinkRecents(st: Store, cfg: Config, hub: Id, recent: seq<Id>, now: int)
    requires st.Valid() && hub in st.View().nodes && (forall i :: 0 <= i < |recent| ==> recent[i] in st.View().nodes)
    modifies st
    ensures st.Valid() && st.View() == LinkRecent(cfg, old(st.View()), hub, recent, |recent|, now)
  {
    hide SoundDb, DriftOf;
    ghost var g := st.View();
    var i := 0;
    while i < |recent|
      invariant 0 <= i <= |recent| && st.Valid() && st.View() == LinkRecent(cfg, g, hub, recent, i, now)
      invariant st.View().nodes == g.nodes
    {
      PutStructuralEdgePair(st, hub, recent[i], cfg.edgeStructuralTemporalWeight, now);
      i := i + 1;
    }
  }

  // The recent nodes of other messages are the same before and after the chunks are stored.
  lemma RecentBefore(g: Graph, w: Writing, nodes: map<Id, Node>, since: int, maxN: int, out: seq<Id>)
    requires Fresh(g, w.(recent := []))
    requires (forall id :: id in nodes <==> id in g.nodes || id in w.ids)
    requires (forall id :: id in g.nodes ==> nodes[id] == g.nodes[id])
    requires (forall id :: id in w.ids ==> nodes[id].sourceMsg == w.msgId)
    requires IsRecentList(nodes, since, w.msgId, maxN, out)
    ensures NewestFirst(g.nodes, since, w.msgId, maxN, out)
    ensures forall i :: 0 <= i < |out| ==> out[i] in g.nodes
    ensures forall i, j :: 0 <= i < j < |out| ==> out[i] != out[j]
  {
    forall id ensures IsRecent(nodes, since, w.msgId, id) <==> IsRecent(g.nodes, since, w.msgId, id) {
    }
    forall i | 0 <= i < |out| ensures out[i] in g.nodes {
      assert IsRecent(nodes, since, w.msgId, out[i]);
    }
    forall i, j | 0 <= i < j < |out| ensures out[i] != out[j] && Newer(g.nodes, out[i], out[j]) {
      assert Newer(nodes, out[i], out[j]);
    }
    RecentListIsNewestFirst(g.nodes, since, w.msgId, maxN, out);
  }

  // ----- the whole write -----

  // The newest nodes of other messages in the window, or none when linking to them is switched off.
  ghost predicate RecentOthers(cfg: Config, nodes: map<Id, Node>, msgId: Id, now: int, recent: seq<Id>) {
    if cfg.structuralRecentN > 0 && cfg.structuralRecentDelta > 0
    then NewestFirst(nodes, now - cfg.structuralRecentDelta, msgId, cfg.structuralRecentN, recent)
    else recent == []
  }

  // What a write of these chunks and vectors is, once identifiers and recent nodes are known.
  ghost predicate Writes(cfg: Config, g: Graph, last: Id, m: Message, chunks: seq<Chunk>, vecs: seq<Vec>, now: int, w: Writing) {
    && Fresh(g, w) && w.msgId > last
    && w.message == m && w.now == now && w.chunks == chunks && w.vecs == vecs
    && RecentOthers(cfg, g.nodes, w.msgId, now, w.recent)
  }

  // What it is when the index refuses its last vector, the first of the wrong length.
  ghost predicate Refused(g: Graph, dim: nat, last: Id, m: Message, chunks: seq<Chunk>, vecs: seq<Vec>, now: int, w: Writing) {
    && Fresh(g, w) && w.msgId > last && w.recent == []
    && w.message == m && w.now == now && w.chunks <= chunks && w.vecs <= vecs
    && |w.vecs[|w.vecs| - 1]| != dim && (forall i :: 0 <= i < |w.vecs| - 1 ==> |w.vecs[i]| == dim)
  }

  lemma IssuedAfterWrite(cfg: Config, g: Graph, last: Id, w: Writing, newLast: Id)
    requires WellFormed(g) && Issued(g, last) && Fresh(g, w) && last < w.msgId && Ascending(w.msgId, w.ids, newLast)
    ensures Issued(Ingest(cfg, g, w), newLast)
  {
    hide Ingest;
    IngestExtends(cfg, g, w);
    forall id | id in w.ids ensures w.msgId < id <= newLast {
    }
    assert w.ids[0] > w.msgId;
  }

  lemma IssuedAfterAbort(g: Graph, last: Id, w: Writing, newLast: Id)
    requires WellFormed(g) && Issued(g, last) && Fresh(g, w) && last < w.msgId && Ascending(w.msgId, w.ids, newLast)
    ensures Issued(Abort(g, w), newLast)
  {
    hide Abort;
    AbortShape(g, w);
    assert w.ids[0] > w.msgId;
  }

  // The stored nodes a write finds when it comes to link them.
  lemma StoredChunks(g: Graph, w: Writing, h: Graph)
    requires Fresh(g, w) && h == PutChunks(g, w, |w.ids|)
    ensures (forall id :: id in h.nodes <==> id in g.nodes || id in w.ids)
    ensures (forall id :: id in g.nodes ==> h.nodes[id] == g.nodes[id])
    ensures (forall id :: id in w.ids ==> h.nodes[id].sourceMsg == w.msgId)
  {
    hide PutChunks;
    PutChunksNodes(g, w, |w.ids|);
    forall id ensures Among(w.ids, |w.ids|, id) <==> id in w.ids {
    }
  }

  // The links of a message whose chunks are stored: its chain, and the recent nodes of other messages.
  method LinkMessage(st: Store, cfg: Config, ghost g: Graph, ids: seq<Id>, ghost w: Writing, msgId: Id, now: int)
    returns (recent: seq<Id>)
    requires st.Valid() && WellFormed(g) && Fresh(g, w) && st.View() == PutChunks(g, w, |w.ids|)
    requires w.ids == ids && w.msgId == msgId && w.recent == [] && w.now == now
    modifies st
    ensures st.Valid() && st.View() == Ingest(cfg, g, w.(recent := recent))
    ensures RecentOthers(cfg, g.nodes, w.msgId, now, recent)
    ensures forall i :: 0 <= i < |recent| ==> recent[i] in g.nodes
    ensures forall i, j :: 0 <= i < j < |recent| ==> recent[i] != recent[j]
  {
    hide SoundDb, DriftOf, WellFormed, PutChunks, IsRecentList, NewestFirst, LinkChain, LinkRecent;
    ghost var h := st.View();
    StoredChunks(g, w, h);
    LinkSequence(st, cfg, ids, now);
    recent := [];
    if cfg.structuralRecentN > 0 && cfg.structuralRecentDelta > 0 {
      recent := st.RecentNodeIDs(now - cfg.structuralRecentDelta, msgId, cfg.structuralRecentN);
      assert w.(recent := []) == w;
      RecentBefore(g, w, h.nodes, now - cfg.structuralRecentDelta, cfg.structuralRecentN, recent);
    }
    LinkRecents(st, cfg, ids[0], recent, now);
    PutChunksPrefix(g, w, w.(recent := recent), |ids|);
  }

  lemma DraftIsFresh(g: Graph, last: Id, w: Writing, newLast: Id)
    requires Issued(g, last) && w.msgId > last && 0 < |w.ids| == |w.chunks| == |w.vecs|
    requires Ascending(w.msgId, w.ids, newLast) && w.recent == []
    ensures Fresh(g, w)
  {
    hide Fresh, Issued;
    NewIsFresh(g, last, w);
  }

  lemma DraftRefused(g: Graph, dim: nat, last: Id, m: Message, chunks: seq<Chunk>, vecs: seq<Vec>, now: int, w: Writing)
    requires Fresh(g, w) && w.msgId > last && |w.ids| <= |chunks| == |vecs|
    requires w == Draft(w.msgId, m, w.ids, chunks, vecs, now)
    requires |vecs[|w.ids| - 1]| != dim && forall i :: 0 <= i < |w.ids| - 1 ==> |vecs[i]| == dim
    ensures Refused(g, dim, last, m, chunks, vecs, now, w) && !(forall i :: 0 <= i < |vecs| ==> |vecs[i]| == dim)
  {
  }

  lemma DraftComplete(cfg: Config, g: Graph, last: Id, m: Message, chunks: seq<Chunk>, vecs: seq<Vec>, now: int, w: Writing,
                      recent: seq<Id>, newLast: Id)
    requires Issued(g, last) && w.msgId > last && |w.ids| == |chunks| == |vecs| > 0 && Ascending(w.msgId, w.ids, newLast)
    requires w == Draft(w.msgId, m, w.ids, chunks, vecs, now)
    requires RecentOthers(cfg, g.nodes, w.msgId, now, recent)
    requires forall i :: 0 <= i < |recent| ==> recent[i] in g.nodes
    requires forall i, j :: 0 <= i < j < |recent| ==> recent[i] != recent[j]
    ensures Writes(cfg, g, last, m, chunks, vecs, now, w.(recent := recent)) && Fresh(g, w.(recent := recent))
  {
    hide Fresh, Issued, RecentOthers;
    NewIsFresh(g, last, w.(recent := recent));
  }

  // Message, chunks, vectors and links, or what is left when a vector is refused.
  method Persist(svc: Service, m: Message, chunks: seq<Chunk>, vecs: seq<Vec>, now: int)
    returns (r: Result<(Id, seq<Id>), ServiceError>, ghost w: Writing)
    requires svc.Ready(now) && 0 < |chunks| == |vecs|
    modifies svc`journal, svc.store, svc.source
    ensures svc.Ready(now)
    ensures var g := old(svc.store.View());
            var last := old(svc.source.last);
            if forall i :: 0 <= i < |vecs| ==> |vecs[i]| == svc.store.dim
            then && Writes(svc.cfg, g, last, m, chunks, vecs, now, w)
                 && svc.store.View() == Ingest(svc.cfg, g, w)
                 && svc.journal == old(svc.journal) + [WriteStep(w)]
                 && r == Success((w.msgId, w.ids))
            else && Refused(g, svc.store.dim, last, m, chunks, vecs, now, w)
                 && svc.store.View() == Abort(g, w)
                 && svc.journal == old(svc.journal) + [AbortStep(w)]
                 && r == Failure(Storage(InvalidVector))
  {
    hide SoundDb, DriftOf, Possible, State, WellFormed, PutChunks, Abort, Ingest, RecentOthers, Fresh, Issued, Apply, svc.Recorded,
         Writes, Refused, Ascending;
    ghost var g, last := svc.store.View(), svc.source.last;
    svc.Recording(now);
    var msgId := svc.source.New();
    var put := svc.store.PutMessage(msgId, m);
    var stored, ids := StoreChunks(svc.store, svc.source, msgId, m, chunks, vecs, now, g);
    w := Draft(msgId, m, ids, chunks, vecs, now);
    DraftIsFresh(g, last, w, svc.source.last);
    if stored.Failure? {
      DraftRefused(g, svc.store.dim, last, m, chunks, vecs, now, w);
      IssuedAfterAbort(g, last, w, svc.source.last);
      ApplyAbort(svc.cfg, g, w);
      svc.Record(g, AbortStep(w), now);
      return Failure(Storage(stored.error)), w;
    }
    var recent := LinkMessage(svc.store, svc.cfg, g, ids, w, msgId, now);
    DraftComplete(svc.cfg, g, last, m, chunks, vecs, now, w, recent, svc.source.last);
    w := w.(recent := recent);
    IssuedAfterWrite(svc.cfg, g, last, w, svc.source.last);
    ApplyWrite(svc.cfg, g, w);
    svc.Record(g, WriteStep(w), now);
    return Success((msgId, ids)), w;
  }

  lemma ApplyWrite(cfg: Config, g: Graph, w: Writing)
    requires Fresh(g, w)
    ensures Enabled(g, WriteStep(w)) && Apply(cfg, g, WriteStep(w)) == Ingest(cfg, g, w)
  {
  }

  lemma ApplyAbort(cfg: Config, g: Graph, w: Writing)
    requires Fresh(g, w)
    ensures Enabled(g, AbortStep(w)) && Apply(cfg, g, AbortStep(w)) == Abort(g, w)
  {
  }

  datatype WriteRequest = WriteRequest(message: string, metadata: map<string, string>)

  // The embedder is asked once, before anything is stored; it may fail or answer with any vectors.
  method Write(svc: Service, req: WriteRequest, embedded: Option<seq<Vec>>, now: int)
    returns (r: Result<(Id, seq<Id>), ServiceError>, ghost chunks: seq<Chunk>, ghost w: Option<Writing>)
    requires svc.Ready(now)
    modifies svc`journal, svc.store, svc.source
    ensures svc.Ready(now)
    ensures TrimSpace(req.message) != "" ==>
              AllWindows(Split(TrimSpace(req.message), 0), ClampWindow(svc.cfg.chunkWindowSize),
                         ClampStride(svc.cfg.chunkWindowSize, svc.cfg.chunkStride), chunks)
    ensures w.None? <==> TrimSpace(req.message) == "" || embedded.None? || |embedded.value| != |chunks|
    ensures w.None? ==> svc.journal == old(svc.journal) && svc.store.View() == old(svc.store.View())
    ensures w.None? ==> r == Failure(if TrimSpace(req.message) == "" then BadRequest
                                     else if embedded.None? then EmbedderFailed else EmbedderMismatch)
    ensures w.Some? ==>
              var m := Message(req.message, req.metadata, now);
              var g := old(svc.store.View());
              var last := old(svc.source.last);
              if forall i :: 0 <= i < |embedded.value| ==> |embedded.value[i]| == svc.store.dim
              then && Writes(svc.cfg, g, last, m, chunks, embedded.value, now, w.value)
                   && svc.store.View() == Ingest(svc.cfg, g, w.value)
                   && svc.journal == old(svc.journal) + [WriteStep(w.value)]
                   && r == Success((w.value.msgId, w.value.ids))
              else && Refused(g, svc.store.dim, last, m, chunks, embedded.value, now, w.value)
                   && svc.store.View() == Abort(g, w.value)
                   && svc.journal == old(svc.journal) + [AbortStep(w.value)]
                   && r == Failure(Storage(InvalidVector))
  {
    hide SoundDb, DriftOf, Possible, State, WellFormed, Abort, Ingest, Fresh, Issued, AllWindows, Split, TrimSpace;
    chunks, w := [], None;
    if TrimSpace(req.message) == "" {
      return Failure(BadRequest), chunks, w;
    }
    var pieces := Chunkify(req.message, svc.cfg.chunkWindowSize, svc.cfg.chunkStride);
    chunks := pieces;
    if embedded.None? {
      return Failure(EmbedderFailed), chunks, w;
    }
    if |embedded.value| != |pieces| {
      return Failure(EmbedderMismatch), chunks, w;
    }
    ghost var what;
    r, what := Persist(svc, Message(req.message, req.metadata, now), pieces, embedded.value, now);
    w := Some(what);
  }
}
