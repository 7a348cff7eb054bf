// Forgetting messages with everything derived from them.
module Forgetting {
  import opened Wrappers
  import opened MemoryGraph
  import opened Neo4jStore
  import opened Runs
  import opened History
  import opened MemoryService

  // ----- the edges of one node -----

  // What purging leaves: of two opposite edges at the node only the outgoing one is deleted, because
  // the incoming one has the same unordered key.
  function Purged(g: Graph, id: Id): Graph {
    g.(edges := map p | p in g.edges && p.0 != id && (p.1 == id ==> (id, p.0) in g.edges) :: g.edges[p])
  }

  function KeysOf(s: seq<(Id, Id)>): set<(Id, Id)> {
    set p | p in s :: OrderedPair(p.0, p.1)
  }

  lemma KeysOfOneMore(s: seq<(Id, Id)>, p: (Id, Id))
    ensures KeysOf(s + [p]) == KeysOf(s) + {OrderedPair(p.0, p.1)}
  {
    assert forall q :: q in s + [p] <==> q in s || q == p;
    assert p in s + [p];
  }

  // Whether the key was seen depends only on the two directions of the edge itself.
  lemma SeenKey(s: seq<(Id, Id)>, p: (Id, Id))
    ensures OrderedPair(p.0, p.1) in KeysOf(s) <==> p in s || (p.1, p.0) in s
  {
    if OrderedPair(p.0, p.1) in KeysOf(s) {
      var q :| q in s && OrderedPair(p.0, p.1) == OrderedPair(q.0, q.1);
      assert q == p || q == (p.1, p.0);
    }
    if (p.1, p.0) in s {
      OrderedPairNamesUnordered(p.0, p.1, p.1, p.0);
      assert OrderedPair((p.1, p.0).0, (p.1, p.0).1) in KeysOf(s);
    }
  }

  lemma KeysAreTouchingPairs(g: Graph, id: Id, s: seq<(Id, Id)>)
    requires forall p :: p in s <==> p in g.edges && (p.0 == id || p.1 == id)
    ensures KeysOf(s) == PairsTouching(g.edges, {id})
  {
    forall p | p in g.edges && (p.0 in {id} || p.1 in {id}) ensures OrderedPair(p.0, p.1) in KeysOf(s) {
      assert p in s;
    }
    forall p | p in s ensures OrderedPair(p.0, p.1) in PairsTouching(g.edges, {id}) {
      assert p in g.edges && (p.0 in {id} || p.1 in {id});
    }
  }

  // The graph with the given edges gone.
  function Minus(g: Graph, gone: set<(Id, Id)>): Graph { g.(edges := g.edges - gone) }

  method Purge(st: Store, seen: set<(Id, Id)>, deleted: nat, p: (Id, Id)) returns (seen': set<(Id, Id)>, deleted': nat)
    requires st.Valid() && deleted == |seen|
    modifies st
    ensures st.Valid() && deleted' == |seen'| && seen' == seen + {OrderedPair(p.0, p.1)}
    ensures st.View() == if OrderedPair(p.0, p.1) in seen then old(st.View()) else Minus(old(st.View()), {p})
  {
    seen', deleted' := seen, deleted;
    var key := OrderedPair(p.0, p.1);
    if key in seen {
      assert seen + {key} == seen;
      return;
    }
    seen' := seen + {key};
    st.DeleteEdge(p.0, p.1);
    deleted' := deleted + 1;
  }

  function OutGone(out: seq<(Id, Id)>): set<(Id, Id)> { set p | p in out }

  // An incoming edge is deleted only when its mirror was not.
  function InGone(out: seq<(Id, Id)>, inn: seq<(Id, Id)>): set<(Id, Id)> { set p | p in inn && (p.1, p.0) !in out }

  // One more outgoing edge is always deleted: no edge before it has its key.
  lemma OutStep(g: Graph, id: Id, out: seq<(Id, Id)>, i: nat)
    requires i < |out| && (forall p :: p in out ==> p.0 == id)
    requires forall a, b :: 0 <= a < b < |out| ==> out[a] != out[b]
    ensures OrderedPair(out[i].0, out[i].1) !in KeysOf(out[..i])
    ensures KeysOf(out[..i + 1]) == KeysOf(out[..i]) + {OrderedPair(out[i].0, out[i].1)}
    ensures Minus(Minus(g, OutGone(out[..i])), {out[i]}) == Minus(g, OutGone(out[..i + 1]))
  {
    hide KeysOf, OrderedPair;
    SeenKey(out[..i], out[i]);
    assert out[..i + 1] == out[..i] + [out[i]];
    KeysOfOneMore(out[..i], out[i]);
  }

  lemma InStep(g: Graph, id: Id, out: seq<(Id, Id)>, inn: seq<(Id, Id)>, i: nat)
    requires i < |inn| && (forall p :: p in inn ==> p.1 == id && p.0 != id) && (forall p :: p in out ==> p.0 == id)
    requires forall a, b :: 0 <= a < b < |inn| ==> inn[a] != inn[b]
    ensures OrderedPair(inn[i].0, inn[i].1) in KeysOf(out + inn[..i]) <==> (inn[i].1, inn[i].0) in out
    ensures KeysOf(out + inn[..i + 1]) == KeysOf(out + inn[..i]) + {OrderedPair(inn[i].0, inn[i].1)}
    ensures var gone := OutGone(out) + InGone(out, inn[..i]);
            Minus(g, OutGone(out) + InGone(out, inn[..i + 1]))
            == if (inn[i].1, inn[i].0) in out then Minus(g, gone) else Minus(Minus(g, gone), {inn[i]})
  {
    hide KeysOf, OrderedPair;
    SeenKey(out + inn[..i], inn[i]);
    assert inn[..i + 1] == inn[..i] + [inn[i]];
    assert out + inn[..i + 1] == out + inn[..i] + [inn[i]];
    KeysOfOneMore(out + inn[..i], inn[i]);
  }

  lemma AllGone(g: Graph, id: Id, out: seq<(Id, Id)>, inn: seq<(Id, Id)>)
    requires forall p :: p in out <==> p in g.edges && p.0 == id
    requires forall p :: p in inn <==> p in g.edges && p.1 == id
    requires forall p :: p in g.edges ==> p.0 != p.1
    ensures Minus(g, OutGone(out) + InGone(out, inn)) == Purged(g, id)
    ensures KeysOf(out + inn) == PairsTouching(g.edges, {id})
  {
    hide KeysOf, OrderedPair, PairsTouching;
    KeysAreTouchingPairs(g, id, out + inn);
    assert Minus(g, OutGone(out) + InGone(out, inn)).edges == Purged(g, id).edges;
  }

  lemma NoneGone(g: Graph, out: seq<(Id, Id)>)
    ensures KeysOf([]) == {} && Minus(g, OutGone([])) == g
    ensures out + [] == out && OutGone(out) + InGone(out, []) == OutGone(out)
  {
    assert g.edges - OutGone([]) == g.edges;
  }

  lemma NoLoops(st: Store)
    requires st.Valid()
    ensures forall p :: p in st.View().edges ==> p.0 != p.1
  {
  }

  method PurgeNodeEdges(st: Store, id: Id) returns (deleted: nat)
    requires st.Valid()
    modifies st
    ensures st.Valid()
    ensures st.View() == Purged(old(st.View()), id)
    ensures deleted == |PairsTouching(old(st.View()).edges, {id})|
  {
    hide SoundDb, DriftOf, KeysOf, PairsTouching, OrderedPair, OutGone, InGone, Purged;
    ghost var g := st.View();
    NoLoops(st);
    var out := st.Neighbors(id);
    var inn := st.InboundNeighbors(id);
    var seen: set<(Id, Id)> := {};
    deleted := 0;
    NoneGone(g, out);
    var i := 0;
    while i < |out|
      invariant 0 <= i <= |out| && st.Valid() && deleted == |seen| && seen == KeysOf(out[..i])
      invariant st.View() == Minus(g, OutGone(out[..i]))
    {
      OutStep(g, id, out, i);
      seen, deleted := Purge(st, seen, deleted, out[i]);
      i := i + 1;
    }
    assert out[..i] == out;
    i := 0;
    while i < |inn|
      invariant 0 <= i <= |inn| && st.Valid() && deleted == |seen| && seen == KeysOf(out + inn[..i])
      invariant st.View() == Minus(g, OutGone(out) + InGone(out, inn[..i]))
    {
      InStep(g, id, out, inn, i);
      seen, deleted := Purge(st, seen, deleted, inn[i]);
      i := i + 1;
    }
    assert inn[..i] == inn;
    AllGone(g, id, out, inn);
  }

  // ----- one node, one message -----

  // Purging alone leaves the node without edges exactly when none of its neighbours is joined to it both ways.
  lemma PurgeIsCompleteExactly(g: Graph, id: Id)
    requires forall p :: p in g.edges ==> p.0 != p.1
    ensures (forall p :: p in Purged(g, id).edges ==> p.0 != id && p.1 != id)
       <==> forall x :: !((id, x) in g.edges && (x, id) in g.edges)
  {
    if x :| (id, x) in g.edges && (x, id) in g.edges {
      assert (x, id) in Purged(g, id).edges;
    }
  }

  // The half-purged node loses its remaining edges when it is deleted, so the result is the subgraph
  // induced by the other nodes.
  lemma PurgeThenDelete(g: Graph, id: Id)
    ensures Without(Tombstoned(Purged(g, id), id), {id}) == Without(g, {id})
  {
    assert Without(Tombstoned(Purged(g, id), id), {id}).nodes == g.nodes - {id};
  }

  method ForgetNode(st: Store, id: Id) returns (edgesDeleted: nat)
    requires st.Valid()
    modifies st
    ensures st.Valid()
    ensures st.View() == Without(old(st.View()), {id})
    ensures edgesDeleted == |PairsTouching(old(st.View()).edges, {id})|
  {
    hide SoundDb, DriftOf;
    PurgeThenDelete(st.View(), id);
    edgesDeleted := PurgeNodeEdges(st, id);
    st.DeleteVector(id);
    st.DeleteNode(id);
  }

  method ForgetNodes(st: Store, nodes: seq<Id>, ghost d: set<Id>) returns (nodesDeleted: nat, edgesDeleted: nat)
    requires st.Valid() && (forall i, j :: 0 <= i < j < |nodes| ==> nodes[i] != nodes[j])
    requires forall id :: id in d <==> id in nodes
    modifies st
    ensures st.Valid()
    ensures st.View() == Without(old(st.View()), d)
    ensures nodesDeleted == |d| && edgesDeleted == |PairsTouching(old(st.View()).edges, d)|
  {
    hide SoundDb, DriftOf, PairsTouching, Without;
    ghost var g := st.View();
    nodesDeleted, edgesDeleted := 0, 0;
    ghost var done: set<Id> := {};
    NothingDone(g);
    var i := 0;
    while i < |nodes|
      invariant 0 <= i <= |nodes| && st.Valid() && nodesDeleted == i == |done|
      invariant done == set id | id in nodes[..i]
      invariant st.View() == Without(g, done) && edgesDeleted == |PairsTouching(g.edges, done)|
    {
      assert nodes[i] !in done;
      WithoutTwice(g, done, {nodes[i]});
      PairsTouchingSplit(g, done, {nodes[i]});
      var e := ForgetNode(st, nodes[i]);
      edgesDeleted := edgesDeleted + e;
      nodesDeleted := nodesDeleted + 1;
      done := done + {nodes[i]};
      i := i + 1;
    }
    assert nodes[..i] == nodes;
    assert done == d;
  }

  method ForgetMessage(st: Store, msg: Id) returns (nodesDeleted: nat, edgesDeleted: nat)
    requires st.Valid()
    modifies st
    ensures st.Valid()
    ensures st.View() == Erase(old(st.View()), {msg})
    ensures nodesDeleted == |NodesOf(old(st.View()), {msg})|
    ensures edgesDeleted == |PairsTouching(old(st.View()).edges, NodesOf(old(st.View()), {msg}))|
  {
    hide SoundDb, DriftOf, PairsTouching;
    ghost var g := st.View();
    var nodes := st.NodesForMessage(msg);
    nodesDeleted, edgesDeleted := ForgetNodes(st, nodes, NodesOf(g, {msg}));
    st.DeleteMessage(msg);
  }

  lemma NothingDone(g: Graph)
    ensures Without(g, {}) == g && PairsTouching(g.edges, {}) == {}
    ensures NodesOf(g, {}) == {} && Erase(g, {}) == g
  {
    assert Without(g, {}).edges == g.edges && Without(g, {}).nodes == g.nodes && Without(g, {}).vectors == g.vectors;
    assert g.messages - {} == g.messages;
  }

  // ----- the request -----

  datatype ForgetResult = ForgetResult(deletedNodes: nat, deletedVectors: nat, deletedEdges: nat)

  // A message identifier that is not absent wins over the time, even when it is whitespace.
  function Targets(g: Graph, messageId: IdText, before: int): set<Id> {
    if messageId.Absent? then set m | m in g.messages && g.messages[m].createdAt < before
    else {messageId.id}
  }

  // Erasing one message after others: nothing is counted twice.
  lemma EraseOneMore(g: Graph, done: set<Id>, msg: Id)
    requires msg !in done
    ensures Erase(Erase(g, done), {msg}) == Erase(g, done + {msg})
    ensures |NodesOf(g, done + {msg})| == |NodesOf(g, done)| + |NodesOf(Erase(g, done), {msg})|
    ensures |PairsTouching(g.edges, NodesOf(g, done + {msg}))|
         == |PairsTouching(g.edges, NodesOf(g, done))|
            + |PairsTouching(Erase(g, done).edges, NodesOf(Erase(g, done), {msg}))|
  {
    hide PairsTouching;
    var d, e := NodesOf(g, done), NodesOf(Erase(g, done), {msg});
    assert NodesOf(g, done + {msg}) == d + e && d !! e;
    WithoutTwice(g, d, e);
    PairsTouchingSplit(g, d, e);
    assert g.messages - done - {msg} == g.messages - (done + {msg});
    assert Erase(g, done).edges == Without(g, d).edges;
    assert Without(Erase(g, done), e) == Without(Without(g, d), e).(messages := g.messages - done);
  }

  // Message after message.
  method ForgetMessages(st: Store, msgIds: seq<Id>, ghost msgs: set<Id>) returns (r: ForgetResult)
    requires st.Valid() && (forall i, j :: 0 <= i < j < |msgIds| ==> msgIds[i] != msgIds[j])
    requires forall m :: m in msgs <==> m in msgIds
    modifies st
    ensures st.Valid()
    ensures st.View() == Erase(old(st.View()), msgs)
    ensures r == ForgetResult(|NodesOf(old(st.View()), msgs)|, |NodesOf(old(st.View()), msgs)|,
                              |PairsTouching(old(st.View()).edges, NodesOf(old(st.View()), msgs))|)
  {
    hide SoundDb, DriftOf, WellFormed, PairsTouching, NodesOf, Erase;
    ghost var g := st.View();
    r := ForgetResult(0, 0, 0);
    ghost var done: set<Id> := {};
    NothingDone(g);
    var i := 0;
    while i < |msgIds|
      invariant 0 <= i <= |msgIds| && st.Valid()
      invariant done == set m | m in msgIds[..i]
      invariant st.View() == Erase(g, done)
      invariant r == ForgetResult(|NodesOf(g, done)|, |NodesOf(g, done)|, |PairsTouching(g.edges, NodesOf(g, done))|)
    {
      EraseOneMore(g, done, msgIds[i]);
      var n, e := ForgetMessage(st, msgIds[i]);
      r := ForgetResult(r.deletedNodes + n, r.deletedVectors + n, r.deletedEdges + e);
      done := done + {msgIds[i]};
      i := i + 1;
    }
    assert msgIds[..i] == msgIds;
    assert done == msgs;
  }

  method Forget(svc: Service, messageId: IdText, before: Option<int>, ghost now: int)
    returns (r: Result<ForgetResult, ServiceError>)
    requires svc.Ready(now)
    modifies svc`journal, svc.store
    ensures svc.Ready(now)
    ensures r.Failure? <==> !messageId.Named? && before.None?
    ensures r.Failure? ==> r.error == BadRequest && svc.journal == old(svc.journal) && svc.store.View() == old(svc.store.View())
    ensures r.Success? ==>
              var g := old(svc.store.View());
              var msgs := Targets(g, messageId, if before.Some? then before.value else 0);
              && svc.journal == old(svc.journal) + [ForgetStep(msgs, now)]
              && svc.store.View() == Erase(g, msgs)
              && r.value == ForgetResult(|NodesOf(g, msgs)|, |NodesOf(g, msgs)|,
                                         |PairsTouching(g.edges, NodesOf(g, msgs))|)
  {
    hide Possible, State, SoundDb, DriftOf, WellFormed, PairsTouching, NodesOf, Erase, svc.Recorded;
    if !messageId.Named? && before.None? {
      return Failure(BadRequest);
    }
    ghost var g := svc.store.View();
    svc.Recording(now);
    var msgIds;
    if !messageId.Absent? {
      msgIds := [messageId.id];
    } else {
      msgIds := svc.store.MessageIDsBefore(before.value);
    }
    ghost var msgs := Targets(g, messageId, if before.Some? then before.value else 0);
    var out := ForgetMessages(svc.store, msgIds, msgs);
    svc.Record(g, ForgetStep(msgs, now), now);
    return Success(out);
  }
}
