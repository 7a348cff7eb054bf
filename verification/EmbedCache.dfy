// The embedding cache: what it returns against embedding directly, and its vector codec.
module EmbedCache {
  import opened Wrappers

  type Byte = x: int | 0 <= x < 256

  // The bit pattern of one 32-bit float.
  type Word = x: int | 0 <= x < 0x1_0000_0000

  type Vector = seq<Word>

  // ----- the codec: four bytes a component, least significant first -----

  function WordBytes(w: Word): (b: seq<Byte>)
    ensures |b| == 4
  {
    [w % 256, w / 256 % 256, w / 65536 % 256, w / 16777216]
  }

  function BytesWord(b0: Byte, b1: Byte, b2: Byte, b3: Byte): Word {
    b0 + 256 * b1 + 65536 * b2 + 16777216 * b3
  }

  // The first byte counts ones, and each of the others 256 times the one before.
  ghost predicate LittleEndian(w: int, b0: int, b1: int, b2: int, b3: int) {
    w == b0 + 0x100 * b1 + 0x1_0000 * b2 + 0x100_0000 * b3
  }

  lemma WordRoundTrip(w: Word)
    ensures var b := WordBytes(w); BytesWord(b[0], b[1], b[2], b[3]) == w && LittleEndian(w, b[0], b[1], b[2], b[3])
  {
    var high := w / 256;
    assert w == 256 * high + w % 256;
    assert w / 65536 == high / 256 && high == 256 * (high / 256) + high % 256;
    var top := w / 65536;
    assert w / 16777216 == top / 256 && top == 256 * (top / 256) + top % 256;
  }

  lemma BytesRoundTrip(b0: Byte, b1: Byte, b2: Byte, b3: Byte)
    ensures WordBytes(BytesWord(b0, b1, b2, b3)) == [b0, b1, b2, b3]
  {
    var w := BytesWord(b0, b1, b2, b3);
    assert w / 256 == b1 + 256 * b2 + 65536 * b3;
    assert w / 65536 == b2 + 256 * b3;
  }

  function Encoded(v: Vector): (raw: seq<Byte>)
    ensures |raw| == 4 * |v|
  {
    if v == [] then [] else Encoded(v[..|v| - 1]) + WordBytes(v[|v| - 1])
  }

  function Decoded(raw: seq<Byte>): (v: Vector)
    requires |raw| % 4 == 0
    ensures |v| == |raw| / 4
  {
    if raw == [] then []
    else
      var n := |raw| - 4;
      Decoded(raw[..n]) + [BytesWord(raw[n], raw[n + 1], raw[n + 2], raw[n + 3])]
  }

  lemma {:induction false} DecodeEncode(v: Vector)
    ensures Decoded(Encoded(v)) == v
  {
    hide WordBytes, BytesWord, Decoded;
    if v == [] {
      DecodedNothing();
    } else {
      var n := |v| - 1;
      DecodeEncode(v[..n]);
      WordRoundTrip(v[n]);
      DecodedLast(Encoded(v[..n]), WordBytes(v[n]));
    }
  }

  // Byte by byte: the components in order, each least significant byte first.
  lemma {:induction false} EncodedAt(v: Vector, i: nat)
    requires i < |v|
    ensures var raw := Encoded(v); LittleEndian(v[i], raw[4 * i], raw[4 * i + 1], raw[4 * i + 2], raw[4 * i + 3])
  {
    hide WordBytes, LittleEndian;
    var n := |v| - 1;
    if i < n {
      EncodedAt(v[..n], i);
    } else {
      WordRoundTrip(v[n]);
    }
  }

  lemma DecodedLast(raw: seq<Byte>, b: seq<Byte>)
    requires |raw| % 4 == 0 && |b| == 4
    ensures Decoded(raw + b) == Decoded(raw) + [BytesWord(b[0], b[1], b[2], b[3])]
  {
    hide BytesWord;
    assert (raw + b)[..|raw|] == raw;
  }

  lemma EncodedStep(v: Vector, w: Word)
    ensures Encoded(v + [w]) == Encoded(v) + WordBytes(w)
  {
    hide WordBytes;
    assert (v + [w])[..|v|] == v;
  }

  lemma {:induction false} EncodeDecode(raw: seq<Byte>)
    requires |raw| % 4 == 0
    ensures Encoded(Decoded(raw)) == raw
  {
    hide WordBytes, BytesWord, Encoded;
    if raw == [] {
      EncodedNothing();
    } else {
      var n := |raw| - 4;
      var w := BytesWord(raw[n], raw[n + 1], raw[n + 2], raw[n + 3]);
      EncodeDecode(raw[..n]);
      BytesRoundTrip(raw[n], raw[n + 1], raw[n + 2], raw[n + 3]);
      EncodedStep(Decoded(raw[..n]), w);
      LastFour(raw);
    }
  }

  lemma EncodedNothing()
    ensures Encoded([]) == []
  {
  }

  lemma LastFour(raw: seq<Byte>)
    requires |raw| >= 4
    ensures var n := |raw| - 4; raw == raw[..n] + [raw[n], raw[n + 1], raw[n + 2], raw[n + 3]]
  {
  }

  method EncodeVector(v: array<Word>) returns (out: array<Byte>)
    ensures fresh(out) && out[..] == Encoded(v[..])
  {
    out := new Byte[v.Length * 4];
    for i := 0 to v.Length
      invariant out[..4 * i] == Encoded(v[..i])
    {
      var w := v[i];
      out[4 * i], out[4 * i + 1], out[4 * i + 2], out[4 * i + 3] := w % 256, w / 256 % 256, w / 65536 % 256, w / 16777216;
      assert v[..i + 1][..i] == v[..i];
      assert out[..4 * (i + 1)] == out[..4 * i] + WordBytes(w);
    }
    assert v[..v.Length] == v[..] && out[..4 * v.Length] == out[..];
  }

  lemma DecodedStep(raw: seq<Byte>, i: nat)
    requires 4 * (i + 1) <= |raw|
    ensures Decoded(raw[..4 * (i + 1)])
         == Decoded(raw[..4 * i]) + [BytesWord(raw[4 * i], raw[4 * i + 1], raw[4 * i + 2], raw[4 * i + 3])]
  {
    hide BytesWord;
    assert raw[..4 * (i + 1)][..4 * i] == raw[..4 * i];
  }

  method DecodeVector(b: array<Byte>, out: array<Word>)
    requires b.Length == 4 * out.Length
    modifies out
    ensures out[..] == Decoded(b[..])
  {
    hide Decoded, BytesWord;
    ghost var raw := b[..];
    DecodedNothing();
    for i := 0 to out.Length
      invariant b[..] == raw && out[..i] == Decoded(raw[..4 * i])
    {
      DecodedStep(raw, i);
      out[i] := BytesWord(b[4 * i], b[4 * i + 1], b[4 * i + 2], b[4 * i + 3]);
      assert out[..i + 1] == out[..i] + [out[i]];
    }
    assert out[..out.Length] == out[..] && raw[..4 * out.Length] == raw;
  }

  lemma DecodedNothing()
    ensures Decoded([]) == []
  {
  }

  // ----- the embedder -----

  datatype Task = RetrievalDocument | RetrievalQuery

  // Any deterministic embedder: it may fail, or answer with too few or misshapen vectors.
  class Embedder {
    const dim: nat
    const answer: (Task, seq<string>) -> Result<seq<Vector>, string>
    var calls: nat

    constructor (dim: nat, answer: (Task, seq<string>) -> Result<seq<Vector>, string>)
      ensures this.dim == dim && this.answer == answer && calls == 0
    {
      this.dim, this.answer, calls := dim, answer, 0;
    }

    method Embed(task: Task, texts: seq<string>) returns (r: Result<seq<Vector>, string>)
      modifies this`calls
      ensures r == answer(task, texts) && calls == old(calls) + 1
    {
      calls := calls + 1;
      return answer(task, texts);
    }
  }

  // Embeds text by text, under every task, with vectors of the promised length.
  ghost predicate Pointwise(e: Embedder, f: (Task, string) -> Vector) {
    && (forall task, texts: seq<string> :: e.answer(task, texts) == Success(Direct(f, task, texts)))
    && (forall task, t: string :: |f(task, t)| == e.dim)
  }

  ghost function Direct(f: (Task, string) -> Vector, task: Task, texts: seq<string>): seq<Vector> {
    seq(|texts|, i requires 0 <= i < |texts| => f(task, texts[i]))
  }

  // ----- the cache -----

  datatype CacheError = BadEntry | BadVector | EmbedFailed | WrongCount

  // Model, dimension and text; the text stands for its digest. The task is not part of the key.
  datatype Key = Key(model: string, dim: nat, text: string)

  type Table = map<Key, seq<Byte>>

  ghost predicate ValidTable(table: Table) {
    forall k :: k in table ==> |table[k]| == 4 * k.dim
  }

  ghost function Entry(table: Table, model: string, dim: nat, text: string): Vector
    requires ValidTable(table) && Key(model, dim, text) in table
  {
    Decoded(table[Key(model, dim, text)])
  }

  class Cache {
    var table: Table

    ghost predicate Valid()
      reads this
    {
      ValidTable(table)
    }

    constructor ()
      ensures Valid() && table == map[]
    {
      table := map[];
    }

    // The vector, or none on a miss. An entry of the wrong length is an error that a valid cache never has.
    method Get(model: string, dim: nat, text: string) returns (r: Result<seq<Vector>, CacheError>)
      requires Valid()
      ensures r == Success(if Key(model, dim, text) in table then [Entry(table, model, dim, text)] else [])
    {
      var key := Key(model, dim, text);
      if key !in table {
        return Success([]);
      }
      var raw := table[key];
      if |raw| != dim * 4 {
        return Failure(BadEntry);
      }
      return Success([Decoded(raw)]);
    }

    method Put(model: string, dim: nat, text: string, vec: Vector) returns (r: Result<(), CacheError>)
      requires Valid()
      modifies this
      ensures Valid()
      ensures r == if |vec| == dim then Success(()) else Failure(BadVector)
      ensures table == if |vec| == dim then old(table)[Key(model, dim, text) := Encoded(vec)] else old(table)
    {
      if |vec| != dim {
        return Failure(BadVector);
      }
      table := table[Key(model, dim, text) := Encoded(vec)];
      return Success(());
    }
  }

  // ----- a batch -----

  // The positions of the first n texts that are not in the table.
  function MissIdx(table: Table, model: string, dim: nat, texts: seq<string>, n: nat): (idx: seq<nat>)
    requires n <= |texts|
    ensures forall j :: 0 <= j < |idx| ==> idx[j] < n && Key(model, dim, texts[idx[j]]) !in table
    ensures forall i :: 0 <= i < n && Key(model, dim, texts[i]) !in table ==> i in idx
  {
    if n == 0 then []
    else MissIdx(table, model, dim, texts, n - 1) + if Key(model, dim, texts[n - 1]) in table then [] else [n - 1]
  }

  function Select(texts: seq<string>, idx: seq<nat>): seq<string>
    requires forall j :: 0 <= j < |idx| ==> idx[j] < |texts|
  {
    seq(|idx|, j requires 0 <= j < |idx| => texts[idx[j]])
  }

  function MissTexts(table: Table, model: string, dim: nat, texts: seq<string>): seq<string> {
    Select(texts, MissIdx(table, model, dim, texts, |texts|))
  }

  // What the table answers to the first n texts, with nothing yet at the missed positions.
  ghost function HitsTo(table: Table, model: string, dim: nat, texts: seq<string>, n: nat): (r: seq<Vector>)
    requires ValidTable(table)
    ensures |r| == |texts|
  {
    seq(|texts|, i requires 0 <= i < |texts| =>
      if i < n && Key(model, dim, texts[i]) in table then Entry(table, model, dim, texts[i]) else [])
  }

  ghost function Hits(table: Table, model: string, dim: nat, texts: seq<string>): (r: seq<Vector>)
    requires ValidTable(table)
    ensures |r| == |texts|
  {
    HitsTo(table, model, dim, texts, |texts|)
  }

  // The first n missed positions filled in.
  function Filled(out: seq<Vector>, idx: seq<nat>, vecs: seq<Vector>, n: nat): (r: seq<Vector>)
    requires n <= |idx| == |vecs| && forall j :: 0 <= j < |idx| ==> idx[j] < |out|
    ensures |r| == |out|
  {
    if n == 0 then out else Filled(out, idx, vecs, n - 1)[idx[n - 1] := vecs[n - 1]]
  }

  // The first n misses stored.
  function Stored(table: Table, model: string, dim: nat, texts: seq<string>, vecs: seq<Vector>, n: nat): Table
    requires n <= |texts| == |vecs|
  {
    if n == 0 then table else Stored(table, model, dim, texts, vecs, n - 1)[Key(model, dim, texts[n - 1]) := Encoded(vecs[n - 1])]
  }

  // The first vector of the wrong length.
  predicate FirstBad(vecs: seq<Vector>, dim: nat, j: nat) {
    j < |vecs| && |vecs[j]| != dim && forall i :: 0 <= i < j ==> |vecs[i]| == dim
  }

  method Lookup(c: Cache, model: string, dim: nat, texts: seq<string>)
    returns (r: Result<seq<Vector>, CacheError>, missTexts: seq<string>, missIdx: seq<nat>)
    requires c.Valid()
    ensures r == Success(Hits(c.table, model, dim, texts))
    ensures missIdx == MissIdx(c.table, model, dim, texts, |texts|)
    ensures missTexts == MissTexts(c.table, model, dim, texts)
  {
    hide HitsTo, MissIdx, Select, Entry, ValidTable;
    var out: seq<Vector> := seq(|texts|, _ => []);
    missTexts, missIdx := [], [];
    LookupNone(c.table, model, dim, texts);
    for i := 0 to |texts|
      invariant out == HitsTo(c.table, model, dim, texts, i)
      invariant missIdx == MissIdx(c.table, model, dim, texts, i) && missTexts == Select(texts, missIdx)
    {
      LookupOne(c.table, model, dim, texts, i);
      var got := c.Get(model, dim, texts[i]);
      if got.value != [] {
        out := out[i := got.value[0]];
        continue;
      }
      missTexts, missIdx := missTexts + [texts[i]], missIdx + [i];
    }
    r := Success(out);
  }

  lemma LookupNone(table: Table, model: string, dim: nat, texts: seq<string>)
    requires ValidTable(table)
    ensures HitsTo(table, model, dim, texts, 0) == seq(|texts|, _ => [])
    ensures MissIdx(table, model, dim, texts, 0) == [] && Select(texts, []) == []
  {
  }

  lemma LookupOne(table: Table, model: string, dim: nat, texts: seq<string>, i: nat)
    requires ValidTable(table) && i < |texts|
    ensures var hits, idx := HitsTo(table, model, dim, texts, i), MissIdx(table, model, dim, texts, i);
            if Key(model, dim, texts[i]) in table
            then HitsTo(table, model, dim, texts, i + 1) == hits[i := Entry(table, model, dim, texts[i])]
                 && MissIdx(table, model, dim, texts, i + 1) == idx
            else HitsTo(table, model, dim, texts, i + 1) == hits
                 && MissIdx(table, model, dim, texts, i + 1) == idx + [i]
                 && Select(texts, idx + [i]) == Select(texts, idx) + [texts[i]]
  {
    hide Decoded, ValidTable;
  }

  // Fills the missed positions and stores their vectors, up to the first one of the wrong length.
  method Fill(c: Cache, model: string, dim: nat, missTexts: seq<string>, missIdx: seq<nat>, vecs: seq<Vector>, out0: seq<Vector>)
    returns (r: Result<seq<Vector>, CacheError>, ghost n: nat)
    requires c.Valid() && |vecs| == |missTexts| == |missIdx| && forall j :: 0 <= j < |missIdx| ==> missIdx[j] < |out0|
    modifies c
    ensures c.Valid() && n <= |vecs| && c.table == Stored(old(c.table), model, dim, missTexts, vecs, n)
    ensures if n == |vecs| then r == Success(Filled(out0, missIdx, vecs, n)) && forall i :: 0 <= i < n ==> |vecs[i]| == dim
            else r == Failure(BadVector) && FirstBad(vecs, dim, n)
  {
    hide Encoded, ValidTable;
    ghost var before := c.table;
    var out := out0;
    n := 0;
    for j := 0 to |missIdx|
      invariant c.Valid() && n == j && c.table == Stored(before, model, dim, missTexts, vecs, j)
      invariant out == Filled(out0, missIdx, vecs, j) && forall i :: 0 <= i < j ==> |vecs[i]| == dim
    {
      out := out[missIdx[j] := vecs[j]];
      var put := c.Put(model, dim, missTexts[j], vecs[j]);
      if put.Failure? {
        return Failure(put.error), n;
      }
      n := n + 1;
    }
    r := Success(out);
  }

  // Without misses the table answers and the embedder is not called; otherwise it is called once, and every way it
  // can fail leaves the table alone but for the vectors before the first one of the wrong length.
  method EmbedBatch(c: Cache, e: Embedder, model: string, task: Task, texts: seq<string>)
    returns (r: Result<seq<Vector>, CacheError>)
    requires c.Valid()
    modifies c, e`calls
    ensures c.Valid()
    ensures var misses := MissTexts(old(c.table), model, e.dim, texts);
            if misses == []
            then e.calls == old(e.calls) && c.table == old(c.table) && r == Success(Hits(old(c.table), model, e.dim, texts))
            else e.calls == old(e.calls) + 1
                 && Embedded(old(c.table), c.table, model, e.dim, texts, e.answer(task, misses), r)
  {
    hide Encoded, Decoded, Stored, Filled, MissIdx, MissTexts, Hits, ValidTable, FirstBad;
    ghost var before := c.table;
    var dim := e.dim;
    var looked, missTexts, missIdx := Lookup(c, model, dim, texts);
    MissSizes(before, model, dim, texts);
    if |missTexts| == 0 {
      return looked;
    }
    var vecs := e.Embed(task, missTexts);
    if vecs.Failure? {
      return Failure(EmbedFailed);
    }
    if |vecs.value| != |missTexts| {
      return Failure(WrongCount);
    }
    ghost var n;
    r, n := Fill(c, model, dim, missTexts, missIdx, vecs.value, looked.value);
  }

  lemma MissSizes(table: Table, model: string, dim: nat, texts: seq<string>)
    requires ValidTable(table)
    ensures |MissTexts(table, model, dim, texts)| == |MissIdx(table, model, dim, texts, |texts|)|
    ensures |Hits(table, model, dim, texts)| == |texts|
  {
  }

  // What a batch with misses does, whatever the embedder answered to them.
  ghost predicate Embedded(before: Table, after: Table, model: string, dim: nat, texts: seq<string>,
                           answer: Result<seq<Vector>, string>, r: Result<seq<Vector>, CacheError>)
    requires ValidTable(before)
  {
    MissSizes(before, model, dim, texts);
    var misses, idx := MissTexts(before, model, dim, texts), MissIdx(before, model, dim, texts, |texts|);
    if answer.Failure? then r == Failure(EmbedFailed) && after == before
    else if |answer.value| != |misses| then r == Failure(WrongCount) && after == before
    else exists n :: && 0 <= n <= |misses| && after == Stored(before, model, dim, misses, answer.value, n)
                     && if n == |misses|
                        then r == Success(Filled(Hits(before, model, dim, texts), idx, answer.value, n))
                             && forall i :: 0 <= i < n ==> |answer.value[i]| == dim
                        else r == Failure(BadVector) && FirstBad(answer.value, dim, n)
  }

  // ----- what the answers are worth -----

  // The task each cached text was first embedded under.
  type Origin = map<string, Task>

  // The table of a model and dimension holds exactly the texts of the record, each as embedded under its first task.
  ghost predicate Recorded(table: Table, model: string, dim: nat, origin: Origin, f: (Task, string) -> Vector)
    requires ValidTable(table)
  {
    && (forall t :: Key(model, dim, t) in table <==> t in origin)
    && (forall t :: t in origin ==> Entry(table, model, dim, t) == f(origin[t], t))
  }

  // A batch records its new texts under its task.
  function Remember(origin: Origin, task: Task, texts: seq<string>): Origin {
    origin + map t | t in texts && t !in origin :: task
  }

  // The task whose vector a text is answered with.
  function AnsweredUnder(origin: Origin, task: Task, text: string): Task {
    if text in origin then origin[text] else task
  }

  lemma {:induction false} StoredShape(table: Table, model: string, dim: nat, texts: seq<string>, vecs: seq<Vector>, n: nat,
                                       task: Task, f: (Task, string) -> Vector)
    requires n <= |texts| == |vecs| && ValidTable(table) && forall j :: 0 <= j < |texts| ==> vecs[j] == f(task, texts[j]) && |vecs[j]| == dim
    requires forall j :: 0 <= j < |texts| ==> Key(model, dim, texts[j]) !in table
    ensures Extends(table, Stored(table, model, dim, texts, vecs, n), model, dim, texts[..n], task, f)
  {
    if n > 0 {
      StoredShape(table, model, dim, texts, vecs, n - 1, task, f);
      assert texts[..n] == texts[..n - 1] + [texts[n - 1]];
      ExtendsOne(table, Stored(table, model, dim, texts, vecs, n - 1), model, dim, texts[..n - 1], texts[n - 1], task, f);
    }
  }

  // The table with the new texts embedded under the task, and nothing else touched.
  ghost predicate Extends(before: Table, after: Table, model: string, dim: nat, news: seq<string>, task: Task,
                          f: (Task, string) -> Vector)
  {
    && (forall k :: k in after <==> k in before || (k.model == model && k.dim == dim && k.text in news))
    && (forall k :: k in before ==> after[k] == before[k])
    && (forall k :: k in after && k !in before ==> after[k] == Encoded(f(task, k.text)))
  }

  lemma ExtendsOne(before: Table, mid: Table, model: string, dim: nat, news: seq<string>, t: string, task: Task,
                   f: (Task, string) -> Vector)
    requires Extends(before, mid, model, dim, news, task, f) && Key(model, dim, t) !in before
    ensures Extends(before, mid[Key(model, dim, t) := Encoded(f(task, t))], model, dim, news + [t], task, f)
  {
    hide Encoded;
  }

  lemma {:induction false} FilledShape(out: seq<Vector>, idx: seq<nat>, vecs: seq<Vector>, n: nat, texts: seq<string>,
                                       task: Task, f: (Task, string) -> Vector)
    requires n <= |idx| == |vecs| && |out| == |texts| && forall j :: 0 <= j < |idx| ==> idx[j] < |out|
    requires forall j :: 0 <= j < |idx| ==> vecs[j] == f(task, texts[idx[j]])
    ensures forall i :: 0 <= i < |out| ==> Filled(out, idx, vecs, n)[i] == if i in idx[..n] then f(task, texts[i]) else out[i]
  {
    if n > 0 {
      FilledShape(out, idx, vecs, n - 1, texts, task, f);
      assert idx[..n] == idx[..n - 1] + [idx[n - 1]];
    }
  }

  // Each text is answered with its vector under the task it was first embedded under, in this batch or before.
  ghost predicate AnsweredBy(origin: Origin, task: Task, texts: seq<string>, out: seq<Vector>, f: (Task, string) -> Vector) {
    |out| == |texts| && forall i :: 0 <= i < |texts| ==> out[i] == f(AnsweredUnder(origin, task, texts[i]), texts[i])
  }

  // The history of the cache: a batch answers by it, extends it by the batch's new texts, and touches no entry that was there.
  ghost predicate Continues(before: Table, after: Table, model: string, dim: nat, origin: Origin, task: Task, texts: seq<string>,
                            r: Result<seq<Vector>, CacheError>, f: (Task, string) -> Vector)
    requires ValidTable(after)
  {
    && r.Success? && AnsweredBy(origin, task, texts, r.value, f)
    && Recorded(after, model, dim, Remember(origin, task, texts), f)
    && (forall k :: k in before ==> k in after && after[k] == before[k])
    && (forall k :: k in after && k !in before ==> k.model == model && k.dim == dim)
  }

  lemma HitsContinue(table: Table, model: string, dim: nat, origin: Origin, task: Task, texts: seq<string>, f: (Task, string) -> Vector)
    requires ValidTable(table) && Recorded(table, model, dim, origin, f) && MissTexts(table, model, dim, texts) == []
    ensures Continues(table, table, model, dim, origin, task, texts, Success(Hits(table, model, dim, texts)), f)
    ensures forall t :: t in texts ==> t in origin
  {
    hide Decoded;
    var idx := MissIdx(table, model, dim, texts, |texts|);
    assert idx == [];
    forall i | 0 <= i < |texts| ensures Key(model, dim, texts[i]) in table {
      assert i !in idx;
    }
    forall t | t in texts ensures t in origin {
      assert Key(model, dim, t) in table;
    }
    assert Remember(origin, task, texts) == origin;
  }

  lemma MissesContinue(before: Table, after: Table, model: string, dim: nat, origin: Origin, task: Task, texts: seq<string>,
                       r: Result<seq<Vector>, CacheError>, f: (Task, string) -> Vector)
    requires ValidTable(before) && ValidTable(after) && Recorded(before, model, dim, origin, f)
    requires forall t: string :: |f(task, t)| == dim
    requires Embedded(before, after, model, dim, texts, Success(Direct(f, task, MissTexts(before, model, dim, texts))), r)
    ensures Continues(before, after, model, dim, origin, task, texts, r, f)
  {
    hide Encoded, Decoded, ValidTable, Recorded, AnsweredBy, Extends, Stored, Filled, MissIdx, MissTexts, Hits, Remember;
    var misses, idx := MissTexts(before, model, dim, texts), MissIdx(before, model, dim, texts, |texts|);
    var vecs := Direct(f, task, misses);
    MissSizes(before, model, dim, texts);
    assert |vecs| == |misses|;
    assert forall i :: 0 <= i < |vecs| ==> |vecs[i]| == dim;
    AllFit(vecs, dim);
    assert after == Stored(before, model, dim, misses, vecs, |misses|);
    MissesStored(before, model, dim, origin, task, texts, f);
    ExtendsRecord(before, after, model, dim, origin, task, texts, f);
    FilledAnswers(before, model, dim, origin, task, texts, f);
  }

  lemma MissesStored(before: Table, model: string, dim: nat, origin: Origin, task: Task, texts: seq<string>,
                     f: (Task, string) -> Vector)
    requires ValidTable(before) && forall t: string :: |f(task, t)| == dim
    ensures var misses := MissTexts(before, model, dim, texts);
            Extends(before, Stored(before, model, dim, misses, Direct(f, task, misses), |misses|), model, dim, misses, task, f)
  {
    hide Encoded, Decoded, ValidTable, Stored, Extends;
    var misses := MissTexts(before, model, dim, texts);
    StoredShape(before, model, dim, misses, Direct(f, task, misses), |misses|, task, f);
    assert misses[..|misses|] == misses;
  }

  lemma FilledAnswers(before: Table, model: string, dim: nat, origin: Origin, task: Task, texts: seq<string>,
                      f: (Task, string) -> Vector)
    requires ValidTable(before) && Recorded(before, model, dim, origin, f)
    ensures |MissTexts(before, model, dim, texts)| == |MissIdx(before, model, dim, texts, |texts|)|
    ensures var misses, idx := MissTexts(before, model, dim, texts), MissIdx(before, model, dim, texts, |texts|);
            AnsweredBy(origin, task, texts, Filled(Hits(before, model, dim, texts), idx, Direct(f, task, misses), |idx|), f)
  {
    hide Decoded, ValidTable, Filled, MissIdx;
    var misses, idx := MissTexts(before, model, dim, texts), MissIdx(before, model, dim, texts, |texts|);
    FilledShape(Hits(before, model, dim, texts), idx, Direct(f, task, misses), |idx|, texts, task, f);
    assert idx[..|idx|] == idx;
  }

  lemma AllFit(vecs: seq<Vector>, dim: nat)
    requires forall i :: 0 <= i < |vecs| ==> |vecs[i]| == dim
    ensures forall j :: !FirstBad(vecs, dim, j)
  {
  }

  // The misses are the texts not on record.
  lemma NewTexts(before: Table, model: string, dim: nat, texts: seq<string>, origin: Origin, f: (Task, string) -> Vector)
    requires ValidTable(before) && Recorded(before, model, dim, origin, f)
    ensures forall t :: t in MissTexts(before, model, dim, texts) <==> t in texts && t !in origin
  {
    hide Decoded, ValidTable;
    var idx := MissIdx(before, model, dim, texts, |texts|);
    var misses := MissTexts(before, model, dim, texts);
    forall t | t in texts && t !in origin ensures t in misses {
      var i :| 0 <= i < |texts| && texts[i] == t;
      assert i in idx;
      var j :| 0 <= j < |idx| && idx[j] == i;
      assert misses[j] == t;
    }
  }

  lemma ExtendsRecord(before: Table, after: Table, model: string, dim: nat, origin: Origin, task: Task, texts: seq<string>,
                      f: (Task, string) -> Vector)
    requires ValidTable(before) && ValidTable(after) && Recorded(before, model, dim, origin, f)
    requires Extends(before, after, model, dim, MissTexts(before, model, dim, texts), task, f)
    ensures Recorded(after, model, dim, Remember(origin, task, texts), f)
    ensures forall k :: k in before ==> k in after && after[k] == before[k]
    ensures forall k :: k in after && k !in before ==> k.model == model && k.dim == dim
  {
    hide Encoded, Decoded, ValidTable, MissTexts;
    var later := Remember(origin, task, texts);
    NewTexts(before, model, dim, texts, origin, f);
    forall t | t in later ensures Entry(after, model, dim, t) == f(later[t], t) {
      if t in origin {
        assert Entry(before, model, dim, t) == f(origin[t], t);
      } else {
        assert Key(model, dim, t) in after && Key(model, dim, t) !in before;
        DecodeEncode(f(task, t));
      }
    }
  }

  // The answers are the direct embeddings exactly when no text of the batch was first embedded under a task that
  // gives it another vector: a condition on what the cache was asked before.
  lemma DirectExactly(origin: Origin, task: Task, texts: seq<string>, out: seq<Vector>, f: (Task, string) -> Vector)
    requires AnsweredBy(origin, task, texts, out, f)
    ensures out == Direct(f, task, texts) <==> forall t :: t in texts && t in origin ==> f(origin[t], t) == f(task, t)
  {
    if out == Direct(f, task, texts) {
      forall t | t in texts && t in origin ensures f(origin[t], t) == f(task, t) {
        var i :| 0 <= i < |texts| && texts[i] == t;
        assert out[i] == Direct(f, task, texts)[i];
      }
    }
  }

  // ----- a session: batch after batch -----

  datatype Batch = Batch(task: Task, texts: seq<string>)

  // The first batch that has the text.
  predicate First(batches: seq<Batch>, j: nat, t: string) {
    j < |batches| && t in batches[j].texts && forall i :: 0 <= i < j ==> t !in batches[i].texts
  }

  // The record after the first n batches over an earlier one.
  function OriginAfter(origin: Origin, batches: seq<Batch>, n: nat): Origin
    requires n <= |batches|
  {
    if n == 0 then origin else Remember(OriginAfter(origin, batches, n - 1), batches[n - 1].task, batches[n - 1].texts)
  }

  // From an empty record, the task on record is that of the first batch that had the text.
  lemma {:induction false} OriginIsFirst(batches: seq<Batch>, n: nat, t: string)
    requires n <= |batches|
    ensures var origin := OriginAfter(map[], batches, n);
            && (t in origin <==> exists j: nat :: j < n && First(batches, j, t))
            && (forall j: nat :: j < n && First(batches, j, t) ==> t in origin && origin[t] == batches[j].task)
  {
    if n > 0 {
      OriginIsFirst(batches, n - 1, t);
      var earlier, origin, last := OriginAfter(map[], batches, n - 1), OriginAfter(map[], batches, n), batches[n - 1];
      assert origin == Remember(earlier, last.task, last.texts);
      if t in earlier {
        var i: nat :| i < n - 1 && First(batches, i, t);
        assert !First(batches, n - 1, t);
        assert t in origin && origin[t] == earlier[t];
      } else {
        NeverHad(batches, n - 1, t);
        assert t in last.texts <==> First(batches, n - 1, t);
        assert t in origin <==> t in last.texts;
        assert t in origin ==> origin[t] == last.task;
      }
    }
  }

  // A text that none of the first n batches was the first to have is in none of them.
  lemma {:induction false} NeverHad(batches: seq<Batch>, n: nat, t: string)
    requires n <= |batches| && forall j: nat :: j < n ==> !First(batches, j, t)
    ensures forall i :: 0 <= i < n ==> t !in batches[i].texts
  {
    if n > 0 {
      NeverHad(batches, n - 1, t);
      assert !First(batches, n - 1, t);
    }
  }

  predicate HasNew(origin: Origin, texts: seq<string>) {
    exists t :: t in texts && t !in origin
  }

  // How many of the first n batches had a new text.
  function CallsAfter(origin: Origin, batches: seq<Batch>, n: nat): nat
    requires n <= |batches|
  {
    if n == 0 then 0
    else CallsAfter(origin, batches, n - 1)
         + if HasNew(OriginAfter(origin, batches, n - 1), batches[n - 1].texts) then 1 else 0
  }

  // One batch over a recorded cache, by a pointwise embedder.
  method RecordedBatch(c: Cache, e: Embedder, model: string, b: Batch, ghost origin: Origin, ghost f: (Task, string) -> Vector)
    returns (r: Result<seq<Vector>, CacheError>)
    requires c.Valid() && Pointwise(e, f) && Recorded(c.table, model, e.dim, origin, f)
    modifies c, e`calls
    ensures c.Valid() && Continues(old(c.table), c.table, model, e.dim, origin, b.task, b.texts, r, f)
    ensures e.calls == old(e.calls) + if HasNew(origin, b.texts) then 1 else 0
  {
    hide Decoded, Encoded, ValidTable, Recorded, Continues, Embedded, Hits, MissTexts;
    ghost var before := c.table;
    ghost var misses := MissTexts(before, model, e.dim, b.texts);
    r := EmbedBatch(c, e, model, b.task, b.texts);
    NewTexts(before, model, e.dim, b.texts, origin, f);
    if misses == [] {
      HitsContinue(before, model, e.dim, origin, b.task, b.texts, f);
    } else {
      assert misses[0] in misses;
      MissesContinue(before, c.table, model, e.dim, origin, b.task, b.texts, r, f);
    }
  }

  ghost predicate AnsweredAt(batches: seq<Batch>, i: nat, out: seq<Vector>, f: (Task, string) -> Vector)
    requires i < |batches|
  {
    AnsweredBy(OriginAfter(map[], batches, i), batches[i].task, batches[i].texts, out, f)
  }

  // A batch is answered as if embedded directly exactly when every one of its texts that an earlier batch was the
  // first to have gets the same vector under that batch's task.
  lemma SessionDirectExactly(batches: seq<Batch>, i: nat, out: seq<Vector>, f: (Task, string) -> Vector)
    requires i < |batches| && AnsweredAt(batches, i, out, f)
    ensures out == Direct(f, batches[i].task, batches[i].texts)
       <==> forall t, j: nat :: t in batches[i].texts && j < i && First(batches, j, t) ==> f(batches[j].task, t) == f(batches[i].task, t)
  {
    var origin := OriginAfter(map[], batches, i);
    DirectExactly(origin, batches[i].task, batches[i].texts, out, f);
    forall t ensures t in origin <==> exists j: nat :: j < i && First(batches, j, t)
             ensures forall j: nat :: j < i && First(batches, j, t) ==> t in origin && origin[t] == batches[j].task {
      OriginIsFirst(batches, i, t);
    }
  }

  // Any list of batches from the empty cache: every text is answered with its vector under the task of the first
  // batch that had it, so a batch is answered directly exactly when no earlier one first had one of its texts under
  // a task that gives it another vector; and the embedder is called once for each batch with a new text.
  method EmbedAll(e: Embedder, model: string, batches: seq<Batch>, ghost f: (Task, string) -> Vector)
    returns (c: Cache, outs: seq<seq<Vector>>)
    requires Pointwise(e, f)
    modifies e`calls
    ensures fresh(c) && c.Valid() && |outs| == |batches|
    ensures Recorded(c.table, model, e.dim, OriginAfter(map[], batches, |batches|), f)
    ensures forall i :: 0 <= i < |batches| ==> AnsweredAt(batches, i, outs[i], f)
    ensures e.calls == old(e.calls) + CallsAfter(map[], batches, |batches|)
  {
    hide Decoded, Encoded, ValidTable, Pointwise, AnsweredBy, Remember, Recorded;
    c := new Cache();
    outs := [];
    EmptyRecord(model, e.dim, f);
    var i := 0;
    while i < |batches|
      invariant 0 <= i == |outs| <= |batches| && fresh(c) && c.Valid() && Pointwise(e, f)
      invariant Recorded(c.table, model, e.dim, OriginAfter(map[], batches, i), f)
      invariant forall m :: 0 <= m < i ==> AnsweredAt(batches, m, outs[m], f)
      invariant e.calls == old(e.calls) + CallsAfter(map[], batches, i)
    {
      var r := RecordedBatch(c, e, model, batches[i], OriginAfter(map[], batches, i), f);
      outs := outs + [r.value];
      i := i + 1;
    }
  }

  lemma EmptyRecord(model: string, dim: nat, f: (Task, string) -> Vector)
    ensures ValidTable(map[]) && Recorded(map[], model, dim, map[], f)
  {
  }

  // A document batch and then a query batch of the same text: an embedder that minds the task is answered wrongly.
  method SecondTask(e: Embedder, model: string, text: string, ghost f: (Task, string) -> Vector) returns (outs: seq<seq<Vector>>)
    requires Pointwise(e, f) && f(RetrievalDocument, text) != f(RetrievalQuery, text)
    modifies e`calls
    ensures outs == [[f(RetrievalDocument, text)], [f(RetrievalDocument, text)]]
    ensures outs[1] != Direct(f, RetrievalQuery, [text])
  {
    hide Pointwise, Recorded, ValidTable;
    var c;
    ghost var batches := [Batch(RetrievalDocument, [text]), Batch(RetrievalQuery, [text])];
    c, outs := EmbedAll(e, model, [Batch(RetrievalDocument, [text]), Batch(RetrievalQuery, [text])], f);
    var before := OriginAfter(map[], batches, 1);
    assert [text][0] == text && text in batches[0].texts;
    OriginIsFirst(batches, 1, text);
    assert OriginAfter(map[], batches, 0) == map[];
    assert outs[0][0] == f(RetrievalDocument, text) && outs[1][0] == f(RetrievalDocument, text);
    assert outs[0] == [f(RetrievalDocument, text)] && outs[1] == [f(RetrievalDocument, text)];
    assert outs == [outs[0], outs[1]];
    assert Direct(f, RetrievalQuery, [text])[0] == f(RetrievalQuery, text);
  }

  // Such an embedder: it answers 0 to documents and 1 to queries.
  method TaskMinder() returns (e: Embedder, ghost f: (Task, string) -> Vector)
    ensures fresh(e) && Pointwise(e, f) && forall text :: f(RetrievalDocument, text) != f(RetrievalQuery, text)
  {
    f := (task: Task, t: string) => [if task.RetrievalDocument? then 0 else 1];
    e := new Embedder(1, (task: Task, texts: seq<string>) =>
      Success(seq(|texts|, i => [if task.RetrievalDocument? then 0 else 1])));
    forall task, texts: seq<string> ensures e.answer(task, texts) == Success(Direct(f, task, texts)) {
      assert e.answer(task, texts).value == Direct(f, task, texts);
    }
    forall text ensures f(RetrievalDocument, text) != f(RetrievalQuery, text) {
      assert f(RetrievalDocument, text)[0] != f(RetrievalQuery, text)[0];
    }
  }
}
