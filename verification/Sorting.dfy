// Descending sort by score, as the ranking phases use it.
module Sorting {

  datatype Scored<T> = Scored(score: real, item: T)

  ghost predicate Descending<T>(s: seq<Scored<T>>) {
    forall i, j :: 0 <= i < j < |s| ==> s[i].score >= s[j].score
  }

  ghost predicate Distinct<T>(s: seq<T>) {
    forall i, j :: 0 <= i < j < |s| ==> s[i] != s[j]
  }

  // r lists the elements of s, each position of s exactly once.
  ghost predicate Rearranges<T>(r: seq<T>, s: seq<T>, from: seq<nat>) {
    && |r| == |s| == |from| && Distinct(from)
    && (forall i :: 0 <= i < |r| ==> from[i] < |s| && r[i] == s[from[i]])
    && multiset(r) == multiset(s)
  }

  method SortByScore<T>(s: seq<Scored<T>>) returns (r: seq<Scored<T>>, ghost from: seq<nat>)
    ensures Descending(r) && Rearranges(r, s, from)
  {
    r, from := [], [];
    var i := 0;
    while i < |s|
      invariant 0 <= i <= |s| && Descending(r)
      invariant Rearranges(r, s[..i], from)
    {
      assert s[..i + 1] == s[..i] + [s[i]];
      r, from := Insert(r, s[i], s[..i], from);
      i := i + 1;
    }
    assert s[..i] == s;
  }

  method Insert<T>(r0: seq<Scored<T>>, x: Scored<T>, ghost s: seq<Scored<T>>, ghost from0: seq<nat>)
    returns (r: seq<Scored<T>>, ghost from: seq<nat>)
    requires Descending(r0) && Rearranges(r0, s, from0)
    ensures Descending(r) && Rearranges(r, s + [x], from)
  {
    hide Rearranges;
    RearrangedLength(r0, s, from0);
    var k := |r0|;
    while k > 0 && r0[k - 1].score < x.score
      invariant 0 <= k <= |r0|
      invariant forall i :: k <= i < |r0| ==> r0[i].score < x.score
    {
      k := k - 1;
    }
    r := r0[..k] + [x] + r0[k..];
    from := from0[..k] + [|s|] + from0[k..];
    InsertRearranges(r0, s, from0, k, x);
  }

  lemma InsertRearranges<T>(r0: seq<T>, s: seq<T>, from0: seq<nat>, k: nat, x: T)
    requires Rearranges(r0, s, from0) && k <= |r0|
    ensures Rearranges(r0[..k] + [x] + r0[k..], s + [x], from0[..k] + [|s|] + from0[k..])
  {
    hide Distinct;
    var r, from := r0[..k] + [x] + r0[k..], from0[..k] + [|s|] + from0[k..];
    InsertContents(r0, s, k, x);
    InsertIndices(from0, k, |s|);
    forall i | 0 <= i < |r| ensures from[i] < |s| + 1 && r[i] == (s + [x])[from[i]] {
      InsertAt(r0, s, from0, k, x, i);
    }
  }

  lemma InsertContents<T>(r0: seq<T>, s: seq<T>, k: nat, x: T)
    requires k <= |r0| && multiset(r0) == multiset(s)
    ensures multiset(r0[..k] + [x] + r0[k..]) == multiset(s + [x])
  {
    assert r0 == r0[..k] + r0[k..];
  }

  lemma InsertAt<T>(r0: seq<T>, s: seq<T>, from0: seq<nat>, k: nat, x: T, i: nat)
    requires k <= |r0| == |from0| && i <= |r0|
    requires forall j :: 0 <= j < |r0| ==> from0[j] < |s| && r0[j] == s[from0[j]]
    ensures var from := from0[..k] + [|s|] + from0[k..];
            from[i] < |s| + 1 && (r0[..k] + [x] + r0[k..])[i] == (s + [x])[from[i]]
  {
    var from := from0[..k] + [|s|] + from0[k..];
    if i == k {
      assert from[i] == |s|;
    } else {
      var j := if i < k then i else i - 1;
      assert from[i] == from0[j] && (r0[..k] + [x] + r0[k..])[i] == r0[j];
    }
  }

  lemma RearrangedLength<T>(r: seq<T>, s: seq<T>, from: seq<nat>)
    requires Rearranges(r, s, from)
    ensures |r| == |s| == |from|
  {
  }

  lemma InsertIndices(from: seq<nat>, k: nat, n: nat)
    requires Distinct(from) && k <= |from| && forall i :: 0 <= i < |from| ==> from[i] < n
    ensures Distinct(from[..k] + [n] + from[k..])
  {
  }
}
