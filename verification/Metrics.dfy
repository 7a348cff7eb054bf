// Ranking quality of one query's hits: nDCG, reciprocal rank, recall at k.
module Metrics {
  import opened RealPower

  // Stands for the values of 1 / log2(i + 2): positive and strictly decreasing.
  ghost predicate Discounts(d: seq<real>) {
    && (forall i :: 0 <= i < |d| ==> d[i] > 0.0)
    && (forall i, j :: 0 <= i < j < |d| ==> d[i] > d[j])
  }

  function Golds(flags: seq<bool>): (n: nat)
    ensures n <= |flags|
  {
    if flags == [] then 0
    else Golds(flags[..|flags| - 1]) + if flags[|flags| - 1] then 1 else 0
  }

  function Gain(flags: seq<bool>, d: seq<real>): real
    requires |flags| <= |d|
  {
    if flags == [] then 0.0
    else Gain(flags[..|flags| - 1], d) + if flags[|flags| - 1] then d[|flags| - 1] else 0.0
  }

  // The gain of k gold hits in the first k places.
  function IdealGain(d: seq<real>, k: nat): real
    requires k <= |d|
  {
    if k == 0 then 0.0 else IdealGain(d, k - 1) + d[k - 1]
  }

  function Ndcg(flags: seq<bool>, d: seq<real>): real
    requires |flags| <= |d|
  {
    if Golds(flags) == 0 || IdealGain(d, Golds(flags)) == 0.0 then 0.0 else Gain(flags, d) / IdealGain(d, Golds(flags))
  }

  method ComputeNdcg(flags: seq<bool>, d: seq<real>) returns (r: real)
    requires |flags| <= |d|
    ensures r == Ndcg(flags, d)
  {
    var dcg, relCount := 0.0, 0;
    for i := 0 to |flags|
      invariant dcg == Gain(flags[..i], d) && relCount == Golds(flags[..i])
    {
      assert flags[..i + 1][..i] == flags[..i];
      if flags[i] {
        dcg, relCount := dcg + d[i], relCount + 1;
      }
    }
    assert flags[..|flags|] == flags;
    if relCount == 0 {
      return 0.0;
    }
    var idcg := 0.0;
    for i := 0 to relCount
      invariant idcg == IdealGain(d, i)
    {
      idcg := idcg + d[i];
    }
    if idcg == 0.0 {
      return 0.0;
    }
    return dcg / idcg;
  }

  // All gold hits come first.
  predicate GoldFirst(flags: seq<bool>) { forall i :: 0 <= i < Golds(flags) ==> flags[i] }

  lemma {:induction false} IdealPositive(d: seq<real>, k: nat)
    requires Discounts(d) && k <= |d|
    ensures IdealGain(d, k) >= 0.0 && (k > 0 ==> IdealGain(d, k) > 0.0)
  {
    if k > 0 {
      IdealPositive(d, k - 1);
    }
  }

  lemma {:induction false} AllGold(flags: seq<bool>, k: nat)
    requires k <= |flags| && forall i :: 0 <= i < k ==> flags[i]
    ensures Golds(flags[..k]) == k
  {
    if k > 0 {
      assert flags[..k][..k - 1] == flags[..k - 1];
      AllGold(flags, k - 1);
    }
  }

  lemma {:induction false} PrefixGolds(flags: seq<bool>, k: nat)
    requires k <= |flags|
    ensures Golds(flags[..k]) <= Golds(flags)
    decreases |flags|
  {
    if k < |flags| {
      PrefixGolds(flags[..|flags| - 1], k);
      assert flags[..|flags| - 1][..k] == flags[..k];
    } else {
      assert flags[..k] == flags;
    }
  }

  lemma GoldFirstStep(flags: seq<bool>)
    requires flags != []
    ensures var n := |flags| - 1;
            GoldFirst(flags) <==> GoldFirst(flags[..n]) && (flags[n] ==> Golds(flags[..n]) == n)
  {
    var n := |flags| - 1;
    var before, c := flags[..n], Golds(flags[..n]);
    assert forall i :: 0 <= i < n ==> before[i] == flags[i];
    if flags[n] && c < n && GoldFirst(flags) {
      AllGold(before, c + 1);
      PrefixGolds(before, c + 1);
    }
  }

  // No arrangement of the gold hits gains more than the ideal one, and only the ideal one gains as much.
  lemma {:induction false} GainAtMostIdeal(flags: seq<bool>, d: seq<real>)
    requires Discounts(d) && |flags| <= |d|
    ensures 0.0 <= Gain(flags, d) <= IdealGain(d, Golds(flags))
    ensures Gain(flags, d) == IdealGain(d, Golds(flags)) <==> GoldFirst(flags)
    ensures Golds(flags) > 0 ==> Gain(flags, d) > 0.0
  {
    if flags != [] {
      hide GoldFirst;
      var n := |flags| - 1;
      GainAtMostIdeal(flags[..n], d);
      GoldFirstStep(flags);
      assert flags[n] ==> d[Golds(flags[..n])] >= d[n];
    }
  }

  // Between 0 and 1; 1 exactly for a non-empty run of gold hits at the top; 0 exactly without gold hits.
  lemma NdcgRange(flags: seq<bool>, d: seq<real>)
    requires Discounts(d) && |flags| <= |d|
    ensures 0.0 <= Ndcg(flags, d) <= 1.0
    ensures Ndcg(flags, d) == 1.0 <==> Golds(flags) > 0 && GoldFirst(flags)
    ensures Ndcg(flags, d) == 0.0 <==> Golds(flags) == 0
  {
    var g, ideal := Gain(flags, d), IdealGain(d, Golds(flags));
    GainAtMostIdeal(flags, d);
    IdealPositive(d, Golds(flags));
    if Golds(flags) > 0 {
      QuotientRange(g, ideal);
    }
  }

  lemma FractionRange(x: real, b: real, a: real)
    requires x * b == a && 0.0 < a <= b
    ensures 0.0 < x <= 1.0
    ensures x == 1.0 <==> a == b
  {
    assert a == b - (1.0 - x) * b;
    assert x > 1.0 ==> (1.0 - x) * b < 0.0;
    assert x < 1.0 ==> (1.0 - x) * b > 0.0;
    assert x <= 0.0 ==> (1.0 - x) * b >= b;
  }

  lemma QuotientRange(a: real, b: real)
    requires 0.0 < a <= b
    ensures 0.0 < a / b <= 1.0
    ensures a / b == 1.0 <==> a == b
  {
    DivCancels(a, b);
    var x := a / b;
    assert x * b == a;
    FractionRange(x, b, a);
  }

  // A gold hit moved up past the other hit just before it.
  function Promoted(flags: seq<bool>, i: nat): seq<bool>
    requires i + 1 < |flags|
  {
    flags[i := true][i + 1 := false]
  }

  lemma {:induction false} PromotedGain(flags: seq<bool>, d: seq<real>, i: nat)
    requires |flags| <= |d| && i + 1 < |flags| && !flags[i] && flags[i + 1]
    ensures Golds(Promoted(flags, i)) == Golds(flags)
    ensures Gain(Promoted(flags, i), d) == Gain(flags, d) + d[i] - d[i + 1]
    decreases |flags|
  {
    var n := |flags| - 1;
    var p := Promoted(flags, i);
    if i + 1 < n {
      PromotedGain(flags[..n], d, i);
      assert p[..n] == Promoted(flags[..n], i);
    } else {
      assert p[..n][..i] == flags[..n][..i];
    }
  }

  // Promoting a gold hit strictly raises the score.
  lemma PromotionRaisesNdcg(flags: seq<bool>, d: seq<real>, i: nat)
    requires Discounts(d) && |flags| <= |d| && i + 1 < |flags| && !flags[i] && flags[i + 1]
    ensures Ndcg(Promoted(flags, i), d) > Ndcg(flags, d)
  {
    PromotedGain(flags, d, i);
    var k := Golds(flags);
    assert k > 0 by {
      assert flags[..i + 2][..i + 1] == flags[..i + 1];
      PrefixGolds(flags, i + 2);
    }
    IdealPositive(d, k);
    StrictQuotient(Gain(flags, d), Gain(Promoted(flags, i), d), IdealGain(d, k));
  }

  lemma StrictQuotient(a: real, b: real, q: real)
    requires a < b && q > 0.0
    ensures a / q < b / q
  {
    DivCancels(a, q);
    DivCancels(b, q);
    var x, y := a / q, b / q;
    if x >= y {
      MulMonotone(y, x, q);
    }
  }

  // ----- reciprocal rank and recall at k -----

  method Mrr(flags: seq<bool>) returns (r: real)
    ensures (forall i :: 0 <= i < |flags| ==> !flags[i]) ==> r == 0.0
    ensures forall i :: 0 <= i < |flags| && flags[i] && (forall j :: 0 <= j < i ==> !flags[j]) ==> r == 1.0 / (i + 1) as real
  {
    for i := 0 to |flags|
      invariant forall j :: 0 <= j < i ==> !flags[j]
    {
      if flags[i] {
        return 1.0 / (i + 1) as real;
      }
    }
    return 0.0;
  }

  method RecallAt(flags: seq<bool>, k0: int, hasGold: bool) returns (r: real)
    ensures r == if hasGold && exists i :: 0 <= i < |flags| && i < k0 && flags[i] then 1.0 else 0.0
  {
    if !hasGold {
      return 0.0;
    }
    var k := k0;
    if |flags| < k {
      k := |flags|;
    }
    var i := 0;
    while i < k
      invariant 0 <= i && (i <= k || i == 0) && k <= |flags| && forall j :: 0 <= j < i ==> !flags[j]
    {
      if flags[i] {
        return 1.0;
      }
      i := i + 1;
    }
    return 0.0;
  }
}
