// Natural powers of a real base: exp(-lambda * dt) over integer milliseconds
// is Pow(r, dt) with r the per-millisecond survival rate.
module RealPower {

  function Pow(r: real, n: nat): real {
    if n == 0 then 1.0 else r * Pow(r, n - 1)
  }

  lemma {:induction false} PowAdd(r: real, m: nat, n: nat)
    ensures Pow(r, m + n) == Pow(r, m) * Pow(r, n)
  {
    if m > 0 {
      PowAdd(r, m - 1, n);
      assert Pow(r, m + n) == r * Pow(r, m + n - 1);
    }
  }

  lemma {:induction false} PowPositive(r: real, n: nat)
    requires r > 0.0
    ensures Pow(r, n) > 0.0
  {
    if n > 0 {
      PowPositive(r, n - 1);
    }
  }

  lemma {:induction false} PowNonNegative(r: real, n: nat)
    requires r >= 0.0
    ensures Pow(r, n) >= 0.0
  {
    if n > 0 {
      PowNonNegative(r, n - 1);
    }
  }

  // A base in [0, 1] shrinks as the exponent grows.
  lemma {:induction false} PowAntitone(r: real, m: nat, n: nat)
    requires 0.0 <= r <= 1.0 && m <= n
    ensures 0.0 <= Pow(r, n) <= Pow(r, m)
  {
    PowNonNegative(r, n);
    if m < n {
      PowAntitone(r, m, n - 1);
      assert r * Pow(r, n - 1) <= 1.0 * Pow(r, n - 1);
    }
  }

  // A base of at least 1 grows with the exponent.
  lemma {:induction false} PowMonotone(r: real, m: nat, n: nat)
    requires r >= 1.0 && m <= n
    ensures 1.0 <= Pow(r, m) <= Pow(r, n)
  {
    if m < n {
      PowMonotone(r, m, n - 1);
      assert r * Pow(r, n - 1) >= 1.0 * Pow(r, n - 1);
    } else if m > 0 {
      PowMonotone(r, m - 1, m - 1);
      assert r * Pow(r, m - 1) >= 1.0 * Pow(r, m - 1);
    }
  }

  // A base strictly below 1 never returns to 1.
  lemma PowBelowOne(r: real, n: nat)
    requires 0.0 <= r < 1.0 && n > 0
    ensures 0.0 <= Pow(r, n) < 1.0
  {
    PowAntitone(r, 1, n);
  }

  // ----- products and quotients, one fact at a time -----

  lemma MulNonNegative(a: real, b: real)
    requires a >= 0.0 && b >= 0.0
    ensures a * b >= 0.0
  {
  }

  lemma {:induction false} PowStrict(r: real, s: real, n: nat)
    requires 0.0 < r < s && n > 0
    ensures Pow(r, n) < Pow(s, n)
  {
    if n == 1 {
      assert Pow(r, 0) == Pow(s, 0) == 1.0;
    } else {
      PowStrict(r, s, n - 1);
      PowPositive(s, n - 1);
      var p, q := Pow(r, n - 1), Pow(s, n - 1);
      MulPositive(s - r, q);
      MulPositive(r, q - p);
      assert s * q - r * p == (s - r) * q + r * (q - p);
    }
  }

  lemma MulPositive(a: real, b: real)
    requires a > 0.0 && b > 0.0
    ensures a * b > 0.0
  {
  }

  lemma MulMonotone(a: real, b: real, c: real)
    requires a <= b && c >= 0.0
    ensures a * c <= b * c && c * a <= c * b
  {
    MulNonNegative(b - a, c);
    assert (b - a) * c == b * c - a * c;
    assert c * a == a * c && c * b == b * c;
  }

  lemma DivCancels(a: real, b: real)
    requires b != 0.0
    ensures (a / b) * b == a
  {
  }

  lemma DivMonotone(a: real, b: real, c: real)
    requires a <= b && c > 0.0
    ensures a / c <= b / c
  {
    assert b / c - a / c == (b - a) / c;
    DivCancels(b - a, c);
  }

  lemma ProperFraction(d: real, cap: real)
    requires 0.0 < d < cap
    ensures 0.0 < d / cap < 1.0
  {
    DivCancels(d, cap);
    if d / cap <= 0.0 {
      MulMonotone(d / cap, 0.0, cap);
    } else if d / cap >= 1.0 {
      MulMonotone(1.0, d / cap, cap);
    }
  }

  // c shrunk k times by the factor q.
  function Scaled(c: real, q: real, k: nat): real {
    if k == 0 then c else Scaled(c, q, k - 1) * q
  }

  lemma {:induction false} ScaledIsPower(c: real, q: real, k: nat)
    ensures Scaled(c, q, k) == c * Pow(q, k)
  {
    if k > 0 {
      ScaledIsPower(c, q, k - 1);
    }
  }
}
