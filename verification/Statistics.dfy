/** The numbers a statistics row shows, kept as running totals: count (or time held), mean,
    variance and the high and low water marks, in integer arithmetic. */
module Statistics {

  /** Running totals; all zero when nothing has been accumulated. */
  datatype Totals = Totals(count: nat, sum: nat, sqsum: nat, hwm: nat, lwm: nat) {
    function Mean(): nat {
      if count == 0 then 0 else sum / count
    }

    /** Mean of the squares less square of the mean, each rounded down first. */
    function Variance(): int {
      if count == 0 then 0 else sqsum / count - Mean() * Mean()
    }
  }

  const NONE := Totals(0, 0, 0, 0, 0)

  function Max(a: nat, b: nat): nat { if a < b then b else a }

  function Min(a: nat, b: nat): nat { if a < b then a else b }

  function Add(t: Totals, v: nat): Totals {
    Totals(t.count + 1, t.sum + v, t.sqsum + v * v,
           if t.count == 0 then v else Max(t.hwm, v), if t.count == 0 then v else Min(t.lwm, v))
  }

  /** The totals of a sequence of samples. */
  function Fold(vs: seq<nat>): Totals {
    if vs == [] then NONE else Add(Fold(vs[..|vs| - 1]), vs[|vs| - 1])
  }

  /** A value held for `d` units of time: one sample for each. */
  function Held(t: Totals, v: nat, d: nat): Totals {
    if d == 0 then t else Add(Held(t, v, d - 1), v)
  }

  /** The same without counting the units off. */
  function Hold(t: Totals, v: nat, d: nat): Totals {
    if d == 0 then t
    else Totals(t.count + d, t.sum + v * d, t.sqsum + v * v * d,
                if t.count == 0 then v else Max(t.hwm, v), if t.count == 0 then v else Min(t.lwm, v))
  }

  lemma FoldSnoc(vs: seq<nat>, v: nat)
    ensures Fold(vs + [v]) == Add(Fold(vs), v)
  {
    assert (vs + [v])[..|vs + [v]| - 1] == vs;
  }

  // ---------- meaning ----------

  lemma {:induction false} FoldMarks(vs: seq<nat>)
    ensures Fold(vs).count == |vs|
    ensures vs != [] ==> Fold(vs).hwm in vs && Fold(vs).lwm in vs
    ensures forall v :: v in vs ==> Fold(vs).lwm <= v <= Fold(vs).hwm
  {
    if vs != [] {
      var (init, last) := (vs[..|vs| - 1], vs[|vs| - 1]);
      FoldMarks(init);
      assert vs == init + [last];
    }
  }

  function SumOf(vs: seq<nat>): nat {
    if vs == [] then 0 else vs[0] + SumOf(vs[1..])
  }

  function SumOfSquares(vs: seq<nat>): nat {
    if vs == [] then 0 else vs[0] * vs[0] + SumOfSquares(vs[1..])
  }

  lemma {:induction false} SumsSnoc(vs: seq<nat>, v: nat)
    ensures SumOf(vs + [v]) == SumOf(vs) + v
    ensures SumOfSquares(vs + [v]) == SumOfSquares(vs) + v * v
  {
    var all := vs + [v];
    if vs == [] {
      assert all == [v] && all[1..] == [];
      assert SumOfSquares([]) == 0;
    } else {
      assert all[0] == vs[0] && all[1..] == vs[1..] + [v];
      SumsSnoc(vs[1..], v);
    }
  }

  /** The totals are the sum of the samples and the sum of their squares. */
  lemma {:induction false} FoldSums(vs: seq<nat>)
    ensures Fold(vs).sum == SumOf(vs) && Fold(vs).sqsum == SumOfSquares(vs)
  {
    if vs != [] {
      var (init, last) := (vs[..|vs| - 1], vs[|vs| - 1]);
      FoldSums(init);
      SumsSnoc(init, last);
      assert vs == init + [last];
    }
  }

  /** What a row shows of its samples: the mean rounded down, and the mean of the squares
      rounded down less the square of the mean shown. A row without any shows zeros. */
  lemma RowMeaning(vs: seq<nat>)
    requires vs != []
    ensures var (n, t) := (|vs|, Fold(vs));
            && t.count == n
            && n * t.Mean() <= SumOf(vs) < n * t.Mean() + n
            && n * (t.Variance() + t.Mean() * t.Mean()) <= SumOfSquares(vs)
            && SumOfSquares(vs) < n * (t.Variance() + t.Mean() * t.Mean()) + n
  {
    FoldMarks(vs);
    FoldSums(vs);
    DivBounds(SumOf(vs), |vs|);
    DivBounds(SumOfSquares(vs), |vs|);
    assert Fold(vs).Variance() + Fold(vs).Mean() * Fold(vs).Mean() == SumOfSquares(vs) / |vs|;
  }

  lemma EmptyRow()
    ensures var t := Fold([]); t.count == t.Mean() == t.hwm == t.lwm == 0 && t.Variance() == 0
  {
  }

  /** Sum over the samples of the square of `n*v - s`. */
  function Spread(vs: seq<nat>, n: int, s: int): int {
    if vs == [] then 0
    else Spread(vs[..|vs| - 1], n, s) + (n * vs[|vs| - 1] - s) * (n * vs[|vs| - 1] - s)
  }

  /** The totals give the spread around any point. */
  lemma {:induction false} FoldSpread(vs: seq<nat>, n: int, s: int)
    ensures Spread(vs, n, s) == n * n * Fold(vs).sqsum - 2 * (n * s) * Fold(vs).sum + s * s * Fold(vs).count
    ensures 0 <= Spread(vs, n, s)
  {
    if vs != [] {
      var (init, last) := (vs[..|vs| - 1], vs[|vs| - 1]);
      FoldSpread(init, n, s);
      Square(n, last, s);
      Distribute(n * n, Fold(init).sqsum, last * last);
      Distribute(2 * (n * s), Fold(init).sum, last);
      Distribute(s * s, Fold(init).count, 1);
    }
  }

  lemma Square(n: int, v: int, s: int)
    ensures (n * v - s) * (n * v - s) == n * n * (v * v) - 2 * (n * s) * v + s * s
    ensures 0 <= (n * v - s) * (n * v - s)
  {
    var x := n * v;
    assert (x - s) * (x - s) == x * x - 2 * s * x + s * s;
    assert x * x == n * n * (v * v);
    assert 2 * s * x == 2 * (n * s) * v;
    NotNegative(x - s);
  }

  lemma NotNegative(x: int)
    ensures 0 <= x * x
  {
  }

  lemma Distribute(a: int, b: int, c: int)
    ensures a * (b + c) == a * b + a * c
  {
  }

  /** Count times the sum of squares is at least the square of the sum. */
  lemma {:induction false} CauchySchwarz(vs: seq<nat>)
    ensures Fold(vs).sum * Fold(vs).sum <= Fold(vs).count * Fold(vs).sqsum
  {
    if vs != [] {
      var (init, v) := (Fold(vs[..|vs| - 1]), vs[|vs| - 1]);
      CauchySchwarz(vs[..|vs| - 1]);
      FoldSpread(vs[..|vs| - 1], 1, v);
      CauchySchwarzStep(init.count, init.sum, init.sqsum, v);
    }
  }

  lemma CauchySchwarzStep(n: nat, s: nat, q: nat, v: nat)
    requires s * s <= n * q && 0 <= q - 2 * v * s + v * v * n
    ensures (s + v) * (s + v) <= (n + 1) * (q + v * v)
  {
    Expand(n, q, s, v);
  }

  lemma Expand(n: int, q: int, s: int, v: int)
    ensures (n + 1) * (q + v * v) - (s + v) * (s + v) == (n * q - s * s) + (q - 2 * v * s + v * v * n)
  {
    assert (n + 1) * (q + v * v) == n * q + n * (v * v) + q + v * v;
    assert (s + v) * (s + v) == s * s + 2 * v * s + v * v;
    assert n * (v * v) == v * v * n;
  }

  lemma DivBounds(a: nat, n: nat)
    requires 0 < n
    ensures n * (a / n) <= a < n * (a / n) + n
  {
  }

  lemma MulMonotone(a: nat, b: nat, c: nat, d: nat)
    requires a <= b && c <= d
    ensures a * c <= b * d
  {
    assert a * c <= b * c;
    assert b * c <= b * d;
  }

  /** `n*n` times the true variance of the samples, which is an integer. */
  function ScaledVariance(t: Totals): int {
    t.count * t.sqsum - t.sum * t.sum
  }

  /** That is, `n*n` times the mean of the squared distances from the exact mean `s/n`. */
  lemma ScaledVarianceMeaning(vs: seq<nat>)
    ensures Spread(vs, |vs|, Fold(vs).sum) == |vs| * ScaledVariance(Fold(vs))
  {
    FoldMarks(vs);
    FoldSpread(vs, |vs|, Fold(vs).sum);
    SpreadAtMean(|vs|, Fold(vs).sum, Fold(vs).sqsum);
  }

  lemma SpreadAtMean(n: int, s: int, q: int)
    ensures n * n * q - 2 * (n * s) * s + s * s * n == n * (n * q - s * s)
  {
    var ss := s * s;
    assert (n * s) * s == n * ss;
    assert s * s * n == n * ss;
    assert n * n * q == n * (n * q);
    Distribute(n, n * q, -ss);
  }

  lemma SquareOfProduct(n: int, m: int)
    ensures (n * m) * (n * m) == n * (n * (m * m))
  {
  }

  lemma SquareSplit(n: int, m: int, r: int)
    ensures (n * m + r) * (n * m + r) == n * (n * (m * m)) + (2 * (n * m) * r + r * r)
  {
    var x := n * m;
    SquareOfProduct(n, m);
    assert (x + r) * (x + r) == x * x + 2 * x * r + r * r;
  }

  lemma ScaledDifference(n: int, a: int, b: int)
    ensures n * n * (a - b) == n * (n * a) - n * (n * b)
  {
    assert n * (a - b) == n * a - n * b;
    assert n * n * (a - b) == n * (n * (a - b));
    Distribute(n, n * a, -(n * b));
  }

  /** With `m = s / n` and `e = q / n` rounded down, how far `e - m*m` is from `q/n - (s/n)^2`. */
  lemma RoundedVariance(n: nat, s: nat, q: nat)
    requires 0 < n && s * s <= n * q
    ensures var (m, e) := (s / n, q / n);
            && m * m <= e
            && -(n * n) < n * n * (e - m * m) - (n * q - s * s) < n * n * (2 * m + 1)
  {
    var (m, e) := (s / n, q / n);
    DivBounds(s, n);
    DivBounds(q, n);
    RoundedVarianceOf(n, s, q, m, e);
  }

  lemma RoundedVarianceOf(n: nat, s: nat, q: nat, m: nat, e: nat)
    requires 0 < n && s * s <= n * q && e == q / n
    requires n * m <= s < n * m + n && n * e <= q < n * e + n
    ensures m * m <= e
    ensures -(n * n) < n * n * (e - m * m) - (n * q - s * s) < n * n * (2 * m + 1)
  {
    var r := s - n * m;
    SquareSplit(n, m, r);
    HighSide(n, m, r);
    LowSide(n, e, q);
    ScaledDifference(n, e, m * m);
    RemainderTerms(n, m, r);
    MeanSquareBelow(n, m, q);
  }

  lemma RemainderTerms(n: nat, m: nat, r: nat)
    ensures 0 <= 2 * (n * m) * r + r * r
  {
  }

  lemma MeanSquareBelow(n: nat, m: nat, q: nat)
    requires 0 < n && n * (n * (m * m)) <= n * q
    ensures m * m <= q / n
  {
    CancelFactor(n, n * (m * m), q);
    QuotientAtLeast(n, m * m, q);
  }

  lemma CancelFactor(n: nat, a: nat, b: nat)
    requires 0 < n && n * a <= n * b
    ensures a <= b
  {
  }

  lemma CancelStrict(n: nat, a: nat, b: nat)
    requires n * a < n * b
    ensures a < b
  {
  }

  lemma QuotientAtLeast(n: nat, x: nat, q: nat)
    requires 0 < n && n * x <= q
    ensures x <= q / n
  {
    DivBounds(q, n);
    Distribute(n, q / n, 1);
    CancelStrict(n, x, q / n + 1);
  }

  lemma LowSide(n: nat, e: nat, q: nat)
    requires 0 < n && n * e <= q < n * e + n
    ensures n * (n * e) <= n * q < n * (n * e) + n * n
  {
    assert n * (n * e) <= n * q;
    assert n * q < n * (n * e + n);
    Distribute(n, n * e, n);
  }

  lemma HighSide(n: nat, m: nat, r: nat)
    requires r < n
    ensures 2 * (n * m) * r + r * r < n * n * (2 * m + 1)
  {
    MulMonotone(2 * (n * m), 2 * (n * m), r, n);
    assert r * r < n * n;
    assert 2 * (n * m) * n == n * n * (2 * m);
    Distribute(n * n, 2 * m, 1);
  }

  /** For any non-empty samples the variance shown is never negative, and it is above the
      true variance less 1 and below the true variance plus twice the mean plus 1. */
  lemma VarianceIsClose(vs: seq<nat>)
    requires vs != []
    ensures var (t, n) := (Fold(vs), |vs|);
            && 0 <= t.Variance()
            && -(n * n) < n * n * t.Variance() - ScaledVariance(t) < n * n * (2 * t.Mean() + 1)
  {
    FoldMarks(vs);
    CauchySchwarz(vs);
    RoundedVariance(Fold(vs).count, Fold(vs).sum, Fold(vs).sqsum);
  }

  lemma SumStep(n: nat, s: nat, v: nat, lo: nat, hi: nat)
    requires n * lo <= s <= n * hi && lo <= v <= hi
    ensures (n + 1) * lo <= s + v <= (n + 1) * hi
  {
  }

  lemma {:induction false} SumBetweenMarks(vs: seq<nat>, lo: nat, hi: nat)
    requires forall i :: 0 <= i < |vs| ==> lo <= vs[i] <= hi
    ensures |vs| * lo <= Fold(vs).sum <= |vs| * hi
  {
    if vs != [] {
      var (init, last) := (vs[..|vs| - 1], vs[|vs| - 1]);
      SumBetweenMarks(init, lo, hi);
      SumStep(|init|, Fold(init).sum, last, lo, hi);
    }
  }

  /** The rounded mean lies between the marks. */
  lemma MeanBetweenMarks(vs: seq<nat>)
    requires vs != []
    ensures Fold(vs).lwm <= Fold(vs).Mean() <= Fold(vs).hwm
  {
    FoldMarks(vs);
    var t := Fold(vs);
    assert forall i :: 0 <= i < |vs| ==> vs[i] in vs;
    SumBetweenMarks(vs, t.lwm, t.hwm);
    QuotientBetween(t.sum, |vs|, t.lwm, t.hwm);
  }

  lemma QuotientBetween(s: nat, n: nat, lo: nat, hi: nat)
    requires 0 < n && n * lo <= s <= n * hi
    ensures lo <= s / n <= hi
  {
    DivBounds(s, n);
    QuotientAtLeast(n, lo, s);
    CancelFactor(n, s / n, hi);
  }

  function Repeat(v: nat, d: nat): seq<nat> {
    seq(d, _ => v)
  }

  lemma HoldOneMore(t: Totals, v: nat, d: nat)
    requires 0 < d
    ensures Add(Hold(t, v, d - 1), v) == Hold(t, v, d)
  {
    Distribute(v, d - 1, 1);
    Distribute(v * v, d - 1, 1);
  }

  /** The closed form is the sample-by-sample one. */
  lemma {:induction false} HoldIsHeld(t: Totals, v: nat, d: nat)
    ensures Hold(t, v, d) == Held(t, v, d)
  {
    if 0 < d {
      HoldIsHeld(t, v, d - 1);
      HoldOneMore(t, v, d);
    }
  }

  /** Holding a value for a time is the same as that many samples of it. */
  lemma {:induction false} HeldIsRepeat(vs: seq<nat>, v: nat, d: nat)
    ensures Fold(vs + Repeat(v, d)) == Held(Fold(vs), v, d)
  {
    if d == 0 {
      assert vs + Repeat(v, 0) == vs;
    } else {
      var all := vs + Repeat(v, d);
      HeldIsRepeat(vs, v, d - 1);
      assert all[..|all| - 1] == vs + Repeat(v, d - 1);
    }
  }

  predicate Sane(t: Totals) {
    0 < t.count ==> t.lwm <= t.Mean() <= t.hwm && 0 <= t.Variance()
  }

  predicate Constant(t: Totals, v: nat) {
    t.Mean() == t.hwm == t.lwm == v && t.Variance() == 0
  }

  lemma SaneTotals(vs: seq<nat>)
    ensures Sane(Fold(vs))
  {
    FoldMarks(vs);
    if vs != [] {
      MeanBetweenMarks(vs);
      VarianceIsClose(vs);
    }
  }

  lemma QuotientOfProduct(v: nat, d: nat)
    requires 0 < d
    ensures v * d / d == v
  {
    assert v * d == d * v;
    QuotientBetween(v * d, d, v, v);
  }

  lemma ConstantTotals(v: nat, d: nat)
    requires 0 < d
    ensures Constant(Totals(d, v * d, v * v * d, v, v), v)
  {
    QuotientOfProduct(v, d);
    QuotientOfProduct(v * v, d);
  }

  /** A window that saw a single value shows it as mean and as both marks, with variance 0. */
  lemma ConstantWindow(v: nat, d: nat)
    requires 0 < d
    ensures Fold(Repeat(v, d)).count == d && Constant(Fold(Repeat(v, d)), v)
  {
    HeldIsRepeat([], v, d);
    HoldIsHeld(NONE, v, d);
    assert [] + Repeat(v, d) == Repeat(v, d);
    ConstantTotals(v, d);
    assert Fold(Repeat(v, d)) == Totals(d, v * d, v * v * d, v, v);
  }
}
