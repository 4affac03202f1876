/** The exact order-statistic interval for a median. */
module MedianInterval {
  import opened Wrappers
  import opened Binomial

  const EXACT_MAX_N: nat := 1000

  /** The `p`-th percentile of sorted values, by index; None when there are none. */
  function Pct(sorted: seq<real>, p: nat): (r: Option<real>)
    ensures r.None? <==> sorted == []
    ensures forall i: nat :: i < |sorted| && 100 * i <= p * |sorted| < 100 * i + 100 ==> r == Some(sorted[i])
    ensures p * |sorted| >= 100 * |sorted| && sorted != [] ==> r == Some(sorted[|sorted| - 1])
  {
    if sorted == [] then None
    else
      var i := p * |sorted| / 100;
      Some(if i >= |sorted| then sorted[|sorted| - 1] else sorted[i])
  }

  predicate Ascending(v: seq<real>) {
    forall i, j :: 0 <= i < j < |v| ==> v[i] <= v[j]
  }

  /** Rounding to the nearest integer, ties to the even one. */
  function RoundHalfEven(x: real): (r: int)
    ensures r as real - 0.5 <= x <= r as real + 0.5
    ensures x == r as real - 0.5 || x == r as real + 0.5 ==> r % 2 == 0
  {
    var f := x.Floor;
    if x - f as real < 0.5 || (x - f as real == 0.5 && f % 2 == 0) then f else f + 1
  }

  /** The share of outcomes that may be missed, in millionths. */
  function Alpha(conf: real): (alpha: int)
    ensures alpha as real - 0.5 <= 1000000.0 - 1000000.0 * conf <= alpha as real + 0.5
  {
    RoundHalfEven((1.0 - conf) * 1000000.0)
  }

  predicate NinetyFive(conf: real) {
    -0.000000001 < conf - 0.95 < 0.000000001
  }

  /**
   * The interval and the method that produced it; above the exact range the values come from an approximation,
   * at one confidence only.
   */
  datatype Interval = TooSmall | Exact(lo: real, hi: real) | Approximate | Unsupported

  /** The loop's test: trimming k order statistics from each end keeps the coverage. */
  predicate MeetsBound(n: nat, k: nat, alpha: int) {
    2 * SumBelow(n, k) * 1000000 <= alpha * Pow2(n)
  }

  /** What coverage means: of all 2^n outcomes, at least (1 - alpha/10^6) have between k and n - k ones. */
  ghost predicate Covers(n: nat, k: nat, alpha: int) {
    1000000 * |Covered(n, k)| >= (1000000 - alpha) * Pow2(n)
  }

  lemma CoversIffMeetsBound(n: nat, k: nat, alpha: int)
    requires 2 * k <= n
    ensures Covers(n, k, alpha) <==> MeetsBound(n, k, alpha)
  {
    CoveredSize(n, k);
    var p, s := Pow2(n), SumBelow(n, k);
    assert (1000000 - alpha) * p == 1000000 * p - alpha * p;
  }

  lemma MeetsBoundMonotone(n: nat, j: nat, k: nat, alpha: int)
    requires j <= k && MeetsBound(n, k, alpha)
    ensures MeetsBound(n, j, alpha)
  {
    SumBelowMonotone(n, j, k);
  }

  /**
   * The trim k is the largest one, up to n / 2, whose coverage is real; when not even k = 1 is covered the
   * function still answers with the full range.
   */
  ghost predicate WidestTrim(n: nat, k: nat, alpha: int) {
    && 1 <= k <= n / 2
    && (Covers(n, 1, alpha) ==> Covers(n, k, alpha) && forall j :: k < j <= n / 2 ==> !Covers(n, j, alpha))
    && (!Covers(n, 1, alpha) ==> k == 1)
  }

  /** Build the coefficients by exact division, stop at the first sum over the bound, and trim by what passed. */
  method MedianCi(v: seq<real>, conf: real) returns (r: Interval, best: nat)
    ensures r.TooSmall? <==> |v| < 8
    ensures r.Approximate? <==> |v| > EXACT_MAX_N && 0.949999999 < conf < 0.950000001
    ensures r.Unsupported? <==> |v| > EXACT_MAX_N && !(0.949999999 < conf < 0.950000001)
    ensures r.Exact? ==> WidestTrim(|v|, best, Alpha(conf)) && r.lo == v[best - 1] && r.hi == v[|v| - best]
  {
    hide Choose, SumBelow, Pow2, WidestTrim, MeetsBound;
    var n := |v|;
    best := 1;
    if n < 8 { return TooSmall, best; }
    if n > EXACT_MAX_N { return if NinetyFive(conf) then Approximate else Unsupported, best; }
    var total := Pow2(n);
    var alpha := Alpha(conf);
    var term, cum := 1, 0;
    var k := 1;
    NoTerms(n);
    while k <= n / 2
      invariant 1 <= k <= n / 2 + 1
      invariant term == Choose(n, k - 1) && cum == SumBelow(n, k - 1)
      invariant best == (if k == 1 then 1 else k - 1)
      invariant forall j :: 1 <= j < k ==> MeetsBound(n, j, alpha)
    {
      cum := cum + term;
      OneMoreTerm(n, k, alpha);
      if 2 * cum * 1000000 > alpha * total { break; }
      best := k;
      NextTerm(n, k);
      term := term * (n - k + 1) / k;
      k := k + 1;
    }
    TrimIsWidest(n, k, best, alpha);
    TrimInRange(n, best, alpha);
    return Exact(v[best - 1], v[n - best]), best;
  }

  lemma NoTerms(n: nat)
    ensures Choose(n, 0) == 1 && SumBelow(n, 0) == 0
  {
  }

  lemma OneMoreTerm(n: nat, k: nat, alpha: int)
    requires k >= 1
    ensures SumBelow(n, k) == SumBelow(n, k - 1) + Choose(n, k - 1)
    ensures MeetsBound(n, k, alpha) <==> 2 * SumBelow(n, k) * 1000000 <= alpha * Pow2(n)
  {
    hide Choose, Pow2;
  }

  /** The integer division that produces the next coefficient leaves no remainder. */
  lemma NextTerm(n: nat, k: nat)
    requires 1 <= k <= n
    ensures Choose(n, k - 1) * (n - k + 1) % k == 0
    ensures Choose(n, k - 1) * (n - k + 1) / k == Choose(n, k)
  {
    hide Choose;
    Absorption(n, k);
    DivideBack(Choose(n, k - 1) * (n - k + 1), Choose(n, k), k);
  }

  lemma DivideBack(c: nat, a: nat, k: nat)
    requires k >= 1 && c == k * a
    ensures c % k == 0 && c / k == a
  {
    var q, r := c / k, c % k;
    assert c == k * q + r && 0 <= r < k;
    assert k * (a - q) == r;
    MultipleOutOfRange(k, a - q);
  }

  lemma MultipleOutOfRange(k: int, x: int)
    requires k >= 1
    ensures (x >= 1 ==> k * x >= k) && (x <= -1 ==> k * x <= -k)
  {
  }

  lemma TrimInRange(n: nat, best: nat, alpha: int)
    requires WidestTrim(n, best, alpha)
    ensures 1 <= best <= n / 2
  {
  }

  lemma TrimIsWidest(n: nat, k: nat, best: nat, alpha: int)
    requires n >= 2 && 1 <= k <= n / 2 + 1 && best == (if k == 1 then 1 else k - 1)
    requires forall j :: 1 <= j < k ==> MeetsBound(n, j, alpha)
    requires k <= n / 2 ==> !MeetsBound(n, k, alpha)
    ensures WidestTrim(n, best, alpha)
  {
    forall j | 1 <= j <= n / 2
      ensures Covers(n, j, alpha) <==> j < k
    {
      CoversIffMeetsBound(n, j, alpha);
      if k <= j && MeetsBound(n, j, alpha) {
        MeetsBoundMonotone(n, k, j, alpha);
      }
    }
  }

  /**
   * The interval answered has the coverage it was asked for exactly when one outcome in each tail already fits
   * the budget, which the caller can compute from the sample's size and the confidence alone.
   */
  lemma AnswerCoversIff(n: nat, best: nat, alpha: int)
    requires n >= 8 && WidestTrim(n, best, alpha)
    ensures Covers(n, best, alpha) <==> 2000000 <= alpha * Pow2(n)
  {
    hide Covers, Pow2;
    CoversIffMeetsBound(n, 1, alpha);
    OneInEachTail(n);
  }

  lemma OneInEachTail(n: nat)
    ensures SumBelow(n, 1) == 1
  {
    assert SumBelow(n, 0) == 0 && Choose(n, 0) == 1;
  }

  /** At 95% the bound is met from the smallest sample the function accepts, so coverage is always real. */
  lemma {:induction false} NinetyFiveIsCovered(n: nat)
    requires n >= 8
    ensures Covers(n, 1, Alpha(0.95))
  {
    assert Alpha(0.95) == 50000;
    Pow2AtLeast(n);
    CoversIffMeetsBound(n, 1, 50000);
    OneInEachTail(n);
  }

  lemma {:induction false} Pow2AtLeast(n: nat)
    requires n >= 8
    ensures Pow2(n) >= 256
  {
    if n > 8 { Pow2AtLeast(n - 1); } else { assert Pow2(8) == 256; }
  }

  /** At 99.99% the smallest sample cannot be covered, and the function still reports an exact interval. */
  lemma FullRangeMayNotCover()
    ensures WidestTrim(8, 1, Alpha(0.9999)) && !Covers(8, 1, Alpha(0.9999))
  {
    assert Alpha(0.9999) == 100;
    CoversIffMeetsBound(8, 1, 100);
    assert Pow2(8) == 256;
    OneInEachTail(8);
  }

  // ---- what the interval says about the data --------------------------------------------------

  /** Which samples are at or below a threshold, as one outcome. */
  function AtOrBelow(v: seq<real>, m: real): (w: Word)
    ensures |w| == |v|
  {
    seq(|v|, i requires 0 <= i < |v| => v[i] <= m)
  }

  lemma {:induction false} OnesOfAscending(v: seq<real>, m: real, i: nat)
    requires Ascending(v) && i < |v|
    ensures v[i] <= m <==> i < Ones(AtOrBelow(v, m))
  {
    var w := AtOrBelow(v, m);
    assert w[1..] == AtOrBelow(v[1..], m);
    if w[0] {
      if i > 0 { OnesOfAscending(v[1..], m, i - 1); }
    } else {
      NoneBelow(v, m);
    }
  }

  lemma {:induction false} NoneBelow(v: seq<real>, m: real)
    requires Ascending(v) && (v != [] ==> m < v[0])
    ensures Ones(AtOrBelow(v, m)) == 0
  {
    if v != [] {
      assert AtOrBelow(v, m)[1..] == AtOrBelow(v[1..], m);
      NoneBelow(v[1..], m);
    }
  }

  /** The interval [x_(k), x_(n+1-k)) holds a threshold exactly when the outcome has between k and n - k ones. */
  lemma IntervalHoldsIffCovered(v: seq<real>, k: nat, m: real)
    requires Ascending(v) && 1 <= k && 2 * k <= |v|
    ensures v[k - 1] <= m < v[|v| - k] <==> AtOrBelow(v, m) in Covered(|v|, k)
  {
    OnesOfAscending(v, m, k - 1);
    OnesOfAscending(v, m, |v| - k);
    WordsAreAll(|v|, AtOrBelow(v, m));
  }

  /** The reported interval always contains the reported median. */
  lemma IntervalContainsMedian(v: seq<real>, k: nat)
    requires Ascending(v) && 1 <= k <= |v| / 2
    ensures Pct(v, 50).Some? && v[k - 1] <= Pct(v, 50).value <= v[|v| - k]
  {
    assert 50 * |v| / 100 == |v| / 2;
  }
}
