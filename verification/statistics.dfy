/** The statistical significance gate of `generateAuditSnapshot`: a one-sided
    p-value of the observed accuracy against a synthetic null distribution of
    100 accuracies drawn uniformly from [0.45, 0.55). The `Math.random` draws
    are a parameter. */
module Statistics {
  import opened Basis

  const NullSamples: nat := 100
  const NullLow: real := 0.45
  const NullHigh: real := 0.55
  /** Reported as a constant, not computed from the samples. */
  const NullStd: real := 0.03
  const Alpha: real := 0.05

  datatype StatVerdict = ValidStat | InvalidStat

  /** One hundred `Math.random()` results, each in [0, 1). */
  predicate ValidDraws(us: seq<real>) {
    |us| == NullSamples && forall i :: 0 <= i < |us| ==> 0.0 <= us[i] < 1.0
  }

  /** `0.45 + Math.random() * 0.1` for each draw. */
  function NullDistribution(us: seq<real>): (d: seq<real>)
    requires ValidDraws(us)
    ensures |d| == NullSamples
    ensures forall i :: 0 <= i < |d| ==> NullLow <= d[i] < NullHigh
  {
    seq(|us|, i requires 0 <= i < |us| => 0.45 + us[i] * 0.1)
  }

  /** `nullDist.filter(acc => acc >= observed)`. */
  function AtLeast(d: seq<real>, obs: real): (r: seq<real>)
    ensures |r| <= |d|
    ensures forall x :: x in r ==> x in d && x >= obs
    ensures forall i :: 0 <= i < |d| && d[i] >= obs ==> d[i] in r
    ensures forall x :: multiset(r)[x] == if x >= obs then multiset(d)[x] else 0
  {
    if |d| == 0 then []
    else
      var init := AtLeast(d[..|d| - 1], obs);
      assert forall i :: 0 <= i < |d| - 1 ==> d[..|d| - 1][i] == d[i];
      assert d == d[..|d| - 1] + [d[|d| - 1]];
      init + (if d[|d| - 1] >= obs then [d[|d| - 1]] else [])
  }

  /** A higher observed accuracy is matched by no more null samples. */
  lemma {:induction false} AtLeastAntitone(d: seq<real>, lo: real, hi: real)
    requires lo <= hi
    ensures |AtLeast(d, hi)| <= |AtLeast(d, lo)|
  {
    if |d| > 0 {
      AtLeastAntitone(d[..|d| - 1], lo, hi);
    }
  }

  /** Every sample counts when all reach the observed accuracy; none counts
      when all fall below it. */
  lemma {:induction false} AtLeastExtremes(d: seq<real>, obs: real)
    ensures (forall i :: 0 <= i < |d| ==> d[i] >= obs) ==> |AtLeast(d, obs)| == |d|
    ensures (forall i :: 0 <= i < |d| ==> d[i] < obs) ==> |AtLeast(d, obs)| == 0
  {
    if |d| > 0 {
      assert forall i :: 0 <= i < |d| - 1 ==> d[..|d| - 1][i] == d[i];
      AtLeastExtremes(d[..|d| - 1], obs);
    }
  }

  /** The fraction of null samples at least as high as the observation. */
  function PValue(d: seq<real>, obs: real): (p: real)
    requires |d| > 0
    ensures 0.0 <= p <= 1.0
  {
    var k := |AtLeast(d, obs)|;
    DivMonotone(k as real, |d| as real, |d| as real);
    DivMonotone(0.0, k as real, |d| as real);
    k as real / |d| as real
  }

  lemma DivMonotone(a: real, b: real, n: real)
    requires a <= b && n > 0.0
    ensures a / n <= b / n
    ensures n / n == 1.0 && 0.0 / n == 0.0
  {
    assert b / n - a / n == (b - a) / n;
  }

  /** The p-value never increases as the observed accuracy grows. */
  lemma PValueAntitone(d: seq<real>, lo: real, hi: real)
    requires |d| > 0 && lo <= hi
    ensures PValue(d, hi) <= PValue(d, lo)
  {
    AtLeastAntitone(d, lo, hi);
    DivMonotone(|AtLeast(d, hi)| as real, |AtLeast(d, lo)| as real, |d| as real);
  }

  function StatVerdictOf(pValue: real): StatVerdict {
    if pValue < Alpha then ValidStat else InvalidStat
  }

  /** The entries of `d` all lie in `[lo, hi)`, so their sum lies in
      `[|d| lo, |d| hi)`. */
  lemma {:induction false} SumBounds(d: seq<real>, lo: real, hi: real)
    requires |d| > 0
    requires forall i :: 0 <= i < |d| ==> lo <= d[i] < hi
    ensures |d| as real * lo <= Sum(d) < |d| as real * hi
  {
    var n := |d|;
    var w := d[..n - 1];
    var m := (n - 1) as real;
    assert Sum(d) == Sum(w) + d[n - 1];
    if n > 1 {
      assert forall i :: 0 <= i < |w| ==> w[i] == d[i];
      SumBounds(w, lo, hi);
    } else {
      assert w == [];
    }
    assert m * lo <= Sum(w) <= m * hi;
    assert m * lo + lo == (m + 1.0) * lo;
    assert m * hi + hi == (m + 1.0) * hi;
  }

  /** With one hundred samples the p-value is below 0.05 exactly when fewer
      than five samples reach the observation. */
  lemma PValueBelowAlpha(d: seq<real>, obs: real)
    requires |d| == NullSamples
    ensures PValue(d, obs) < Alpha <==> |AtLeast(d, obs)| < 5
  {
    var k := |AtLeast(d, obs)|;
    assert PValue(d, obs) == k as real / 100.0;
  }

  /** Samples confined to [0.45, 0.55) give p-value 0 for an observation of
      at least 0.55 and p-value 1 for one below 0.45. */
  lemma PValueOutsideNullRange(d: seq<real>, obs: real)
    requires |d| == NullSamples
    requires forall i :: 0 <= i < |d| ==> NullLow <= d[i] < NullHigh
    ensures obs >= NullHigh ==> PValue(d, obs) == 0.0
    ensures obs < NullLow ==> PValue(d, obs) == 1.0
  {
    AtLeastExtremes(d, obs);
  }

  /** The mean of the null samples lies in [0.45, 0.55). */
  lemma MeanInRange(d: seq<real>)
    requires |d| == NullSamples
    requires forall i :: 0 <= i < |d| ==> NullLow <= d[i] < NullHigh
    ensures NullLow <= Sum(d) / |d| as real < NullHigh
  {
    SumBounds(d, NullLow, NullHigh);
  }

  /** The outcome of the gate as the snapshot records it. */
  datatype StatGate = StatGate(
    nullDistribution: seq<real>,
    nullMean: real,
    pValue: real,
    verdict: StatVerdict)

  /** The gate for an observed accuracy and one hundred random draws. */
  function StatisticalGate(obs: real, us: seq<real>): (g: StatGate)
    requires ValidDraws(us)
    ensures g.nullDistribution == NullDistribution(us)
    ensures g.pValue == PValue(g.nullDistribution, obs)
    ensures g.pValue * NullSamples as real == |AtLeast(g.nullDistribution, obs)| as real
    ensures g.nullMean * NullSamples as real == Sum(g.nullDistribution)
    ensures |g.nullDistribution| == NullSamples
    ensures forall i :: 0 <= i < NullSamples ==> NullLow <= g.nullDistribution[i] < NullHigh
    ensures NullLow <= g.nullMean < NullHigh
    ensures 0.0 <= g.pValue <= 1.0
    ensures g.verdict == ValidStat <==> g.pValue < Alpha
    ensures g.verdict == ValidStat <==> |AtLeast(g.nullDistribution, obs)| < 5
    ensures obs >= NullHigh ==> g.pValue == 0.0 && g.verdict == ValidStat
    ensures obs < NullLow ==> g.pValue == 1.0 && g.verdict == InvalidStat
  {
    var d := NullDistribution(us);
    GateFacts(d, obs);
    StatGate(d, Sum(d) / |d| as real, PValue(d, obs), StatVerdictOf(PValue(d, obs)))
  }

  /** The facts the gate reports, for one hundred samples in the null range. */
  lemma GateFacts(d: seq<real>, obs: real)
    requires |d| == NullSamples
    requires forall i :: 0 <= i < |d| ==> NullLow <= d[i] < NullHigh
    ensures var p := PValue(d, obs);
      && p * NullSamples as real == |AtLeast(d, obs)| as real
      && (Sum(d) / |d| as real) * NullSamples as real == Sum(d)
      && NullLow <= Sum(d) / |d| as real < NullHigh
      && (p < Alpha <==> |AtLeast(d, obs)| < 5)
      && (obs >= NullHigh ==> p == 0.0)
      && (obs < NullLow ==> p == 1.0)
  {
    assert PValue(d, obs) == |AtLeast(d, obs)| as real / 100.0;
    MeanInRange(d);
    PValueOutsideNullRange(d, obs);
    PValueBelowAlpha(d, obs);
  }

  /** A higher observed accuracy never turns a valid statistical verdict
      invalid. */
  lemma GateMonotone(lo: real, hi: real, us: seq<real>)
    requires ValidDraws(us) && lo <= hi
    ensures StatisticalGate(hi, us).pValue <= StatisticalGate(lo, us).pValue
    ensures StatisticalGate(lo, us).verdict == ValidStat ==> StatisticalGate(hi, us).verdict == ValidStat
  {
    PValueAntitone(NullDistribution(us), lo, hi);
  }
}
