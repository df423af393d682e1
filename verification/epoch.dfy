/** One simulated training epoch (`simulateEpoch`): the accuracy cap, the
    confusion counts, the zero-guarded precision / recall / F1, and the
    coercivity drift of the trained task. The accuracy and loss curves are
    floating-point `exp` / `pow` expressions with `Math.random` jitter; they
    arrive as a parameter, together with the coercivity draw. */
module Epoch {
  import opened Wrappers
  import opened Constants

  /** Samples per simulated confusion matrix. */
  const Samples: nat := 100
  const AccuracyCap: real := 0.99

  datatype Confusion = Confusion(tp: nat, fp: nat)

  datatype TrainingLog = TrainingLog(
    epoch: nat,
    loss: real,
    acc: real,
    precision: real,
    recall: real,
    f1: real,
    coercivities: seq<real>,
    validityScore: real,
    confusion: Confusion)

  /** The float-curve and random parts of an epoch: the jittered accuracy
      `baseAcc + (Math.random() - 0.5) * 0.02` before the cap, the loss, and
      the `Math.random()` that drives the coercivity drift. */
  datatype EpochSample = EpochSample(curveAcc: real, loss: real, drift: real)

  /** The accuracy curve never goes negative, and the drift draw is in [0, 1). */
  predicate ValidSample(s: EpochSample) {
    0.0 <= s.curveAcc && 0.0 <= s.drift < 1.0
  }

  /** `Math.round` for a non-negative argument: half rounds up. */
  function Round(x: real): (n: nat)
    requires x >= 0.0
    ensures n as real - 0.5 <= x < n as real + 0.5
  {
    (x + 0.5).Floor
  }

  datatype Counts = Counts(tp: nat, tn: nat, fp: nat, fn: nat)

  /** `TP = TN = round(100 acc / 2)`, `FP = round(0.4 (100 - TP - TN))`, and the
      false negatives are what is left. */
  function ConfusionCounts(acc: real): (c: Counts)
    requires 0.0 <= acc <= AccuracyCap
    ensures c.tp == c.tn && c.tp <= Samples / 2
    ensures c.tp as real - 0.5 <= 50.0 * acc < c.tp as real + 0.5
    ensures c.fp as real - 0.5 <= 0.4 * (Samples - 2 * c.tp) as real < c.fp as real + 0.5
    ensures c.tp + c.tn + c.fp + c.fn == Samples
    ensures 10 * c.fp <= 4 * (c.fp + c.fn) + 5 && 4 * (c.fp + c.fn) <= 10 * c.fp + 5
  {
    var tp := Round(100.0 * acc * 0.5);
    var rest := Samples - 2 * tp;
    var fp := Round(rest as real * 0.4);
    Counts(tp, tp, fp, rest - fp)
  }

  /** `TP / (TP + FP) || 0`: zero instead of NaN when there are no positives. */
  function Precision(tp: nat, fp: nat): (r: real)
    ensures 0.0 <= r <= 1.0
    ensures r == 0.0 <==> tp == 0
    ensures r == 1.0 <==> tp > 0 && fp == 0
  {
    if tp + fp == 0 then 0.0 else tp as real / (tp + fp) as real
  }

  /** `TP / (TP + FN) || 0`. */
  function Recall(tp: nat, fn: nat): (r: real)
    ensures 0.0 <= r <= 1.0
    ensures r == 0.0 <==> tp == 0
    ensures r == 1.0 <==> tp > 0 && fn == 0
  {
    Precision(tp, fn)
  }

  function Min(a: real, b: real): real { if a <= b then a else b }
  function Max(a: real, b: real): real { if a <= b then b else a }

  /** `2PR / (P + R) || 0`: the harmonic mean of precision and recall, zero
      instead of NaN when both are zero. It lies between the two, is zero
      exactly when either is, and is one exactly when both are. */
  function F1(p: real, r: real): (f: real)
    requires 0.0 <= p <= 1.0 && 0.0 <= r <= 1.0
    ensures 0.0 <= f <= 1.0
    ensures f == 0.0 <==> p == 0.0 || r == 0.0
    ensures p > 0.0 && r > 0.0 ==> Min(p, r) <= f <= Max(p, r)
    ensures f == 1.0 <==> p == 1.0 && r == 1.0
  {
    if p + r == 0.0 then 0.0
    else
      HarmonicMeanBetween(p, r);
      2.0 * p * r / (p + r)
  }

  /** Comparing a quotient by a positive divisor with a bound. */
  lemma QuotientBounds(a: real, d: real, x: real)
    requires d > 0.0
    ensures a / d <= x <==> a <= x * d
    ensures x <= a / d <==> x * d <= a
  {
    assert (a / d) * d == a;
    if a / d <= x {
      assert (a / d) * d <= x * d;
    }
    if a <= x * d {
      assert a / d <= (x * d) / d;
    }
    if x <= a / d {
      assert x * d <= (a / d) * d;
    }
    if x * d <= a {
      assert (x * d) / d <= a / d;
    }
  }

  lemma HarmonicMeanBetween(p: real, r: real)
    requires 0.0 <= p <= 1.0 && 0.0 <= r <= 1.0 && p + r > 0.0
    ensures var f := 2.0 * p * r / (p + r);
      && 0.0 <= f <= 1.0
      && (f == 0.0 <==> p == 0.0 || r == 0.0)
      && (p > 0.0 && r > 0.0 ==> Min(p, r) <= f <= Max(p, r))
      && (f == 1.0 <==> p == 1.0 && r == 1.0)
  {
    var s := p + r;
    var a := 2.0 * p * r;
    var f := a / s;
    assert p * r <= p by { assert p * r <= p * 1.0; }
    assert p * r <= r by { assert p * r <= 1.0 * r; }
    assert 0.0 <= p * r;
    QuotientBounds(a, s, 1.0);
    QuotientBounds(a, s, 0.0);
    QuotientBounds(a, s, p);
    QuotientBounds(a, s, r);
    assert a <= 1.0 * s;
    assert 0.0 * s <= a;
    if p <= r {
      assert p * s <= a by { assert p * s == p * p + p * r && p * p <= p * r; }
      assert a <= r * s by { assert r * s == p * r + r * r && p * r <= r * r; }
    } else {
      assert r * s <= a by { assert r * s == p * r + r * r && r * r <= p * r; }
      assert a <= p * s by { assert p * s == p * p + p * r && p * r <= p * p; }
    }
    if f == 1.0 {
      assert a == s;
      assert p * (1.0 - r) + r * (1.0 - p) == 0.0;
      assert p * (1.0 - r) >= 0.0 by { assert 1.0 - r >= 0.0; }
      assert r * (1.0 - p) >= 0.0 by { assert 1.0 - p >= 0.0; }
    }
    if f == 0.0 {
      assert a == 0.0;
    }
  }

  /** Coercivities have one positive entry per task. */
  predicate WellFormedCoercivities(cs: seq<real>) {
    |cs| == TaskCount && forall k :: 0 <= k < |cs| ==> cs[k] > 0.0
  }

  /** `simulateEpoch(epoch, prevLog, task)`, with the curve values and draws
      supplied as `s`. */
  function SimulateEpoch(epoch: nat, prev: Option<TrainingLog>, task: TaskType, s: EpochSample): (log: TrainingLog)
    requires ValidSample(s)
    requires prev.Some? ==> |prev.value.coercivities| == TaskCount
    ensures log.epoch == epoch
    ensures log.acc <= AccuracyCap && (s.curveAcc <= AccuracyCap ==> log.acc == s.curveAcc)
    ensures log.acc == Min(s.curveAcc, AccuracyCap) && log.loss == s.loss
    ensures var c := ConfusionCounts(log.acc);
      && log.confusion == Confusion(c.tp, c.fp)
      && log.precision == Precision(c.tp, c.fp) && log.recall == Recall(c.tp, c.fn)
      && log.f1 == F1(log.precision, log.recall)
    ensures 0.0 <= log.precision <= 1.0 && 0.0 <= log.recall <= 1.0 && 0.0 <= log.f1 <= 1.0
    ensures log.confusion.tp + log.confusion.fp <= Samples
    ensures log.validityScore == 0.5 + 0.4 * log.acc
    ensures 0.5 <= log.validityScore <= 0.5 + AccuracyCap * 0.4
    ensures var base := if prev.Some? then prev.value.coercivities else InitialCoercivities;
      && |log.coercivities| == TaskCount
      && (forall k :: 0 <= k < TaskCount && k != TaskIndex(task) ==> log.coercivities[k] == base[k])
      && base[TaskIndex(task)] <= log.coercivities[TaskIndex(task)] < base[TaskIndex(task)] + 0.02
  {
    var acc := if s.curveAcc < AccuracyCap then s.curveAcc else AccuracyCap;
    var base := if prev.Some? then prev.value.coercivities else InitialCoercivities;
    var k := TaskIndex(task);
    var c := ConfusionCounts(acc);
    var precision := Precision(c.tp, c.fp);
    var recall := Recall(c.tp, c.fn);
    TrainingLog(
      epoch := epoch,
      loss := s.loss,
      acc := acc,
      precision := precision,
      recall := recall,
      f1 := F1(precision, recall),
      coercivities := base[k := base[k] + s.drift * 0.02],
      validityScore := 0.5 + acc * 0.4,
      confusion := Confusion(c.tp, c.fp))
  }

  /** An epoch keeps every coercivity positive. */
  lemma SimulateEpochKeepsCoercivities(epoch: nat, prev: Option<TrainingLog>, task: TaskType, s: EpochSample)
    requires ValidSample(s)
    requires prev.Some? ==> WellFormedCoercivities(prev.value.coercivities)
    ensures WellFormedCoercivities(SimulateEpoch(epoch, prev, task, s).coercivities)
  {
    InitialCoercivitiesShape();
  }

  /** The division-by-zero guards: no positives gives precision 0, and no
      true positives gives F1 0, rather than NaN. */
  lemma ZeroGuards(tp: nat, fp: nat, fn: nat)
    ensures tp + fp == 0 ==> Precision(tp, fp) == 0.0
    ensures tp == 0 ==> F1(Precision(tp, fp), Recall(tp, fn)) == 0.0
  {
  }
}
