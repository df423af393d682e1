/** The interpretability outputs produced at the end of training: the fixed
    ablation table (`runAblationStudy`), the per-domain attribution
    (`calculateDomainAttribution`) and the per-feature scores
    (`calculateFeatureImportance`), with the `Math.random` draws supplied. */
module Interpret {
  import opened Constants

  datatype AblationResult = AblationResult(domainIdx: nat, accDrop: real, f1Drop: real)

  /** `runAblationStudy(task)`: one entry per domain in index order; ablating
      the task's own slice costs 0.4 accuracy and 0.45 F1, any other slice
      0.02 and 0.03. */
  function RunAblationStudy(t: TaskType): (rs: seq<AblationResult>)
    ensures |rs| == TaskCount
    ensures forall d :: 0 <= d < TaskCount ==> rs[d].domainIdx == d
    ensures forall d :: 0 <= d < TaskCount ==>
      (rs[d].accDrop == 0.4 && rs[d].f1Drop == 0.45 <==> d == TaskIndex(t))
    ensures forall d :: 0 <= d < TaskCount && d != TaskIndex(t) ==> rs[d].accDrop == 0.02 && rs[d].f1Drop == 0.03
  {
    seq(TaskCount, d requires 0 <= d < TaskCount =>
      if d == TaskIndex(t) then AblationResult(d, 0.4, 0.45) else AblationResult(d, 0.02, 0.03))
  }

  /** The trained task's own slice is the unique largest drop, both in
      accuracy and in F1, so the table identifies the task. */
  lemma AblationSinglesOutTask(t: TaskType, d: nat)
    requires d < TaskCount
    ensures var rs := RunAblationStudy(t);
      && (d != TaskIndex(t) ==> rs[d].accDrop < rs[TaskIndex(t)].accDrop && rs[d].f1Drop < rs[TaskIndex(t)].f1Drop)
      && ((forall e :: 0 <= e < TaskCount ==> rs[e].accDrop <= rs[d].accDrop) <==> d == TaskIndex(t))
  {
    var rs := RunAblationStudy(t);
    var k := TaskIndex(t);
    if d != k {
      assert rs[k].accDrop > rs[d].accDrop;
    }
  }

  /** The ablation table is determined by the task, and different tasks give
      different tables. */
  lemma AblationInjective(t: TaskType, u: TaskType)
    ensures RunAblationStudy(t) == RunAblationStudy(u) <==> t == u
  {
    if RunAblationStudy(t) == RunAblationStudy(u) {
      assert RunAblationStudy(u)[TaskIndex(t)].accDrop == 0.4;
      TaskIndexInjective(t, u);
    }
  }

  /** Uniform draws in [0, 1). */
  predicate UnitDraws(us: seq<real>) {
    forall i :: 0 <= i < |us| ==> 0.0 <= us[i] < 1.0
  }

  /** `calculateDomainAttribution(task)`: 0.9 for the task's domain, 0.1 for
      the others, each plus up to 0.05 of noise. Whatever the noise, the task's
      domain carries the strictly largest attribution. */
  function DomainAttribution(t: TaskType, us: seq<real>): (a: seq<real>)
    requires |us| == TaskCount && UnitDraws(us)
    ensures |a| == TaskCount
    ensures 0.9 <= a[TaskIndex(t)] < 0.95
    ensures forall d :: 0 <= d < TaskCount && d != TaskIndex(t) ==> 0.1 <= a[d] < 0.15
    ensures forall d :: 0 <= d < TaskCount && d != TaskIndex(t) ==> a[d] < a[TaskIndex(t)]
  {
    seq(TaskCount, d requires 0 <= d < TaskCount => (if d == TaskIndex(t) then 0.9 else 0.1) + us[d] * 0.05)
  }

  const FeatureCount: nat := 40
  /** The first `SignalFeatures` features carry the signal. */
  const SignalFeatures: nat := 8

  datatype FeatureImportance = FeatureImportance(featureIdx: nat, score: real)

  /** The scores of `calculateFeatureImportance` before its descending sort:
      0.8 for the signal features, 0.2 for the rest, plus up to 0.1 of noise.
      Every signal feature outscores every other feature, so the descending
      sort always ranks features 0..7 first. */
  function FeatureScores(us: seq<real>): (fs: seq<FeatureImportance>)
    requires |us| == FeatureCount && UnitDraws(us)
    ensures |fs| == FeatureCount
    ensures forall i :: 0 <= i < FeatureCount ==> fs[i].featureIdx == i
    ensures forall i :: 0 <= i < FeatureCount ==>
      if i < SignalFeatures then 0.8 <= fs[i].score < 0.9 else 0.2 <= fs[i].score < 0.3
    ensures forall i, j :: 0 <= i < SignalFeatures <= j < FeatureCount ==> fs[j].score < fs[i].score
  {
    seq(FeatureCount, i requires 0 <= i < FeatureCount =>
      FeatureImportance(i, (if i < SignalFeatures then 0.8 else 0.2) + us[i] * 0.1))
  }
}

module Ranking {
  import opened Interpret

  /** Non-increasing scores. */
  predicate SortedDesc(s: seq<FeatureImportance>) {
    forall i, j :: 0 <= i < j < |s| ==> s[j].score <= s[i].score
  }

  /** Puts `x` in front of the first entry that does not outscore it, so `x`
      goes ahead of the entries of equal score already placed. */
  function Insert(x: FeatureImportance, s: seq<FeatureImportance>): (r: seq<FeatureImportance>)
    requires SortedDesc(s)
    ensures SortedDesc(r)
    ensures multiset(r) == multiset(s) + multiset{x}
    ensures forall y :: y in r ==> y == x || y in s
  {
    if |s| == 0 then [x]
    else if s[0].score <= x.score then [x] + s
    else
      var rest := Insert(x, s[1..]);
      assert s == [s[0]] + s[1..];
      assert forall y :: y in rest ==> y.score <= s[0].score;
      [s[0]] + rest
  }

  /** `scores.sort((a, b) => b.score - a.score)`, as the insertion sort that
      visits the entries from the last to the first. */
  function SortByScore(s: seq<FeatureImportance>): (r: seq<FeatureImportance>)
    ensures SortedDesc(r)
    ensures multiset(r) == multiset(s)
    ensures |r| == |s|
  {
    if |s| == 0 then []
    else
      assert s == [s[0]] + s[1..];
      Insert(s[0], SortByScore(s[1..]))
  }

  /** Every entry of `a` outscores every entry of `b`. */
  predicate Outscores(a: seq<FeatureImportance>, b: seq<FeatureImportance>) {
    forall x, y :: x in a && y in b ==> y.score < x.score
  }

  /** Two sorted runs, the first outscoring the second, form a sorted run. */
  lemma SortedConcat(s: seq<FeatureImportance>, t: seq<FeatureImportance>)
    requires SortedDesc(s) && SortedDesc(t) && Outscores(s, t)
    ensures SortedDesc(s + t)
  {
    var st := s + t;
    forall i, j | 0 <= i < j < |st| ensures st[j].score <= st[i].score {
      if j < |s| {
        assert st[i] == s[i] && st[j] == s[j];
      } else if i < |s| {
        assert st[i] == s[i] && st[j] == t[j - |s|];
        assert s[i] in s && t[j - |s|] in t;
      } else {
        assert st[i] == t[i - |s|] && st[j] == t[j - |s|];
      }
    }
  }

  /** Inserting an entry that outscores all of `t` into `s + t` leaves `t`
      untouched at the end. */
  lemma {:induction false} InsertAbove(x: FeatureImportance, s: seq<FeatureImportance>, t: seq<FeatureImportance>)
    requires SortedDesc(s) && SortedDesc(s + t) && Outscores([x], t)
    ensures Insert(x, s + t) == Insert(x, s) + t
    decreases |s|
  {
    if |s| == 0 {
      assert s + t == t;
      if |t| > 0 {
        assert x in [x] && t[0] in t;
      }
    } else if x.score < s[0].score {
      InsertAboveStep(x, s, t);
    }
  }

  /** The step of `InsertAbove` past a head that outscores `x`. */
  lemma {:induction false} InsertAboveStep(x: FeatureImportance, s: seq<FeatureImportance>, t: seq<FeatureImportance>)
    requires SortedDesc(s) && SortedDesc(s + t) && Outscores([x], t)
    requires |s| > 0 && x.score < s[0].score
    ensures Insert(x, s + t) == Insert(x, s) + t
    decreases |s|, 0
  {
    var tail := s[1..];
    assert (s + t)[1..] == tail + t;
    assert (s + t)[0] == s[0];
    assert SortedDesc(tail + t);
    InsertAbove(x, tail, t);
  }

  /** Sorting keeps the entries, so it keeps which part outscores which. */
  lemma SortKeepsOutscores(a: seq<FeatureImportance>, b: seq<FeatureImportance>)
    requires Outscores(a, b)
    ensures Outscores(SortByScore(a), SortByScore(b))
  {
    var sa, sb := SortByScore(a), SortByScore(b);
    forall x, y | x in sa && y in sb ensures y.score < x.score {
      assert x in multiset(sa) && y in multiset(sb);
    }
  }

  /** When every entry of `a` outscores every entry of `b`, sorting `a + b`
      sorts the two parts separately. */
  lemma {:induction false} SortAppend(a: seq<FeatureImportance>, b: seq<FeatureImportance>)
    requires Outscores(a, b)
    ensures SortByScore(a + b) == SortByScore(a) + SortByScore(b)
    decreases |a|
  {
    if |a| == 0 {
      assert a + b == b;
    } else {
      var tail := a[1..];
      assert (a + b)[1..] == tail + b;
      assert (a + b)[0] == a[0];
      assert SortByScore(a + b) == Insert(a[0], SortByScore(tail + b));
      assert Outscores(tail, b) by {
        forall x, y | x in tail && y in b ensures y.score < x.score {
          assert x in a;
        }
      }
      SortAppend(tail, b);
      SortKeepsOutscores(tail, b);
      SortKeepsOutscores([a[0]], b);
      SortedConcat(SortByScore(tail), SortByScore(b));
      InsertAbove(a[0], SortByScore(tail), SortByScore(b));
    }
  }

  /** An entry of the first `k` positions of a position-indexed sequence has
      an index below `k`; an entry of the rest has one at or above `k`. */
  lemma IndexOfMember(fs: seq<FeatureImportance>, k: nat, x: FeatureImportance)
    requires k <= |fs|
    requires forall i :: 0 <= i < |fs| ==> fs[i].featureIdx == i
    ensures x in multiset(fs[..k]) ==> x.featureIdx < k
    ensures x in multiset(fs[k..]) ==> x.featureIdx >= k
  {
    if x in multiset(fs[..k]) {
      var j :| 0 <= j < k && fs[..k][j] == x;
    }
    if x in multiset(fs[k..]) {
      var j :| 0 <= j < |fs| - k && fs[k..][j] == x;
      assert fs[j + k] == x;
    }
  }

  /** Sorting entries indexed by position, where the first `k` outscore the
      rest, puts exactly those `k` first. */
  lemma SortKeepsLeaders(fs: seq<FeatureImportance>, k: nat)
    requires k <= |fs|
    requires forall i :: 0 <= i < |fs| ==> fs[i].featureIdx == i
    requires Outscores(fs[..k], fs[k..])
    ensures forall i :: 0 <= i < |fs| ==> (SortByScore(fs)[i].featureIdx < k <==> i < k)
  {
    var lead, rest := fs[..k], fs[k..];
    assert fs == lead + rest;
    SortAppend(lead, rest);
    var sl, sr := SortByScore(lead), SortByScore(rest);
    var r := sl + sr;
    assert SortByScore(fs) == r;
    forall i | 0 <= i < |fs| ensures r[i].featureIdx < k <==> i < k {
      if i < k {
        assert r[i] == sl[i] && sl[i] in multiset(sl);
        IndexOfMember(fs, k, r[i]);
      } else {
        assert r[i] == sr[i - k] && sr[i - k] in multiset(sr);
        IndexOfMember(fs, k, r[i]);
      }
    }
  }

  /** `calculateFeatureImportance(task)` with its forty draws supplied: the
      scores sorted by decreasing score. The eight signal features take the
      first eight places, whatever the draws. */
  function CalculateFeatureImportance(us: seq<real>): (r: seq<FeatureImportance>)
    requires |us| == FeatureCount && UnitDraws(us)
    ensures SortedDesc(r)
    ensures multiset(r) == multiset(FeatureScores(us))
    ensures |r| == FeatureCount
    ensures forall i :: 0 <= i < FeatureCount ==> (r[i].featureIdx < SignalFeatures <==> i < SignalFeatures)
  {
    var fs := FeatureScores(us);
    assert Outscores(fs[..SignalFeatures], fs[SignalFeatures..]) by {
      forall x, y | x in fs[..SignalFeatures] && y in fs[SignalFeatures..] ensures y.score < x.score {
        var i :| 0 <= i < SignalFeatures && fs[..SignalFeatures][i] == x;
        var j :| 0 <= j < FeatureCount - SignalFeatures && fs[SignalFeatures..][j] == y;
        assert fs[j + SignalFeatures] == y;
      }
    }
    SortKeepsLeaders(fs, SignalFeatures);
    SortByScore(fs)
  }
}
