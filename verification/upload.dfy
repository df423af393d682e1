/** The metadata an uploaded dataset contributes (the upload handler): a
    keyword-based semantic score over the upper-cased text, the width of the
    first non-blank line as the size, a "complex" flag, and an entropy that
    only a high-variance, keyword-free file raises. The numeric parse (the
    `parseFloat` pass with its maximum and variance) arrives as parameters. */
module Upload {
  import opened Wrappers
  import opened Text
  import opened Classifier
  import opened Verification
  import opened Constants

  const Keywords: seq<string> := [
    "QUBIT", "ENTANGLEMENT", "TRL", "FEASIBILITY", "ALGORITHM", "FIDELITY",
    "SHOR", "GROVER", "GHZ", "BELL STATE", "HILBERT"
  ]

  /** Entropy reported for an ordinary upload, and for a noisy one. */
  const BaseEntropy: real := 4.2
  const NoisyEntropy: real := 5.95

  /** The positions of the keywords of `ks` that occur in `upper`. */
  ghost function Found(ks: seq<string>, upper: string): set<nat> {
    set i: nat | i < |ks| && Contains(upper, ks[i])
  }

  /** Dropping the last keyword drops at most its own position. */
  lemma FoundStep(ks: seq<string>, upper: string)
    requires |ks| > 0
    ensures |Found(ks, upper)| ==
      |Found(ks[..|ks| - 1], upper)| + (if Contains(upper, ks[|ks| - 1]) then 1 else 0)
  {
    var n := |ks| - 1;
    var a := Found(ks[..n], upper);
    assert a == set i: nat | i < n && Contains(upper, ks[i]);
    if Contains(upper, ks[n]) {
      assert Found(ks, upper) == a + {n};
    } else {
      assert Found(ks, upper) == a;
    }
  }

  /** The number of keywords in `ks` that occur in `upper`, counted as the
      `forEach` does: one per keyword found. */
  function MatchCount(ks: seq<string>, upper: string): (m: nat)
    ensures m == |Found(ks, upper)|
    ensures m <= |ks|
    ensures m == 0 <==> forall i :: 0 <= i < |ks| ==> !Contains(upper, ks[i])
    ensures m == |ks| <==> forall i :: 0 <= i < |ks| ==> Contains(upper, ks[i])
  {
    if |ks| == 0 then
      assert Found(ks, upper) == {};
      0
    else
      var n := |ks| - 1;
      var rest := MatchCount(ks[..n], upper);
      assert forall i :: 0 <= i < n ==> ks[..n][i] == ks[i];
      FoundStep(ks, upper);
      rest + (if Contains(upper, ks[n]) then 1 else 0)
  }

  /** A subset of a finite set is no larger. */
  lemma {:induction false} SubsetSize(a: set<nat>, b: set<nat>)
    requires a <= b
    ensures |a| <= |b|
    decreases |b|
  {
    if a != {} {
      var x :| x in a;
      SubsetSize(a - {x}, b - {x});
    }
  }

  /** Once four distinct keywords occur in the text, the semantic score is
      saturated at one. */
  lemma FourKeywordsSaturate(upper: string, present: set<nat>)
    requires forall i :: i in present ==> i < |Keywords| && Contains(upper, Keywords[i])
    requires |present| >= 4
    ensures SemanticScore(MatchCount(Keywords, upper)) == 1.0
  {
    SubsetSize(present, Found(Keywords, upper));
  }

  /** `Math.min(1.0, matchCount / 4)`. */
  function SemanticScore(m: nat): (s: real)
    ensures 0.0 <= s <= 1.0
    ensures s == 1.0 <==> m >= 4
    ensures s < 0.2 <==> m == 0
    ensures s > 0.3 <==> m >= 2
    ensures s > 0.5 <==> m >= 3
  {
    var q := m as real / 4.0;
    if q < 1.0 then q else 1.0
  }

  /** The upload's entropy rule: noisy only when the values vary a lot and
      almost no keyword was found. */
  function UploadEntropy(variance: real, semanticScore: real): (e: real)
    ensures e == NoisyEntropy <==> variance > 10.0 && semanticScore < 0.2
    ensures e == BaseEntropy || e == NoisyEntropy
  {
    if variance > 10.0 && semanticScore < 0.2 then NoisyEntropy else BaseEntropy
  }

  /** `content.split('\n').filter(l => l.trim())`: the non-blank lines, in order. */
  function NonBlank(lines: seq<string>): (r: seq<string>)
    ensures |r| <= |lines|
    ensures forall i :: 0 <= i < |r| ==> !IsBlank(r[i]) && r[i] in lines
    ensures |r| > 0 ==> exists k :: 0 <= k < |lines| && lines[k] == r[0] && forall j :: 0 <= j < k ==> IsBlank(lines[j])
    ensures |r| == 0 <==> forall i :: 0 <= i < |lines| ==> IsBlank(lines[i])
  {
    if |lines| == 0 then []
    else
      var rest := NonBlank(lines[1..]);
      assert forall i :: 1 <= i < |lines| ==> lines[i] == lines[1..][i - 1];
      if IsBlank(lines[0]) then
        assert |rest| > 0 ==> exists k :: 0 <= k < |lines| && lines[k] == rest[0] && forall j :: 0 <= j < k ==> IsBlank(lines[j]) by {
          if |rest| > 0 {
            var k :| 0 <= k < |lines[1..]| && lines[1..][k] == rest[0] && forall j :: 0 <= j < k ==> IsBlank(lines[1..][j]);
            assert lines[k + 1] == rest[0];
            assert forall j :: 0 <= j < k + 1 ==> IsBlank(lines[j]) by {
              forall j | 0 <= j < k + 1 ensures IsBlank(lines[j]) {
                if j > 0 { assert lines[j] == lines[1..][j - 1]; }
              }
            }
          }
        }
        rest
      else
        [lines[0]] + rest
  }

  /** `lines.length > 0 ? lines[0].split(',').length : 0`: the number of
      comma-separated fields in the first non-blank line. */
  function UploadSize(content: string): (n: nat)
    ensures n == 0 ==> forall i :: 0 <= i < |Split(content, '\n')| ==> IsBlank(Split(content, '\n')[i])
    ensures (forall i :: 0 <= i < |Split(content, '\n')| ==> IsBlank(Split(content, '\n')[i])) ==> n == 0
    ensures n > 0 ==> exists k :: FirstNonBlankAt(Split(content, '\n'), k) && n == Occurrences(Split(content, '\n')[k], ',') + 1
  {
    var lines := NonBlank(Split(content, '\n'));
    if |lines| > 0 then
      NotAllBlank(Split(content, '\n'), lines[0]);
      FirstNonBlankFields(Split(content, '\n'), |Split(lines[0], ',')|);
      |Split(lines[0], ',')|
    else 0
  }

  /** Line `k` is the first non-blank line of `all`. */
  predicate FirstNonBlankAt(all: seq<string>, k: int) {
    0 <= k < |all| && !IsBlank(all[k]) && forall j :: 0 <= j < k ==> IsBlank(all[j])
  }

  /** The first kept line is the first non-blank line of the input. */
  lemma FirstNonBlankFields(all: seq<string>, n: nat)
    requires |NonBlank(all)| > 0 && n == |Split(NonBlank(all)[0], ',')|
    ensures exists k :: FirstNonBlankAt(all, k) && n == Occurrences(all[k], ',') + 1
  {
    var r := NonBlank(all);
    var k :| 0 <= k < |all| && all[k] == r[0] && forall j :: 0 <= j < k ==> IsBlank(all[j]);
    assert FirstNonBlankAt(all, k);
  }

  lemma NotAllBlank(all: seq<string>, line: string)
    requires line in all && !IsBlank(line)
    ensures !(forall i :: 0 <= i < |all| ==> IsBlank(all[i]))
  {
    var k :| 0 <= k < |all| && all[k] == line;
  }

  /** The metadata record built from a file's text, its largest absolute
      value and its variance. */
  function UploadMeta(content: string, maxVal: real, variance: real): (m: MetaFeatures)
    ensures m.ndim == 2 && m.norm == 1.0
    ensures m.size == UploadSize(content)
    ensures m.semanticScore == SemanticScore(MatchCount(Keywords, ToUpper(content)))
    ensures m.isComplex <==> Contains(ToUpper(content), "J") || Contains(ToUpper(content), "COMPLEX")
    ensures m.entropy == NoisyEntropy <==> variance > 10.0 && m.semanticScore < 0.2
    ensures m.entropy == BaseEntropy || m.entropy == NoisyEntropy
    ensures m.maxVal == maxVal && m.variance == variance
  {
    var upper := ToUpper(content);
    var s := SemanticScore(MatchCount(Keywords, upper));
    MetaFeatures(
      ndim := 2,
      size := UploadSize(content),
      maxVal := maxVal,
      isComplex := Contains(upper, "J") || Contains(upper, "COMPLEX"),
      entropy := UploadEntropy(variance, s),
      semanticScore := s,
      variance := variance,
      norm := 1.0)
  }

  /** An upload never fires the adversarial rule through its entropy branch:
      a raised entropy needs fewer than one keyword, the branch needs three. */
  lemma UploadEntropyNeverAdversarial(content: string, maxVal: real, variance: real)
    ensures var m := UploadMeta(content, maxVal, variance);
      !(m.semanticScore > 0.5 && m.entropy > 5.9)
    ensures var m := UploadMeta(content, maxVal, variance);
      AdversarialNoiseScore(m) > 0.0 <==> m.semanticScore > 0.5 && IsPhysicallyAbsurd(m)
  {
  }

  /** The norm of an upload is fixed at 1, so its normalisation check always
      passes. */
  lemma UploadAlwaysNormalized(task: TaskType, content: string, maxVal: real, variance: real)
    ensures VerifyQuantumBatch(task, Some(UploadMeta(content, maxVal, variance))).normalizationCheck
  {
  }
}
