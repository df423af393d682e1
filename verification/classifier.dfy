/** `classifyDomain`: four independently scored candidate domains, of which
    the first highest-scoring one wins. */
module Classifier {

  /** The candidate domains, in the declaration order of the candidate list. */
  datatype Domain = QuantumState | QuantumMetadata | TabularFinance | AdversarialNoise

  /** Position of a domain in the candidate list. */
  function Rank(d: Domain): nat {
    match d
    case QuantumState => 0
    case QuantumMetadata => 1
    case TabularFinance => 2
    case AdversarialNoise => 3
  }

  /** `domain.includes('Quantum')`. */
  predicate IsQuantumDomain(d: Domain) {
    d == QuantumState || d == QuantumMetadata
  }

  datatype Prediction = Prediction(domain: Domain, confidence: real)

  /** The metadata record `classifyDomain` reads, plus the `norm` the
      verification gate reads. */
  datatype MetaFeatures = MetaFeatures(
    ndim: int,
    size: int,
    maxVal: real,
    isComplex: bool,
    entropy: real,
    semanticScore: real,
    variance: real,
    norm: real)

  predicate IsPhysicallyAbsurd(m: MetaFeatures) {
    m.maxVal > 1000.0 || m.variance > 500.0
  }

  predicate IsMarketDataLikely(m: MetaFeatures) {
    m.maxVal > 10.0 && !m.isComplex && m.semanticScore < 0.2
  }

  /** Quantum State: 0.95 for a complex 64-entry vector, slashed by 0.1 when
      the values are physically absurd; 0 otherwise. */
  function QuantumStateScore(m: MetaFeatures): real {
    if m.isComplex && m.size == 64 then
      if IsPhysicallyAbsurd(m) then 0.95 * 0.1 else 0.95
    else 0.0
  }

  /** Quantum Metadata: for a semantic score above 0.3, 0.4 + 0.6 s, times 0.2
      when `maxVal` exceeds 15 and times 0.3 when the entropy exceeds 5.8. */
  function QuantumMetadataScore(m: MetaFeatures): real {
    if m.semanticScore > 0.3 then
      var base := 0.4 + m.semanticScore * 0.6;
      var ranged := if m.maxVal > 15.0 then base * 0.2 else base;
      if m.entropy > 5.8 then ranged * 0.3 else ranged
    else 0.0
  }

  function TabularFinanceScore(m: MetaFeatures): real {
    if IsMarketDataLikely(m) then 0.85 else 0.0
  }

  /** Adversarial Noise: keyword stuffing, i.e. many quantum keywords over
      absurd or white-noise values. */
  function AdversarialNoiseScore(m: MetaFeatures): real {
    if m.semanticScore > 0.5 && (IsPhysicallyAbsurd(m) || m.entropy > 5.9) then 0.95 else 0.0
  }

  /** The candidate list before sorting, in declaration order. */
  function Candidates(m: MetaFeatures): (cs: seq<Prediction>)
    ensures |cs| == 4
    ensures forall d :: cs[Rank(d)].domain == d
  {
    [ Prediction(QuantumState, QuantumStateScore(m)),
      Prediction(QuantumMetadata, QuantumMetadataScore(m)),
      Prediction(TabularFinance, TabularFinanceScore(m)),
      Prediction(AdversarialNoise, AdversarialNoiseScore(m)) ]
  }

  /** `k` is where a stable descending sort puts its head: no candidate scores
      higher, and every earlier candidate scores strictly lower. */
  predicate IsStableMax(cs: seq<Prediction>, k: nat) {
    && k < |cs|
    && (forall j :: 0 <= j < |cs| ==> cs[j].confidence <= cs[k].confidence)
    && (forall j :: 0 <= j < k ==> cs[j].confidence < cs[k].confidence)
  }

  /** At most one position is the head of a stable descending sort. */
  lemma StableMaxUnique(cs: seq<Prediction>, k1: nat, k2: nat)
    requires IsStableMax(cs, k1) && IsStableMax(cs, k2)
    ensures k1 == k2
  {
    assert cs[k2].confidence <= cs[k1].confidence;
    assert cs[k1].confidence <= cs[k2].confidence;
  }

  /** Index of the head of `cs` after a stable sort by descending confidence:
      scan left to right and move only on a strictly higher confidence. */
  function FirstMaxIndex(cs: seq<Prediction>): (k: nat)
    requires |cs| > 0
    ensures IsStableMax(cs, k)
  {
    if |cs| == 1 then 0
    else
      var k := FirstMaxIndex(cs[..|cs| - 1]);
      assert forall j :: 0 <= j < |cs| - 1 ==> cs[..|cs| - 1][j] == cs[j];
      if cs[|cs| - 1].confidence > cs[k].confidence then |cs| - 1 else k
  }

  /** `classifyDomain`: the candidate a stable descending sort puts first. */
  function ClassifyDomain(m: MetaFeatures): (p: Prediction)
    ensures p == Candidates(m)[Rank(p.domain)]
    ensures IsStableMax(Candidates(m), Rank(p.domain))
  {
    var cs := Candidates(m);
    var k := FirstMaxIndex(cs);
    assert cs[k].domain == [QuantumState, QuantumMetadata, TabularFinance, AdversarialNoise][k];
    cs[k]
  }

  /** The winner is the candidate with the highest score, ties going to the
      earliest of Quantum State, Quantum Metadata, Tabular/Finance,
      Adversarial Noise; stated against the four scores directly. */
  lemma ClassifyDomainSelects(m: MetaFeatures)
    ensures var p := ClassifyDomain(m);
      var qs, qm, tf, an := QuantumStateScore(m), QuantumMetadataScore(m), TabularFinanceScore(m), AdversarialNoiseScore(m);
      && (p.domain == QuantumState <==> qs >= qm && qs >= tf && qs >= an)
      && (p.domain == QuantumMetadata <==> qm > qs && qm >= tf && qm >= an)
      && (p.domain == TabularFinance <==> tf > qs && tf > qm && tf >= an)
      && (p.domain == AdversarialNoise <==> an > qs && an > qm && an > tf)
  {
    var p := ClassifyDomain(m);
    var cs := Candidates(m);
    var qs, qm, tf, an := QuantumStateScore(m), QuantumMetadataScore(m), TabularFinanceScore(m), AdversarialNoiseScore(m);
    assert cs[0].confidence == qs && cs[1].confidence == qm;
    assert cs[2].confidence == tf && cs[3].confidence == an;
    assert IsStableMax(cs, 0) <==> qs >= qm && qs >= tf && qs >= an;
    assert IsStableMax(cs, 1) <==> qm > qs && qm >= tf && qm >= an;
    assert IsStableMax(cs, 2) <==> tf > qs && tf > qm && tf >= an;
    assert IsStableMax(cs, 3) <==> an > qs && an > qm && an > tf;
    forall d | d != p.domain
      ensures !IsStableMax(cs, Rank(d))
    {
      if IsStableMax(cs, Rank(d)) {
        StableMaxUnique(cs, Rank(d), Rank(p.domain));
      }
    }
  }

  /** When no rule fires, Quantum State wins with confidence 0. */
  lemma AllZeroFallback(m: MetaFeatures)
    requires QuantumStateScore(m) == 0.0 && QuantumMetadataScore(m) == 0.0
    requires TabularFinanceScore(m) == 0.0 && AdversarialNoiseScore(m) == 0.0
    ensures ClassifyDomain(m) == Prediction(QuantumState, 0.0)
  {
    ClassifyDomainSelects(m);
  }

  /** The Quantum State score is 0 unless the data is complex with 64
      entries, and then 0.95, or 0.095 when physically absurd. */
  lemma QuantumStateScoreRule(m: MetaFeatures)
    ensures QuantumStateScore(m) > 0.0 <==> m.isComplex && m.size == 64
    ensures m.isComplex && m.size == 64 && !IsPhysicallyAbsurd(m) ==> QuantumStateScore(m) == 0.95
    ensures m.isComplex && m.size == 64 && IsPhysicallyAbsurd(m) ==> QuantumStateScore(m) == 0.095
  {
  }

  /** The Quantum Metadata score is positive exactly when the semantic score
      exceeds 0.3; for a semantic score in (0.3, 1] it lies in (0, 1], and the
      two penalties compound to at most 0.06 of the base. */
  lemma QuantumMetadataScoreRange(m: MetaFeatures)
    requires m.semanticScore <= 1.0
    ensures QuantumMetadataScore(m) > 0.0 <==> m.semanticScore > 0.3
    ensures 0.0 <= QuantumMetadataScore(m) <= 1.0
    ensures m.semanticScore > 0.3 && m.maxVal > 15.0 && m.entropy > 5.8 ==>
              QuantumMetadataScore(m) == (0.4 + 0.6 * m.semanticScore) * 0.06
  {
  }

  /** Market-like data (large real values, almost no keywords) rules out
      every other candidate, so Tabular/Finance wins at 0.85 whenever its
      rule fires. */
  lemma MarketDataClassified(m: MetaFeatures)
    requires TabularFinanceScore(m) > 0.0
    ensures QuantumStateScore(m) == 0.0 && QuantumMetadataScore(m) == 0.0 && AdversarialNoiseScore(m) == 0.0
    ensures ClassifyDomain(m) == Prediction(TabularFinance, 0.85)
  {
    ClassifyDomainSelects(m);
  }

  /** Keyword stuffing wins at 0.95 once its rule fires and either the
      maximum is absurd (which cuts Quantum State to 0.095 and Quantum
      Metadata to a fifth), or the entropy is white-noise high (which cuts
      Quantum Metadata to 0.3 of its base) and Quantum State did not score
      a full 0.95. */
  lemma AdversarialNoiseWins(m: MetaFeatures)
    requires m.semanticScore <= 1.0
    requires AdversarialNoiseScore(m) > 0.0
    requires m.maxVal > 1000.0 || (m.entropy > 5.9 && QuantumStateScore(m) < 0.95)
    ensures AdversarialNoiseScore(m) == 0.95 && TabularFinanceScore(m) == 0.0
    ensures ClassifyDomain(m) == Prediction(AdversarialNoise, 0.95)
  {
    ClassifyDomainSelects(m);
  }

  /** Every score lies in [0, 1] for a semantic score at most 1, and so does
      the confidence of the prediction. */
  lemma ScoresInUnitInterval(m: MetaFeatures)
    requires m.semanticScore <= 1.0
    ensures forall c :: c in Candidates(m) ==> 0.0 <= c.confidence <= 1.0
    ensures 0.0 <= ClassifyDomain(m).confidence <= 1.0
  {
    QuantumMetadataScoreRange(m);
  }

  /** A winning Quantum State prediction with positive confidence implies a
      64-entry vector: the size condition is built into its score. */
  lemma QuantumStateWinImpliesSize(m: MetaFeatures)
    ensures ClassifyDomain(m).domain == QuantumState && ClassifyDomain(m).confidence > 0.0 ==> m.size == 64
    ensures ClassifyDomain(m).domain == QuantumState && m.size != 64 ==> ClassifyDomain(m).confidence == 0.0
  {
  }
}
