/** `verifyQuantumBatch`: the domain verification gate around the classifier,
    with its 0.8 confidence threshold, structural checks and ordered list of
    rejection reasons. */
module Verification {
  import opened Wrappers
  import opened Constants
  import opened Classifier

  datatype DomainVerdict = ValidDomain | InvalidDomain

  /** The rejection messages, one constructor per message; the mismatch
      message carries the domain and confidence it prints. */
  datatype Reason =
    | AdversarialKeywordStuffing
    | SemanticMismatch(domain: Domain, confidence: real)
    | LowDomainConfidence
    | HilbertDimensionMismatch

  datatype DomainAudit = DomainAudit(
    verdict: DomainVerdict,
    reasons: seq<Reason>,
    predictedDomain: Domain,
    domainConfidence: real,
    quantumSignature: bool,
    hilbertDimMatch: bool,
    normalizationCheck: bool)

  /** Minimum confidence for a valid domain. */
  const Threshold: real := 0.8

  /** The canned "ideal quantum sample" used when no dataset was uploaded. */
  function DefaultMeta(): MetaFeatures {
    MetaFeatures(ndim := 2, size := 64, maxVal := 0.8, isComplex := true,
                 entropy := 4.2, semanticScore := 1.0, variance := 0.2, norm := 1.0)
  }

  /** `externalData || defaultMeta`. */
  function ResolveMeta(external: Option<MetaFeatures>): MetaFeatures {
    external.GetOr(DefaultMeta())
  }

  function Abs(x: real): (r: real)
    ensures r >= 0.0 && (r == x || r == -x)
  {
    if x < 0.0 then -x else x
  }

  /** The guardrail reasons: at most one of adversarial / mismatch / low
      confidence, then the Hilbert-dimension reason. */
  function Reasons(p: Prediction, size: int): (r: seq<Reason>)
    ensures |r| <= 2
    ensures |r| == 0 <==> IsQuantumDomain(p.domain) && p.confidence >= Threshold && !(p.domain == QuantumState && size != 64)
    ensures AdversarialKeywordStuffing in r <==> p.domain == AdversarialNoise
    ensures LowDomainConfidence in r <==> IsQuantumDomain(p.domain) && p.confidence < Threshold
    ensures HilbertDimensionMismatch in r <==> p.domain == QuantumState && size != 64
    ensures HilbertDimensionMismatch in r ==> r[|r| - 1] == HilbertDimensionMismatch
    ensures p.domain == TabularFinance ==> r == [SemanticMismatch(p.domain, p.confidence)]
    ensures |r| == (if IsQuantumDomain(p.domain) && p.confidence >= Threshold then 0 else 1)
                   + (if p.domain == QuantumState && size != 64 then 1 else 0)
  {
    var first :=
      if p.domain == AdversarialNoise then [AdversarialKeywordStuffing]
      else if !IsQuantumDomain(p.domain) then [SemanticMismatch(p.domain, p.confidence)]
      else if p.confidence < Threshold then [LowDomainConfidence]
      else [];
    first + (if p.domain == QuantumState && size != 64 then [HilbertDimensionMismatch] else [])
  }

  /** `verifyQuantumBatch(taskIdx, externalData)`; the task index is not read. */
  function VerifyQuantumBatch(task: TaskType, external: Option<MetaFeatures>): (a: DomainAudit)
    ensures a.predictedDomain == ClassifyDomain(ResolveMeta(external)).domain
    ensures a.domainConfidence == ClassifyDomain(ResolveMeta(external)).confidence
    ensures a.verdict == ValidDomain <==> IsQuantumDomain(a.predictedDomain) && a.domainConfidence >= Threshold
    ensures a.verdict == ValidDomain <==> a.quantumSignature
    ensures a.verdict == ValidDomain <==> |a.reasons| == 0
    ensures |a.reasons| <= 2
    ensures a.predictedDomain == QuantumState && ResolveMeta(external).size != 64 ==>
              HilbertDimensionMismatch in a.reasons
    ensures HilbertDimensionMismatch in a.reasons ==>
              a.reasons == [LowDomainConfidence, HilbertDimensionMismatch] && a.domainConfidence == 0.0
    ensures a.hilbertDimMatch <==> ResolveMeta(external).size == 64
    ensures a.normalizationCheck <==> Abs(ResolveMeta(external).norm - 1.0) < 0.05
  {
    var m := ResolveMeta(external);
    var p := ClassifyDomain(m);
    QuantumStateWinImpliesSize(m);
    var isQuantum := IsQuantumDomain(p.domain);
    var verdict :=
      if isQuantum && p.confidence >= Threshold && (p.domain != QuantumState || m.size == 64)
      then ValidDomain else InvalidDomain;
    DomainAudit(
      verdict := verdict,
      reasons := Reasons(p, m.size),
      predictedDomain := p.domain,
      domainConfidence := p.confidence,
      quantumSignature := isQuantum && p.confidence >= Threshold,
      hilbertDimMatch := m.size == 64,
      normalizationCheck := Abs(m.norm - 1.0) < 0.05)
  }

  /** The first reason names why the prediction failed: adversarial noise, a
      non-quantum domain, or a quantum domain below the threshold. */
  lemma FirstReasonExplains(task: TaskType, external: Option<MetaFeatures>)
    ensures var a := VerifyQuantumBatch(task, external);
      && (a.predictedDomain == AdversarialNoise ==> a.reasons == [AdversarialKeywordStuffing])
      && (a.predictedDomain == TabularFinance ==>
            a.reasons == [SemanticMismatch(TabularFinance, a.domainConfidence)])
      && (IsQuantumDomain(a.predictedDomain) && a.domainConfidence < Threshold ==>
            |a.reasons| >= 1 && a.reasons[0] == LowDomainConfidence)
  {
  }

  /** The Hilbert-dimension reason is reachable only through the all-zero
      fallback: every candidate scored 0 and the data is not 64 entries wide. */
  lemma HilbertReasonOnlyInFallback(task: TaskType, external: Option<MetaFeatures>)
    requires HilbertDimensionMismatch in VerifyQuantumBatch(task, external).reasons
    ensures var m := ResolveMeta(external);
      && QuantumStateScore(m) == 0.0 && QuantumMetadataScore(m) == 0.0
      && TabularFinanceScore(m) == 0.0 && AdversarialNoiseScore(m) == 0.0
      && m.size != 64
  {
    var m := ResolveMeta(external);
    ClassifyDomainSelects(m);
    assert QuantumStateScore(m) >= 0.0 && TabularFinanceScore(m) >= 0.0 && AdversarialNoiseScore(m) >= 0.0;
    assert m.semanticScore > 0.3 ==> QuantumMetadataScore(m) > 0.0;
  }

  /** With no uploaded data the gate predicts Quantum Metadata at confidence
      1.0 (0.4 + 0.6 beats Quantum State's 0.95) and passes every check. */
  lemma DefaultBatchIsValid(task: TaskType)
    ensures VerifyQuantumBatch(task, None) ==
      DomainAudit(ValidDomain, [], QuantumMetadata, 1.0, true, true, true)
  {
    ClassifyDomainSelects(DefaultMeta());
  }

  /** Complex 64-entry data with absurd values is caught as keyword stuffing. */
  lemma AbsurdValuesRejected(task: TaskType)
    ensures var a := VerifyQuantumBatch(task, Some(MetaFeatures(2, 64, 5000.0, true, 4.2, 1.0, 0.2, 1.0)));
      a.verdict == InvalidDomain && a.predictedDomain == AdversarialNoise && a.domainConfidence == 0.95
  {
    ClassifyDomainSelects(MetaFeatures(2, 64, 5000.0, true, 4.2, 1.0, 0.2, 1.0));
  }
}
