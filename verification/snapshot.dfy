/** `generateAuditSnapshot`: the record written when a training run ends,
    joining the domain gate and the statistical gate into one final verdict. */
module Snapshot {
  import opened Wrappers
  import opened Constants
  import opened Classifier
  import opened Verification
  import opened Statistics
  import opened Epoch

  datatype FinalVerdict = Valid | Invalid

  /** `verdict` of a negative-control epoch: `'VALID' | 'INVALID'`. */
  datatype NegativeControlEpoch = NegativeControlEpoch(epoch: nat, acc: real, verdict: FinalVerdict)

  datatype NegativeControlResult = NegativeControlResult(
    accuracy: real,
    f1: real,
    isLeaky: bool,
    ablationNoiseImpact: real,
    nullMean: real,
    nullStd: real,
    timeline: seq<NegativeControlEpoch>)

  /** The fixed negative-control block every snapshot carries. */
  const NegativeControl: NegativeControlResult :=
    NegativeControlResult(0.5, 0.49, false, 0.01, 0.5, 0.03, [])

  /** Accuracy reported for the classical baseline. */
  const BaselineAcc: real := 0.82

  datatype AuditSnapshot = AuditSnapshot(
    taskIdx: TaskType,
    taskLabel: string,  // `label` in the source; `label` is a Dafny keyword
    domainVerdict: DomainVerdict,
    domainReasons: seq<Reason>,
    statVerdict: StatVerdict,
    finalVerdict: FinalVerdict,
    shuffleLabelAcc: real,
    nullDistribution: seq<real>,
    nullMean: real,
    nullStd: real,
    pValue: real,
    finalAcc: real,
    baselineAcc: real,
    negativeControl: NegativeControlResult,
    quantumSignature: bool,
    hilbertDimMatch: bool,
    normalizationCheck: bool,
    predictedDomain: Domain,
    domainConfidence: real,
    metaFeatures: MetaFeatures)

  /** The final verdict is the conjunction of the two gates. */
  function Combine(d: DomainVerdict, s: StatVerdict): (v: FinalVerdict)
    ensures v == Valid <==> d == ValidDomain && s == ValidStat
  {
    if d == ValidDomain && s == ValidStat then Valid else Invalid
  }

  /** `generateAuditSnapshot(taskIdx, logs, externalData)` with the hundred
      null-distribution draws supplied as `us`. The last log's accuracy is the
      observed accuracy; the source reads `logs[logs.length - 1]`, so a
      snapshot needs at least one log. */
  function GenerateAuditSnapshot(task: TaskType, logs: seq<TrainingLog>, external: Option<MetaFeatures>, us: seq<real>): (s: AuditSnapshot)
    requires |logs| > 0 && Statistics.ValidDraws(us)
    ensures s.taskIdx == task && s.taskLabel == TaskLabel(task)
    ensures s.finalAcc == logs[|logs| - 1].acc
    ensures s.metaFeatures == ResolveMeta(external)
    ensures var a := VerifyQuantumBatch(task, external);
      && s.predictedDomain == a.predictedDomain && s.domainConfidence == a.domainConfidence
      && s.domainVerdict == a.verdict && s.domainReasons == a.reasons
      && s.quantumSignature == a.quantumSignature && s.hilbertDimMatch == a.hilbertDimMatch
      && s.normalizationCheck == a.normalizationCheck
    ensures var g := StatisticalGate(logs[|logs| - 1].acc, us);
      && s.nullDistribution == g.nullDistribution && s.nullMean == g.nullMean
      && s.pValue == g.pValue && s.statVerdict == g.verdict
    ensures s.finalVerdict == Valid <==> s.domainVerdict == ValidDomain && s.statVerdict == ValidStat
    ensures s.finalVerdict == Valid <==>
      && IsQuantumDomain(s.predictedDomain) && s.domainConfidence >= Threshold
      && |AtLeast(s.nullDistribution, s.finalAcc)| < 5
    ensures s.domainVerdict == ValidDomain <==> |s.domainReasons| == 0
    ensures s.statVerdict == ValidStat <==> s.pValue < Alpha
    ensures 0.0 <= s.pValue <= 1.0
    ensures |s.nullDistribution| == NullSamples && NullLow <= s.nullMean < NullHigh
    ensures s.shuffleLabelAcc == s.nullMean && s.nullStd == NullStd && s.baselineAcc == BaselineAcc
    ensures s.negativeControl == NegativeControl
    ensures s.finalAcc >= NullHigh ==> s.statVerdict == ValidStat
    ensures s.finalAcc < NullLow ==> s.statVerdict == InvalidStat && s.finalVerdict == Invalid
  {
    var observed := logs[|logs| - 1].acc;
    var domain := VerifyQuantumBatch(task, external);
    var gate := StatisticalGate(observed, us);
    AuditSnapshot(
      taskIdx := task,
      taskLabel := TaskLabel(task),
      domainVerdict := domain.verdict,
      domainReasons := domain.reasons,
      statVerdict := gate.verdict,
      finalVerdict := Combine(domain.verdict, gate.verdict),
      shuffleLabelAcc := gate.nullMean,
      nullDistribution := gate.nullDistribution,
      nullMean := gate.nullMean,
      nullStd := NullStd,
      pValue := gate.pValue,
      finalAcc := observed,
      baselineAcc := BaselineAcc,
      negativeControl := NegativeControl,
      quantumSignature := domain.quantumSignature,
      hilbertDimMatch := domain.hilbertDimMatch,
      normalizationCheck := domain.normalizationCheck,
      predictedDomain := domain.predictedDomain,
      domainConfidence := domain.domainConfidence,
      metaFeatures := ResolveMeta(external))
  }

  /** Without an uploaded dataset the domain gate passes, so the final verdict
      is exactly the statistical one: valid once the final accuracy clears
      the whole null range. */
  lemma DefaultSnapshotVerdict(task: TaskType, logs: seq<TrainingLog>, us: seq<real>)
    requires |logs| > 0 && Statistics.ValidDraws(us)
    ensures var s := GenerateAuditSnapshot(task, logs, None, us);
      && (s.finalVerdict == Valid <==> s.statVerdict == ValidStat)
      && (logs[|logs| - 1].acc >= NullHigh ==> s.finalVerdict == Valid)
      && s.domainReasons == [] && s.predictedDomain == QuantumMetadata
  {
    DefaultBatchIsValid(task);
  }

  /** However well the model trains, a dataset that classifies outside the
      quantum domains yields an invalid snapshot. */
  lemma NonQuantumDataNeverValid(task: TaskType, logs: seq<TrainingLog>, m: MetaFeatures, us: seq<real>)
    requires |logs| > 0 && Statistics.ValidDraws(us)
    requires !IsQuantumDomain(ClassifyDomain(m).domain)
    ensures GenerateAuditSnapshot(task, logs, Some(m), us).finalVerdict == Invalid
    ensures |GenerateAuditSnapshot(task, logs, Some(m), us).domainReasons| >= 1
  {
  }
}
