# MagMem V7 audit pipeline — a Dafny model

This project models the rule-based core of the MagMem V7 quantum-dataset
trainer and auditor. A training run simulates twenty epochs for one of five
6-qubit tasks (GHZ, W, Dicke2, Cluster, Random). Each epoch writes into the
task's slice of a 640-column memory matrix. When the run ends, an audit
snapshot is produced from two gates:

- a **domain gate**: a rule-based classifier decides whether the dataset's
  metadata looks like quantum data, against a 0.8 confidence threshold;
- a **statistical gate**: the final accuracy is compared with a synthetic
  null distribution of 100 accuracies, each drawn uniformly from
  [0.45, 0.55); the p-value must be below 0.05.

The snapshot is upserted into an audit history keyed by task.

The model is functional. Every operation is a pure Dafny function (a method
where the source loops over a fixed range), on `real`, `nat`, `seq` and
datatypes.

- **Randomness.** Every `Math.random()` draw the model keeps becomes a
  parameter, with its range stated as a precondition:
  - the null-distribution draws;
  - the memory noise;
  - the coercivity drift;
  - the attribution and feature-importance draws;
  - the initial memory.
- **Epoch curves.** The accuracy and loss curves of an epoch use `exp`/`pow`
  and a random jitter. They are passed in as an `EpochSample`, which only
  needs a non-negative curve accuracy (and a drift in [0, 1)); the jitter's
  own range is not stated. The draws of the Random task's basis
  vector are not modelled.
- **Basis vectors.** They are modelled by their exact squared amplitudes. The
  Cluster amplitude 1/8 is exact.
- **Arithmetic.** Reals are exact, so IEEE rounding is not modelled. `Math.round` on
  non-negative arguments is modelled exactly.

Modules, one per concern of the source:

| module | file | source |
|---|---|---|
| `Wrappers`, `Text` | wrappers.dfy, text.dfy | `Option`; the JS string operations used (`split`, `includes`, `toUpperCase`, `trim`) |
| `Constants` | constants.dfy | constants.tsx |
| `Basis` | basis.dfy | `QuantumBackendV7` in logic/simulator.ts |
| `Classifier`, `Verification` | classifier.dfy, verification.dfy | `classifyDomain`, `verifyQuantumBatch` |
| `Statistics`, `Snapshot` | statistics.dfy, snapshot.dfy | `generateAuditSnapshot` |
| `Epoch`, `Memory` | epoch.dfy, memory.dfy | `simulateEpoch`, `generateInitialMemory`, `updateMemory` |
| `Interpret`, `Ranking` | interpret.dfy | `runAblationStudy`, `calculateDomainAttribution`, `calculateFeatureImportance` |
| `History`, `Upload`, `App` | history.dfy, upload.dfy, app.dfy | the state transitions and upload heuristics of App.tsx |

### The default metadata record

Without an upload, the gate reads a built-in record: complex, 64 entries
and a full keyword score. It classifies as Quantum Metadata at confidence
1.0, not as Quantum State, because the Quantum Metadata score
0.4 + 0.6 · 1.0 = 1.0 beats the Quantum State score 0.95. See
`Verification.DefaultBatchIsValid`.

## Model

| member | source | states |
|---|---|---|
| Constants.TaskOf | types.ts:1-7 | every index 0..4 names the task numbered so: `TaskOf` inverts the enum's numbering |
| Constants.TaskIndexInjective | types.ts:1-7 | distinct tasks carry distinct numbers, and numbering then looking up gives the task back |
| Constants.TaskLabelsDistinct | constants.tsx:5-11 | every task has a label and different tasks have different labels |
| Constants.SliceOf | constants.tsx:21-27 | slice k is [128k, 128k+128), has width 2·64 and ends within the 640-column memory |
| Constants.SlicesPartitionMemory | constants.tsx:21-27 | every column in [0, 640) lies in exactly the slice of task col/128 |
| Constants.SlicesDisjointAndContiguous | constants.tsx:21-27 | slices of distinct tasks are disjoint, and slice k ends where slice k+1 starts |
| Constants.BasisIndexCoverage | constants.tsx:21-27 | inside a slice, `(i - start) % 64` hits basis index h at exactly two columns, start+h and start+h+64 |
| Constants.InitialCoercivitiesShape | constants.tsx:29 | one initial coercivity per task, each positive |
| Basis.PopcountAsWritten | logic/simulator.ts:56-58 | the string-splitting popcount equals the number of set bits of its argument |
| Basis.PopcountAsWrittenIsBitCount | logic/simulator.ts:56-58 | counting the pieces of `n.toString(2).split('1')`, minus one, gives exactly the number of set bits of n |
| Basis.CountPopIsBinomial | logic/simulator.ts:25-36 | among 0..2^k-1, the number of indices with j set bits is C(k, j) |
| Basis.Dicke2SupportSize | logic/simulator.ts:25-36 | exactly 15 six-bit indices have popcount 2 |
| Basis.WSupportSize | logic/simulator.ts:18-23 | the W support {1,2,4,8,16,32} has six indices below 64 |
| Basis.GhzSquared | logic/simulator.ts:11-16 | the squared GHZ vector is nonzero exactly at 0 and 63, is 1/2 at both, and its weights sum to 1 |
| Basis.WSquared | logic/simulator.ts:18-23 | the squared W vector is nonzero exactly on the six single-bit indices, is 1/6 on each, and sums to 1 |
| Basis.Dicke2IdealSquared | logic/simulator.ts:25-36 | the squared Dicke2 vector, as a definition, is 1/15 exactly on the popcount-2 indices, 0 elsewhere, and sums to 1 |
| Basis.ClusterIdealSquared | logic/simulator.ts:38-48 | the squared Cluster vector, as a definition, is 1/64 everywhere and sums to 1 |
| Basis.MarkDicke2 | logic/simulator.ts:25-33 | the marking loop sets 1 exactly at the popcount-2 indices and 0 elsewhere, and its counter equals the number of such indices |
| Basis.Dicke2Squared | logic/simulator.ts:25-36 | the method (marking loop, then scaling by 1/count) finds 15 marks and yields exactly the defined squared Dicke2 vector: 1/15 on the popcount-2 indices, summing to 1 |
| Basis.ClusterVector | logic/simulator.ts:38-48 | the Cluster amplitude at i is (−1)^(adjacent set-bit pairs of i) / 8, every entry has squared magnitude 1/64, so its squares are exactly the defined squared Cluster vector and sum to 1 |
| Basis.IdealSquared | logic/simulator.ts:11-54 | every task except Random has a fixed squared ideal vector of 64 weights summing to 1; Random has none |
| Basis.Purity | logic/simulator.ts:60-62 | purity is the squared norm capped at 1: it equals 1 exactly when the norm reaches 1, and the norm itself below that |
| Basis.DeterministicIdealsArePure | logic/simulator.ts:60-71 | for every task except Random, the ideal vector has squared norm 1, so the purity baseline is 1 and the state is pure |
| Classifier.Candidates | logic/simulator.ts:94-136 | there are four candidates in declaration order QS, QM, TF, AN, and candidate k carries domain k |
| Classifier.ClassifyDomain | logic/simulator.ts:138-139 | the prediction is one of the candidates, and its confidence is at least every other's; ties go to the earliest candidate (stable sort) |
| Classifier.ClassifyDomainSelects | logic/simulator.ts:94-139 | each domain is chosen exactly when its score is strictly above the earlier candidates' and at least the later ones' |
| Classifier.AllZeroFallback | logic/simulator.ts:94-99 | when every score is 0 the result is Quantum State with confidence 0 |
| Classifier.QuantumStateScoreRule | logic/simulator.ts:102-109 | Quantum State scores 0 unless the data is complex and has size 64; then it scores 0.95, or 0.095 when the values are physically absurd |
| Classifier.QuantumMetadataScoreRange | logic/simulator.ts:112-126 | with semantic score s at most 1, Quantum Metadata scores positive exactly when s > 0.3, always within [0, 1], and both penalties together multiply the base 0.4 + 0.6 s by 0.06 |
| Classifier.MarketDataClassified | logic/simulator.ts:103-136 | whenever the market-data rule fires, no other rule can, and Tabular/Finance wins at 0.85 |
| Classifier.AdversarialNoiseWins | logic/simulator.ts:102-136 | once the keyword-stuffing rule fires with an absurd maximum, or with white-noise entropy and no full Quantum State score, Adversarial Noise wins at 0.95 |
| Classifier.ScoresInUnitInterval | logic/simulator.ts:101-136 | for semantic scores at most 1, every candidate's confidence lies in [0, 1], and so does the predicted confidence |
| Classifier.QuantumStateWinImpliesSize | logic/simulator.ts:106-109 | if Quantum State wins with positive confidence, the size is 64, so the size conjunct of the verdict is redundant |
| Verification.Reasons | logic/simulator.ts:161-172 | at most two reasons; none exactly when the domain is quantum at ≥ 0.8 and not a Quantum State of the wrong size; the keyword-stuffing, low-confidence and Hilbert reasons each appear exactly under their own condition, the Hilbert reason last; a Tabular/Finance prediction gives exactly the semantic-mismatch reason carrying its domain and confidence; the count is one first reason when the prediction fails, plus one for the Hilbert reason |
| Verification.VerifyQuantumBatch | logic/simulator.ts:142-185 | the verdict is valid exactly when the domain is quantum with confidence ≥ 0.8; equivalently, when the quantum signature holds; equivalently, when there are no reasons. There are at most two reasons. A Quantum State prediction for data that is not 64 wide always carries the Hilbert reason, and that reason only appears after the low-confidence reason at confidence 0. The dimension check holds exactly for size 64, the normalisation check exactly when the norm is within 0.05 of 1 |
| Verification.FirstReasonExplains | logic/simulator.ts:161-167 | the first reason is the adversarial, semantic-mismatch or low-confidence message according to the predicted domain and confidence |
| Verification.HilbertReasonOnlyInFallback | logic/simulator.ts:169-172 | the Hilbert-dimension reason occurs only when all four scores are 0 |
| Verification.DefaultBatchIsValid | logic/simulator.ts:144-184 | with no metadata supplied, the prediction is Quantum Metadata at confidence 1.0, the verdict is valid with no reasons, and both checks hold |
| Verification.AbsurdValuesRejected | logic/simulator.ts:102-164 | a complex 64-entry record with full keyword score and a maximum of 5000 is classified as adversarial noise at 0.95 and rejected |
| Statistics.NullDistribution | logic/simulator.ts:197 | the null distribution has 100 samples, each in [0.45, 0.55) |
| Statistics.AtLeast | logic/simulator.ts:199 | as a multiset, the result holds every sample at or above the observation as often as the input does, and nothing else, so its length is the number of such samples |
| Statistics.PValue | logic/simulator.ts:199 | the p-value lies in [0, 1] |
| Statistics.PValueAntitone | logic/simulator.ts:199 | the p-value never increases as the observed accuracy grows |
| Statistics.PValueBelowAlpha | logic/simulator.ts:199-200 | with 100 samples, p < 0.05 exactly when fewer than 5 samples are at or above the observation |
| Statistics.PValueOutsideNullRange | logic/simulator.ts:197-199 | an observation ≥ 0.55 has p-value 0 and one < 0.45 has p-value 1 |
| Statistics.MeanInRange | logic/simulator.ts:198 | the mean of a null distribution lies in [0.45, 0.55) |
| Statistics.StatisticalGate | logic/simulator.ts:197-200 | the gate's null distribution is the one drawn from the given draws; its p-value times 100 is the count of samples reaching the observation; its mean times 100 is the samples' sum and lies in [0.45, 0.55); the p-value is in [0, 1]; the verdict is valid exactly when p < 0.05, i.e. fewer than 5 samples reach the observation; observations above or below the null range are decided outright |
| Statistics.GateMonotone | logic/simulator.ts:199-200 | a higher observed accuracy never turns a valid statistical verdict invalid |
| Snapshot.Combine | logic/simulator.ts:202 | the final verdict is valid exactly when both gates are valid |
| Snapshot.GenerateAuditSnapshot | logic/simulator.ts:187-236 | the snapshot is for the given task and label, its final accuracy is the last log's, its domain fields are those of the domain gate on the resolved metadata, its null, p-value and statistical fields are those of the statistical gate at the final accuracy, its final verdict is valid exactly when the domain is quantum at ≥ 0.8 and fewer than 5 null samples reach the final accuracy, and the reported constants are fixed |
| Snapshot.DefaultSnapshotVerdict | logic/simulator.ts:190-202 | without an upload the final verdict equals the statistical verdict, and it is valid once the final accuracy reaches 0.55 |
| Snapshot.NonQuantumDataNeverValid | logic/simulator.ts:161-202 | data that classifies outside the quantum domains always yields an invalid snapshot with at least one reason |
| Epoch.ConfusionCounts | logic/simulator.ts:252-255 | TP = TN is the nearest integer to 50 · accuracy (at most 50), FP is the nearest integer to 40% of the remaining 100 − 2 TP, and the four counts sum to 100 |
| Epoch.Precision | logic/simulator.ts:261 | precision lies in [0, 1]; it is 0 exactly when TP = 0 (including 0/0) and 1 exactly when there are positives and no false ones |
| Epoch.Recall | logic/simulator.ts:262 | recall lies in [0, 1]; it is 0 exactly when TP = 0 and 1 exactly when there are positives and no misses |
| Epoch.F1 | logic/simulator.ts:263 | F1 lies in [0, 1] and between precision and recall; it is 0 exactly when either is 0 (including 0/0) and 1 exactly when both are 1 |
| Epoch.HarmonicMeanBetween | logic/simulator.ts:263 | the harmonic mean of two values in [0, 1] lies between them, is 0 iff one is 0, and is 1 iff both are 1 |
| Epoch.SimulateEpoch | logic/simulator.ts:238-268 | the log carries its epoch number and the curve's loss; its accuracy is the curve's, capped at 0.99; its confusion counts are those of that accuracy, and its precision, recall and F1 are those of its counts, so they lie in [0, 1]; its validity score is 0.5 + 0.4 · accuracy, within [0.5, 0.896]; its coercivities copy the previous ones (or the initial ones), with only the task's entry drifting up by less than 0.02 |
| Epoch.SimulateEpochKeepsCoercivities | logic/simulator.ts:250-251 | an epoch keeps one positive coercivity per task |
| Memory.InitialMemory | logic/simulator.ts:270-278 | the initial memory has 50 rows of 640 cells in [−0.05, 0.05), the domain slices and the initial coercivities |
| Memory.UpdateRow | logic/simulator.ts:287-294 | a row keeps its length; cells outside the slice are unchanged, and cells inside gain the ideal amplitude at `(col - start) % 64` times 0.15 plus noise times 0.05 |
| Memory.UpdateMemory | logic/simulator.ts:280-296 | only the task's slice changes, in every row, by the increment above; the shape, slices and coercivities are kept |
| Memory.UpdateMemoryBounds | logic/simulator.ts:289-291 | each slice cell grows by at least 0.15 times its ideal amplitude and by less than that plus 0.05 |
| Memory.SliceTilesIdealTwice | logic/simulator.ts:289-291 | both copies of basis index h in the slice receive the same ideal amplitude |
| Memory.UpdatesCommute | logic/simulator.ts:280-296 | two memory updates give the same matrix in either order |
| Interpret.RunAblationStudy | logic/simulator.ts:309-315 | five entries in domain order; the drops are 0.4/0.45 exactly at the task's domain and 0.02/0.03 elsewhere |
| Interpret.AblationSinglesOutTask | logic/simulator.ts:309-315 | the task's domain is the unique largest accuracy drop and has the largest F1 drop |
| Interpret.AblationInjective | logic/simulator.ts:309-315 | different tasks give different ablation tables |
| Interpret.DomainAttribution | logic/simulator.ts:305-307 | whatever the noise, the task's attribution is in [0.9, 0.95), every other is in [0.1, 0.15), and the task's is strictly largest |
| Interpret.FeatureScores | logic/simulator.ts:298-301 | forty features in index order; the eight signal features score in [0.8, 0.9) and outscore every other feature, which scores in [0.2, 0.3) |
| Ranking.Insert | logic/simulator.ts:302 | inserting into a score-sorted list keeps it sorted and adds exactly the inserted entry |
| Ranking.SortByScore | logic/simulator.ts:302 | the sort returns a permutation of its input in non-increasing score order |
| Ranking.SortAppend | logic/simulator.ts:302 | when every entry of one part outscores every entry of the other, sorting the concatenation sorts the parts separately |
| Ranking.CalculateFeatureImportance | logic/simulator.ts:298-303 | the result is the forty scores as a permutation sorted by decreasing score, and the first eight places hold exactly the eight signal features |
| History.Without | App.tsx:174 | the filter keeps the entries of other tasks in their original order (a subsequence), drops every entry of the key, and loses no other entry |
| History.WithoutAppend | App.tsx:174 | the filter distributes over concatenation |
| History.Upsert | App.tsx:174 | the new snapshot is last; the entries before it are the filtered history, none for the key |
| App.CurrentAudit | App.tsx:199 | the audit shown is the first entry of the history for the selected task, and there is none exactly when the history has no entry for it |
| History.Find | App.tsx:199 | the lookup returns the first entry for the task, or none exactly when no entry has that task |
| History.UpsertPreservesUniqueness | App.tsx:174 | keyed by the snapshot's own task, the upsert keeps at most one snapshot per task |
| History.FindAfterUpsert | App.tsx:174 | after an upsert keyed by the snapshot's task, the lookup of that task returns it and every other lookup is unchanged |
| History.FindAfterUpsertAll | App.tsx:174 | after any sequence of audits, the lookup of a task returns the most recent snapshot made for it, or the earlier answer if none was made |
| History.UpsertWithForeignKey | App.tsx:174 | keyed by a different task, the upsert deletes the key's entry, leaves two entries for the snapshot's task, and the lookup still finds the older one |
| Upload.MatchCount | App.tsx:118-120 | the count is the number of keyword positions whose keyword occurs in the text: at most the number of keywords, 0 exactly when none occurs, full exactly when all occur |
| Upload.FourKeywordsSaturate | App.tsx:118-121 | once any four distinct keywords occur in the text, the semantic score is 1 |
| Upload.SemanticScore | App.tsx:121 | the score lies in [0, 1]; it is 1 iff ≥ 4 keywords match, < 0.2 iff none match, > 0.3 iff ≥ 2 match, and > 0.5 iff ≥ 3 match |
| Upload.UploadEntropy | App.tsx:141-145 | the entropy is 5.95 exactly when the variance exceeds 10 and the semantic score is below 0.2, and 4.2 otherwise |
| Upload.NonBlank | App.tsx:114 | every kept line is a non-blank input line; the first kept line is preceded only by blank lines; none are kept exactly when every line is blank |
| Upload.UploadSize | App.tsx:114-124 | the size is 0 exactly when every line is blank; otherwise it is one more than the number of commas in the first non-blank line |
| Upload.UploadMeta | App.tsx:112-157 | the upload has ndim 2 and norm 1; the complex flag is set exactly when the upper-cased text contains "J" or "COMPLEX"; the entropy is 5.95 exactly when the variance exceeds 10 and the semantic score is below 0.2, and 4.2 otherwise; the size is as above |
| Upload.UploadEntropyNeverAdversarial | App.tsx:143-145 | an upload never reaches the adversarial rule through its entropy branch; only absurd values with ≥ 3 keywords do |
| Upload.UploadAlwaysNormalized | App.tsx:150 | the normalisation check always passes for an upload |
| App.InitialState | App.tsx:59-71 | the initial state is idle, with no logs or history, task GHZ, seed 42 and dataset size 1000; its memory is the initial memory drawn from the given draws (cells in [−0.05, 0.05), with the slices and coercivities), and the feature-importance, attribution and ablation outputs are empty |
| App.StartTraining | App.tsx:75-85 | while training, start does nothing; otherwise it starts a run with empty logs and interpretability outputs and keeps everything else |
| App.StartTrainingIdempotent | App.tsx:75-85 | pressing start twice is the same as pressing it once |
| App.SelectTask | App.tsx:254 | the task can be changed only while not training |
| App.StopRun | App.tsx:166-186 | at twenty logs the tick ends training, starts the audit, keeps logs and memory, and sets the ablation, attribution and importance outputs for the task |
| App.AdvanceEpoch | App.tsx:188-191 | below twenty logs the tick appends exactly the next epoch and updates the task's memory slice, keeping the invariant |
| App.Tick | App.tsx:164-192 | one tick keeps the invariant, the task and the history; at twenty logs it is the stop transition, below twenty the advance transition |
| App.Run | App.tsx:164-192 | any sequence of ticks keeps the invariant and the memory's row count |
| App.RunGrowsLog | App.tsx:164-192 | over any run of ticks, the log grows by one per tick up to twenty and keeps its earlier entries; past twenty the run stops |
| App.TwentyEpochRun | App.tsx:164-192 | a started run trains for twenty ticks with epochs numbered 1 to 20, and the twenty-first tick ends it |
| App.CompleteAudit | App.tsx:168-178 | the corrected completion changes only the history and clears the auditing flag; it keeps one snapshot per task, the lookup for the audited task returns the new snapshot, and every other lookup is unchanged |
| App.CompleteAuditAsWritten | App.tsx:168-178 | the completion as written changes only the history and clears the auditing flag; the history becomes the old one without the entries of the task selected at completion, followed by the snapshot; it agrees with the corrected one whenever the task selection did not change |
| App.TaskSwitchDuringAudit | App.tsx:166-178 | switching task during the audit delay (the selector at App.tsx line 254 is enabled again once training stops) makes the completion as written lose the new task's entry, duplicate the audited task, and keep returning the stale snapshot |

## Left out

- Square-root amplitudes, `log2` entropy and the entanglement indicator of `getPhysicsBaseline`:
  - the basis vectors are modelled by their exact squares;
  - the snapshot's `physics` field is not part of the model;
  - the memory update takes the task's amplitude vector as a parameter.
- The Random basis vector: it is drawn afresh on each call, so `IdealSquared` returns none for it.
- Float rounding: every real is exact. The JS `|| 0` NaN guards are modelled as explicit zero-denominator branches.
- The `exp`/`pow` accuracy and loss curves and their jitter: they arrive as `EpochSample`. Only the 0.99 cap and the downstream counts are modelled.
- `Math.round` is modelled for non-negative arguments only. Those are the only arguments the epoch computation gives it.
- Timers: `setInterval`, `setTimeout`, the 1500 ms delay and React's batching. Each transition is modelled as the updater function it passes to `setState`. Under React's strict mode an updater can run twice; that is not modelled.
- FileReader I/O, `parseFloat`, and the float mean/variance/maximum of the upload: the maximum and the variance are parameters of `UploadMeta`.
- `Text.ToUpper`: it upper-cases ASCII letters only. JS `toUpperCase` also maps non-ASCII letters. All keywords are ASCII, but a non-ASCII letter that upper-cases to an ASCII one is not modelled.
- String formatting: reason messages are constructors, not text. `toFixed`, the `toISOString` timestamp and the export panel are not modelled.
- Presentation: the JSX, the AuditPanel histogram, the dataset-size and seed inputs (the seed is never read by the simulator) and the tab state.
- `resetAll` is modelled as `InitialState`. The interval clean-up is not modelled.
- Tie-breaking in the feature-importance sort: the insertion sort places an entry ahead of later entries with equal score, as a stable sort does. Stability itself is not stated as a property.
- The network call to an external language model (services/geminiService.ts is not part of this model) and the build configuration.

## Findings

| source | as written | input that shows it | evidently intended | confidence | as-written member | corrected member |
|---|---|---|---|---|---|---|
| App.tsx:171-174 | The delayed audit completion filters the history by `s.currentTask`, the task selected when the 1500 ms timeout fires. The snapshot was built for `prev.currentTask`, the task of the finished run. The task selector is disabled only while training, not while auditing. | History holds a GHZ snapshot and a W snapshot. Train GHZ to 20 epochs. Within 1.5 s, select W. Result: the W snapshot is deleted, GHZ has two snapshots, and the GHZ lookup returns the old one. | Filter by the snapshot's own task (`a.taskIdx !== snapshot.taskIdx`), so that each task has at most one snapshot and the lookup returns the newest. | medium; not executed | App.CompleteAuditAsWritten (shown by App.TaskSwitchDuringAudit) | App.CompleteAudit |
