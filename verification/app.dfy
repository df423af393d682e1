/** The pure state transitions of the app component: starting a run, the
    200 ms training tick that stops after twenty epochs, the task selector,
    and the delayed audit completion that upserts the snapshot into the
    history. Timers, React batching and rendering are not modelled; each
    transition is the updater function passed to `setState`. */
module App {
  import opened Wrappers
  import opened Constants
  import opened Classifier
  import opened Epoch
  import opened Memory
  import opened Interpret
  import opened Ranking
  import opened Snapshot
  import opened History

  /** Epochs per training run. */
  const MaxEpochs: nat := 20
  const DefaultSeed: int := 42
  const DefaultDatasetSize: int := 1000

  datatype AppState = AppState(
    isTraining: bool,
    currentTask: TaskType,
    logs: seq<TrainingLog>,
    memory: MemoryState,
    seed: int,
    datasetSize: int,
    featureImportance: seq<FeatureImportance>,
    domainContributions: seq<real>,
    ablationResults: seq<AblationResult>,
    auditHistory: AuditHistory,
    isAuditing: bool)

  /** The state every tick keeps: at most twenty logs numbered 1, 2, ... in
      order, each with one positive coercivity per task, and a memory whose
      rows span the full width. */
  predicate Invariant(s: AppState) {
    && |s.logs| <= MaxEpochs
    && (forall i :: 0 <= i < |s.logs| ==> s.logs[i].epoch == i + 1)
    && (forall i :: 0 <= i < |s.logs| ==> WellFormedCoercivities(s.logs[i].coercivities))
    && WellFormed(s.memory)
  }

  /** The initial state of the component, also what `resetAll` restores, with
      the initial memory's draws supplied. */
  function InitialState(memoryDraws: seq<seq<real>>): (s: AppState)
    requires Memory.ValidDraws(memoryDraws, MemoryRows, MemoryWidth)
    ensures Invariant(s) && !s.isTraining && !s.isAuditing
    ensures s.logs == [] && s.auditHistory == [] && s.currentTask == GhzVsNonGhz
    ensures |s.memory.matrix| == MemoryRows
    ensures s.memory == InitialMemory(memoryDraws)
    ensures s.featureImportance == [] && s.domainContributions == [] && s.ablationResults == []
    ensures s.seed == 42 && s.datasetSize == 1000
  {
    AppState(
      isTraining := false,
      currentTask := GhzVsNonGhz,
      logs := [],
      memory := InitialMemory(memoryDraws),
      seed := DefaultSeed,
      datasetSize := DefaultDatasetSize,
      featureImportance := [],
      domainContributions := [],
      ablationResults := [],
      auditHistory := [],
      isAuditing := false)
  }

  /** `startTraining`: ignored while a run is in progress; otherwise starts a
      run from an empty log and clears the interpretability outputs, keeping
      the memory, the task and the audit history. */
  function StartTraining(s: AppState): (s': AppState)
    ensures s.isTraining ==> s' == s
    ensures !s.isTraining ==>
      && s'.isTraining && s'.logs == [] && s'.featureImportance == []
      && s'.domainContributions == [] && s'.ablationResults == []
      && s'.currentTask == s.currentTask && s'.memory == s.memory
      && s'.auditHistory == s.auditHistory && s'.isAuditing == s.isAuditing
      && s'.seed == s.seed && s'.datasetSize == s.datasetSize
    ensures Invariant(s) ==> Invariant(s')
  {
    if s.isTraining then s
    else s.(isTraining := true, logs := [], featureImportance := [], domainContributions := [], ablationResults := [])
  }

  /** Pressing start twice is the same as pressing it once. */
  lemma StartTrainingIdempotent(s: AppState)
    ensures StartTraining(StartTraining(s)) == StartTraining(s)
  {
  }

  /** The task selector's `onChange`; the selector is disabled while a run is
      in progress, but not while an audit is pending. */
  function SelectTask(s: AppState, t: TaskType): (s': AppState)
    ensures s.isTraining ==> s' == s
    ensures !s.isTraining ==> s'.currentTask == t && s' == s.(currentTask := t)
  {
    if s.isTraining then s else s.(currentTask := t)
  }

  /** The random draws and float curve values one tick consumes. */
  datatype TickDraws = TickDraws(
    epoch: EpochSample,
    ideal: seq<real>,
    noise: seq<seq<real>>,
    attribution: seq<real>,
    importance: seq<real>)

  /** Well-formed draws for a memory of `rows` rows: `ideal` is the task's
      amplitude vector, `noise` one draw per cell of the task's slice. */
  predicate ValidTickDraws(rows: nat, d: TickDraws) {
    && ValidSample(d.epoch)
    && |d.ideal| == HilbertDim
    && Memory.ValidDraws(d.noise, rows, 2 * HilbertDim)
    && |d.attribution| == TaskCount && UnitDraws(d.attribution)
    && |d.importance| == FeatureCount && UnitDraws(d.importance)
  }

  /** The previous log, or `null` before the first epoch. */
  function LastLog(logs: seq<TrainingLog>): (r: Option<TrainingLog>)
    ensures r.None? <==> |logs| == 0
    ensures r.Some? ==> r.value == logs[|logs| - 1]
  {
    if |logs| == 0 then None else Some(logs[|logs| - 1])
  }

  /** The tick that finds twenty logs: the run ends, the audit starts, and
      the interpretability outputs are computed for the current task. */
  function StopRun(s: AppState, d: TickDraws): (s': AppState)
    requires Invariant(s) && ValidTickDraws(|s.memory.matrix|, d)
    ensures Invariant(s') && s'.memory == s.memory && s'.logs == s.logs
    ensures s'.currentTask == s.currentTask && s'.auditHistory == s.auditHistory
    ensures !s'.isTraining && s'.isAuditing
    ensures s'.ablationResults == RunAblationStudy(s.currentTask)
    ensures s'.domainContributions == DomainAttribution(s.currentTask, d.attribution)
    ensures s'.featureImportance == CalculateFeatureImportance(d.importance)
    ensures s' == s.(isTraining := false, isAuditing := true,
                     featureImportance := s'.featureImportance,
                     domainContributions := s'.domainContributions,
                     ablationResults := s'.ablationResults)
  {
    s.(isTraining := false,
       isAuditing := true,
       featureImportance := CalculateFeatureImportance(d.importance),
       domainContributions := DomainAttribution(s.currentTask, d.attribution),
       ablationResults := RunAblationStudy(s.currentTask))
  }

  /** The tick below twenty logs: one more epoch, numbered after the last,
      and one memory update for the current task. */
  function AdvanceEpoch(s: AppState, d: TickDraws): (s': AppState)
    requires Invariant(s) && |s.logs| < MaxEpochs && ValidTickDraws(|s.memory.matrix|, d)
    ensures Invariant(s') && |s'.memory.matrix| == |s.memory.matrix|
    ensures s'.currentTask == s.currentTask && s'.auditHistory == s.auditHistory
    ensures |s'.logs| == |s.logs| + 1 && s'.logs[..|s.logs|] == s.logs
    ensures s'.logs[|s.logs|] == SimulateEpoch(|s.logs| + 1, LastLog(s.logs), s.currentTask, d.epoch)
    ensures s'.memory == UpdateMemory(s.memory, s.currentTask, d.ideal, d.noise)
    ensures s'.isTraining == s.isTraining && s'.isAuditing == s.isAuditing
    ensures s' == s.(logs := s'.logs, memory := s'.memory)
  {
    var prev := LastLog(s.logs);
    assert prev.Some? ==> WellFormedCoercivities(prev.value.coercivities);
    var log := SimulateEpoch(|s.logs| + 1, prev, s.currentTask, d.epoch);
    SimulateEpochKeepsCoercivities(|s.logs| + 1, prev, s.currentTask, d.epoch);
    var m := UpdateMemory(s.memory, s.currentTask, d.ideal, d.noise);
    AppendKeepsInvariant(s, log, m);
    s.(logs := s.logs + [log], memory := m)
  }

  /** Appending a well-formed log with the next epoch number and swapping in
      a well-formed memory keeps the state invariant. */
  lemma AppendKeepsInvariant(s: AppState, log: TrainingLog, m: MemoryState)
    requires Invariant(s) && |s.logs| < MaxEpochs
    requires log.epoch == |s.logs| + 1 && WellFormedCoercivities(log.coercivities)
    requires WellFormed(m)
    ensures Invariant(s.(logs := s.logs + [log], memory := m))
    ensures (s.logs + [log])[..|s.logs|] == s.logs
  {
    assert (s.logs + [log])[..|s.logs|] == s.logs;
  }

  /** The updater run by each 200 ms tick. At twenty logs it ends the run and
      computes the interpretability outputs; below that it appends the next
      epoch and updates the memory. */
  function Tick(s: AppState, d: TickDraws): (s': AppState)
    requires Invariant(s) && ValidTickDraws(|s.memory.matrix|, d)
    ensures Invariant(s') && |s'.memory.matrix| == |s.memory.matrix|
    ensures s'.currentTask == s.currentTask && s'.auditHistory == s.auditHistory
    ensures |s.logs| >= MaxEpochs ==> s' == StopRun(s, d)
    ensures |s.logs| < MaxEpochs ==> s' == AdvanceEpoch(s, d)
  {
    if |s.logs| >= MaxEpochs then StopRun(s, d) else AdvanceEpoch(s, d)
  }

  /** The state after one tick per entry of `ds`, in order. */
  function Run(s: AppState, ds: seq<TickDraws>): (s': AppState)
    requires Invariant(s)
    requires forall i :: 0 <= i < |ds| ==> ValidTickDraws(|s.memory.matrix|, ds[i])
    ensures Invariant(s') && |s'.memory.matrix| == |s.memory.matrix|
    decreases |ds|
  {
    if |ds| == 0 then s else Run(Tick(s, ds[0]), ds[1..])
  }

  function MinNat(a: nat, b: nat): nat { if a <= b then a else b }

  /** What a run of `n` ticks does to the log and the training flags. */
  predicate GrewBy(s: AppState, n: nat, r: AppState) {
    && |r.logs| == MinNat(|s.logs| + n, MaxEpochs)
    && |s.logs| <= |r.logs| && r.logs[..|s.logs|] == s.logs
    && (|s.logs| + n <= MaxEpochs ==> r.isTraining == s.isTraining)
    && (|s.logs| + n > MaxEpochs ==> !r.isTraining && r.isAuditing)
  }

  /** One tick followed by `n` more is a run of `n + 1` ticks. */
  lemma GrewByStep(s: AppState, s1: AppState, n: nat, r: AppState)
    requires |s.logs| <= MaxEpochs
    requires GrewBy(s, 1, s1) && GrewBy(s1, n, r)
    requires |s.logs| == MaxEpochs ==> r.logs == s1.logs && !r.isTraining && r.isAuditing
    ensures GrewBy(s, n + 1, r)
  {
    if |s.logs| < MaxEpochs {
      assert r.logs[..|s.logs|] == r.logs[..|s1.logs|][..|s.logs|];
    }
  }

  /** One tick is a run of one tick. */
  lemma TickGrows(s: AppState, d: TickDraws)
    requires Invariant(s) && ValidTickDraws(|s.memory.matrix|, d)
    ensures GrewBy(s, 1, Tick(s, d))
  {
    var s1 := Tick(s, d);
    assert |s.logs| < MaxEpochs ==> s1.logs[..|s.logs|] == s.logs;
  }

  /** A run grows the log one epoch per tick, up to twenty, and keeps every
      earlier epoch; once twenty logs exist, a tick ends the run. */
  lemma {:induction false} RunGrowsLog(s: AppState, ds: seq<TickDraws>)
    requires Invariant(s)
    requires forall i :: 0 <= i < |ds| ==> ValidTickDraws(|s.memory.matrix|, ds[i])
    ensures |Run(s, ds).logs| == MinNat(|s.logs| + |ds|, MaxEpochs)
    ensures |s.logs| <= |Run(s, ds).logs| && Run(s, ds).logs[..|s.logs|] == s.logs
    ensures |s.logs| + |ds| <= MaxEpochs ==> Run(s, ds).isTraining == s.isTraining
    ensures |s.logs| + |ds| > MaxEpochs ==> !Run(s, ds).isTraining && Run(s, ds).isAuditing
    decreases |ds|
  {
    if |ds| > 0 {
      var s1 := Tick(s, ds[0]);
      var rest := ds[1..];
      RunGrowsLog(s1, rest);
      var r := Run(s1, rest);
      assert r == Run(s, ds);
      TickGrows(s, ds[0]);
      if |s.logs| == MaxEpochs && |rest| > 0 {
        TicksAfterStopKeepStopped(s1, rest);
      }
      GrewByStep(s, s1, |rest|, r);
    } else {
      assert s.logs[..|s.logs|] == s.logs;
    }
  }

  /** A run started from an idle state trains for exactly twenty ticks,
      producing epochs 1 to 20, and the twenty-first tick ends it. */
  lemma TwentyEpochRun(s: AppState, ds: seq<TickDraws>)
    requires Invariant(s) && !s.isTraining && |ds| == MaxEpochs + 1
    requires forall i :: 0 <= i < |ds| ==> ValidTickDraws(|s.memory.matrix|, ds[i])
    ensures var trained := Run(StartTraining(s), ds[..MaxEpochs]);
      && trained.isTraining && |trained.logs| == MaxEpochs
      && (forall i :: 0 <= i < MaxEpochs ==> trained.logs[i].epoch == i + 1)
    ensures var done := Run(StartTraining(s), ds);
      && !done.isTraining && done.isAuditing && |done.logs| == MaxEpochs
  {
    var t := StartTraining(s);
    var first := ds[..MaxEpochs];
    assert forall i :: 0 <= i < |first| ==> first[i] == ds[i];
    RunGrowsLog(t, first);
    RunGrowsLog(t, ds);
  }

  /** Once stopped with twenty logs, further ticks keep the run stopped and
      the log unchanged. */
  lemma {:induction false} TicksAfterStopKeepStopped(s: AppState, ds: seq<TickDraws>)
    requires Invariant(s) && |s.logs| == MaxEpochs && !s.isTraining && s.isAuditing
    requires forall i :: 0 <= i < |ds| ==> ValidTickDraws(|s.memory.matrix|, ds[i])
    ensures Run(s, ds).logs == s.logs && !Run(s, ds).isTraining && Run(s, ds).isAuditing
    decreases |ds|
  {
    if |ds| > 0 {
      TicksAfterStopKeepStopped(Tick(s, ds[0]), ds[1..]);
    }
  }

  /** `state.auditHistory.find(a => a.taskIdx === state.currentTask)`. */
  function CurrentAudit(s: AppState): (r: Option<AuditSnapshot>)
    ensures r.Some? ==> r.value in s.auditHistory && r.value.taskIdx == s.currentTask
    ensures r.Some? ==> exists i :: (0 <= i < |s.auditHistory| && s.auditHistory[i] == r.value &&
      forall j :: 0 <= j < i ==> s.auditHistory[j].taskIdx != s.currentTask)
    ensures r.None? <==> forall i :: 0 <= i < |s.auditHistory| ==> s.auditHistory[i].taskIdx != s.currentTask
  {
    Find(s.auditHistory, s.currentTask)
  }

  /** The delayed audit completion, keyed by the snapshot's own task: the
      snapshot replaces any earlier one for that task. */
  function CompleteAudit(s: AppState, snap: AuditSnapshot): (s': AppState)
    ensures s' == s.(auditHistory := s'.auditHistory, isAuditing := false)
    ensures UniquePerTask(s.auditHistory) ==> UniquePerTask(s'.auditHistory)
    ensures Find(s'.auditHistory, snap.taskIdx) == Some(snap)
    ensures forall t :: t != snap.taskIdx ==> Find(s'.auditHistory, t) == Find(s.auditHistory, t)
  {
    var h := Upsert(s.auditHistory, snap.taskIdx, snap);
    assert UniquePerTask(s.auditHistory) ==> UniquePerTask(h) by {
      if UniquePerTask(s.auditHistory) { UpsertPreservesUniqueness(s.auditHistory, snap); }
    }
    assert forall t :: Find(h, snap.taskIdx) == Some(snap) && (t != snap.taskIdx ==> Find(h, t) == Find(s.auditHistory, t)) by {
      forall t ensures Find(h, snap.taskIdx) == Some(snap) && (t != snap.taskIdx ==> Find(h, t) == Find(s.auditHistory, t)) {
        FindAfterUpsert(s.auditHistory, snap, t);
      }
    }
    s.(auditHistory := h, isAuditing := false)
  }

  /** The audit completion as the component writes it: the filter key is the
      task selected when the timeout fires, not the snapshot's task. */
  function CompleteAuditAsWritten(s: AppState, snap: AuditSnapshot): (s': AppState)
    ensures s' == s.(auditHistory := s'.auditHistory, isAuditing := false)
    ensures s.currentTask == snap.taskIdx ==> s' == CompleteAudit(s, snap)
    ensures |s'.auditHistory| > 0 && s'.auditHistory[|s'.auditHistory| - 1] == snap
    ensures s'.auditHistory[..|s'.auditHistory| - 1] == Without(s.auditHistory, s.currentTask)
  {
    s.(auditHistory := Upsert(s.auditHistory, s.currentTask, snap), isAuditing := false)
  }

  /** If the task selection changes between the end of a run and the audit
      completion, the completion as written deletes the newly selected task's
      snapshot, keeps the stale one for the audited task (so the lookup for
      that task does not return the new snapshot), and leaves two snapshots
      for the audited task. The corrected completion returns the new one. */
  lemma TaskSwitchDuringAudit(s: AppState, d: TickDraws, u: TaskType, external: Option<MetaFeatures>, us: seq<real>, stale: AuditSnapshot)
    requires Invariant(s) && ValidTickDraws(|s.memory.matrix|, d) && |s.logs| >= MaxEpochs
    requires Statistics.ValidDraws(us)
    requires u != s.currentTask && Find(s.auditHistory, s.currentTask) == Some(stale)
    ensures var snap := GenerateAuditSnapshot(s.currentTask, s.logs, external, us);
      var pending := SelectTask(Tick(s, d), u);
      var asWritten := CompleteAuditAsWritten(pending, snap).auditHistory;
      && pending.currentTask == u
      && Find(asWritten, s.currentTask) == Some(stale)
      && Find(asWritten, u) == None
      && !UniquePerTask(asWritten)
      && Find(CompleteAudit(pending, snap).auditHistory, s.currentTask) == Some(snap)
  {
    var snap := GenerateAuditSnapshot(s.currentTask, s.logs, external, us);
    var stopped := Tick(s, d);
    var pending := SelectTask(stopped, u);
    assert !stopped.isTraining;
    assert pending.auditHistory == s.auditHistory;
    UpsertWithForeignKey(s.auditHistory, u, snap, stale);
    FindAfterUpsert(s.auditHistory, snap, s.currentTask);
  }
}
