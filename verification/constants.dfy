/** The fixed tables of the dashboard: the five tasks and their labels, the
    memory slice owned by each task, and the initial coercivities. */
module Constants {

  /** `TaskType`, numbered 0..4 in declaration order. */
  datatype TaskType =
    | GhzVsNonGhz
    | WVsNonW
    | Dicke2VsNonDicke2
    | ClusterVsNonCluster
    | RandomVsNonRandom

  const TaskCount: nat := 5

  /** Width of the memory matrix rows. */
  const MemoryWidth: nat := 640

  /** Dimension of the 6-qubit Hilbert space. */
  const HilbertDim: nat := 64

  function TaskIndex(t: TaskType): (k: nat)
    ensures k < TaskCount
  {
    match t
    case GhzVsNonGhz => 0
    case WVsNonW => 1
    case Dicke2VsNonDicke2 => 2
    case ClusterVsNonCluster => 3
    case RandomVsNonRandom => 4
  }

  /** The task numbered `k`; inverse of `TaskIndex`. */
  function TaskOf(k: nat): (t: TaskType)
    requires k < TaskCount
    ensures TaskIndex(t) == k
  {
    if k == 0 then GhzVsNonGhz
    else if k == 1 then WVsNonW
    else if k == 2 then Dicke2VsNonDicke2
    else if k == 3 then ClusterVsNonCluster
    else RandomVsNonRandom
  }

  lemma TaskIndexInjective(t: TaskType, u: TaskType)
    ensures TaskIndex(t) == TaskIndex(u) ==> t == u
    ensures TaskOf(TaskIndex(t)) == t
  {
  }

  /** `TASK_LABELS`. */
  function TaskLabel(t: TaskType): string {
    match t
    case GhzVsNonGhz => "GHZ vs non-GHZ"
    case WVsNonW => "W vs non-W"
    case Dicke2VsNonDicke2 => "Dicke2 vs non-Dicke2"
    case ClusterVsNonCluster => "Cluster vs non-Cluster"
    case RandomVsNonRandom => "Random vs non-Random"
  }

  /** Every task has a non-empty label, and no two tasks share one. */
  lemma TaskLabelsDistinct(t: TaskType, u: TaskType)
    ensures |TaskLabel(t)| > 0
    ensures TaskLabel(t) == TaskLabel(u) ==> t == u
  {
  }

  /** A half-open column range `[start, end)` of the memory matrix. */
  datatype DomainSlice = DomainSlice(start: nat, end: nat)

  /** `DOMAIN_SLICES`. */
  const DomainSlices: seq<DomainSlice> := [
    DomainSlice(0, 128),
    DomainSlice(128, 256),
    DomainSlice(256, 384),
    DomainSlice(384, 512),
    DomainSlice(512, 640)
  ]

  /** `INITIAL_COERCIVITIES`. */
  const InitialCoercivities: seq<real> := [0.15, 0.22, 0.18, 0.30, 0.25]

  predicate InSlice(col: int, s: DomainSlice) {
    s.start <= col < s.end
  }

  /** The slice owned by task `t`. */
  function SliceOf(t: TaskType): (s: DomainSlice)
    ensures s.start == 128 * TaskIndex(t) && s.end == s.start + 128
    ensures s.end - s.start == 2 * HilbertDim
    ensures s.end <= MemoryWidth
  {
    DomainSlices[TaskIndex(t)]
  }

  /** One entry per task, and each entry is positive. */
  lemma InitialCoercivitiesShape()
    ensures |InitialCoercivities| == TaskCount
    ensures forall k :: 0 <= k < TaskCount ==> InitialCoercivities[k] > 0.0
  {
  }

  /** The slices tile `[0, MemoryWidth)`: every column belongs to the slice of
      exactly one task, the one numbered `col / 128`. */
  lemma SlicesPartitionMemory(col: int)
    requires 0 <= col < MemoryWidth
    ensures InSlice(col, SliceOf(TaskOf(col / 128)))
    ensures forall t :: InSlice(col, SliceOf(t)) <==> TaskIndex(t) == col / 128
  {
    forall t
      ensures InSlice(col, SliceOf(t)) <==> TaskIndex(t) == col / 128
    {
      var k := TaskIndex(t);
      assert InSlice(col, SliceOf(t)) <==> 128 * k <= col < 128 * k + 128;
    }
  }

  /** Distinct tasks own disjoint slices, and consecutive tasks own adjacent
      ones. */
  lemma SlicesDisjointAndContiguous(t: TaskType, u: TaskType)
    ensures t != u ==> SliceOf(t).end <= SliceOf(u).start || SliceOf(u).end <= SliceOf(t).start
    ensures TaskIndex(u) == TaskIndex(t) + 1 ==> SliceOf(t).end == SliceOf(u).start
    ensures TaskIndex(t) == 0 ==> SliceOf(t).start == 0
    ensures TaskIndex(t) == TaskCount - 1 ==> SliceOf(t).end == MemoryWidth
  {
  }

  /** Inside a slice, the basis index `(col - start) % 64` hits each of the
      64 basis indices at exactly two columns, `start + h` and `start + h + 64`. */
  lemma BasisIndexCoverage(t: TaskType, h: int)
    requires 0 <= h < HilbertDim
    ensures forall col :: InSlice(col, SliceOf(t)) && (col - SliceOf(t).start) % HilbertDim == h
              <==> col == SliceOf(t).start + h || col == SliceOf(t).start + h + HilbertDim
  {
    var s := SliceOf(t);
    forall col
      ensures InSlice(col, s) && (col - s.start) % HilbertDim == h
              <==> col == s.start + h || col == s.start + h + HilbertDim
    {
      if InSlice(col, s) {
        var d := col - s.start;
        assert 0 <= d < 128;
        if d < 64 {
          assert d % 64 == d;
        } else {
          assert d % 64 == d - 64;
        }
      }
    }
  }
}
