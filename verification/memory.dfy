/** The memory matrix (`generateInitialMemory`, `updateMemory`): 50 rows of
    640 columns, where an epoch on a task writes only into that task's
    128-column slice, adding a scaled copy of the task's ideal amplitude
    vector (tiled twice over the slice) plus uniform noise. */
module Memory {
  import opened Constants

  const MemoryRows: nat := 50
  /** Weight of the ideal amplitude and of the noise in one update. */
  const IdealWeight: real := 0.15
  const NoiseWeight: real := 0.05

  datatype MemoryState = MemoryState(matrix: seq<seq<real>>, slices: seq<DomainSlice>, coercivities: seq<real>)

  /** Every row spans the full memory width. */
  predicate WellFormed(m: MemoryState) {
    forall r :: 0 <= r < |m.matrix| ==> |m.matrix[r]| == MemoryWidth
  }

  /** Uniform draws in [0, 1), one per cell of a `rows` x `width` block. */
  predicate ValidDraws(d: seq<seq<real>>, rows: nat, width: nat) {
    |d| == rows && forall r :: 0 <= r < rows ==> |d[r]| == width && forall c :: 0 <= c < width ==> 0.0 <= d[r][c] < 1.0
  }

  /** `generateInitialMemory`, with its `Math.random()` draws supplied: each
      cell is `u * 0.1 - 0.05`. */
  function InitialMemory(draws: seq<seq<real>>): (m: MemoryState)
    requires ValidDraws(draws, MemoryRows, MemoryWidth)
    ensures WellFormed(m) && |m.matrix| == MemoryRows
    ensures forall r, c :: 0 <= r < MemoryRows && 0 <= c < MemoryWidth ==> -0.05 <= m.matrix[r][c] < 0.05
    ensures m.slices == DomainSlices && m.coercivities == InitialCoercivities
  {
    var matrix := seq(MemoryRows, r requires 0 <= r < MemoryRows =>
      seq(MemoryWidth, c requires 0 <= c < MemoryWidth => draws[r][c] * 0.1 - 0.05));
    MemoryState(matrix, DomainSlices, InitialCoercivities)
  }

  /** The increment one update adds to column `col` of a slice starting at
      `start`: the ideal amplitude at basis index `(col - start) % 64`, plus
      that cell's noise. */
  function Increment(ideal: seq<real>, noise: seq<real>, start: nat, col: nat): real
    requires |ideal| == HilbertDim && start <= col < start + |noise|
  {
    ideal[(col - start) % HilbertDim] * IdealWeight + noise[col - start] * NoiseWeight
  }

  /** One row of the update: the prefix before the slice and the suffix after
      it are copied, and the slice itself is rebuilt. */
  function UpdateRow(row: seq<real>, s: DomainSlice, ideal: seq<real>, noise: seq<real>): (r: seq<real>)
    requires s.start + |noise| == s.end <= |row| && |ideal| == HilbertDim
    ensures |r| == |row|
    ensures forall col :: 0 <= col < |row| && !InSlice(col, s) ==> r[col] == row[col]
    ensures forall col :: 0 <= col < |row| && InSlice(col, s) ==> r[col] == row[col] + Increment(ideal, noise, s.start, col)
  {
    var middle := seq(s.end - s.start, i requires 0 <= i < s.end - s.start =>
      row[s.start + i] + Increment(ideal, noise, s.start, s.start + i));
    var r := row[..s.start] + middle + row[s.end..];
    assert forall col :: 0 <= col < s.start ==> r[col] == row[col];
    assert forall col :: s.start <= col < s.end ==> r[col] == middle[col - s.start];
    assert forall col :: s.end <= col < |row| ==> r[col] == row[col];
    r
  }

  /** `updateMemory(prev, task)`, with the ideal amplitude vector of the task
      and one row of noise draws per matrix row supplied. */
  function UpdateMemory(m: MemoryState, t: TaskType, ideal: seq<real>, noise: seq<seq<real>>): (m': MemoryState)
    requires WellFormed(m) && |ideal| == HilbertDim
    requires ValidDraws(noise, |m.matrix|, 2 * HilbertDim)
    ensures WellFormed(m') && |m'.matrix| == |m.matrix|
    ensures m'.slices == m.slices && m'.coercivities == m.coercivities
    ensures forall r, col :: 0 <= r < |m.matrix| && 0 <= col < MemoryWidth && !InSlice(col, SliceOf(t)) ==>
      m'.matrix[r][col] == m.matrix[r][col]
    ensures forall r, col :: 0 <= r < |m.matrix| && InSlice(col, SliceOf(t)) ==>
      m'.matrix[r][col] == m.matrix[r][col] + Increment(ideal, noise[r], SliceOf(t).start, col)
  {
    var s := SliceOf(t);
    var matrix := seq(|m.matrix|, r requires 0 <= r < |m.matrix| => UpdateRow(m.matrix[r], s, ideal, noise[r]));
    m.(matrix := matrix)
  }

  /** Each cell of the slice grows by the ideal amplitude's share, and by
      less than one noise weight on top of it. */
  lemma UpdateMemoryBounds(m: MemoryState, t: TaskType, ideal: seq<real>, noise: seq<seq<real>>, r: nat, col: nat)
    requires WellFormed(m) && |ideal| == HilbertDim
    requires ValidDraws(noise, |m.matrix|, 2 * HilbertDim)
    requires r < |m.matrix| && InSlice(col, SliceOf(t))
    ensures var h := (col - SliceOf(t).start) % HilbertDim;
      var delta := UpdateMemory(m, t, ideal, noise).matrix[r][col] - m.matrix[r][col];
      ideal[h] * IdealWeight <= delta < ideal[h] * IdealWeight + NoiseWeight
  {
    var s := SliceOf(t);
    assert 0.0 <= noise[r][col - s.start] < 1.0;
  }

  /** Both copies of basis index `h` in the slice, at offsets `h` and
      `h + 64`, receive the same ideal amplitude: the slice holds the
      64-dimensional vector twice. */
  lemma SliceTilesIdealTwice(m: MemoryState, t: TaskType, ideal: seq<real>, noise: seq<seq<real>>, r: nat, h: nat, copy: nat)
    requires WellFormed(m) && |ideal| == HilbertDim
    requires ValidDraws(noise, |m.matrix|, 2 * HilbertDim)
    requires r < |m.matrix| && h < HilbertDim && copy < 2
    ensures var col := SliceOf(t).start + h + copy * HilbertDim;
      UpdateMemory(m, t, ideal, noise).matrix[r][col] - m.matrix[r][col]
        == ideal[h] * IdealWeight + noise[r][h + copy * HilbertDim] * NoiseWeight
  {
    var s := SliceOf(t);
    var offset := h + copy * HilbertDim;
    assert offset < 2 * HilbertDim && offset % HilbertDim == h;
    UpdatedCell(m, t, ideal, noise, r, s.start + offset);
  }

  /** One cell of the slice after an update. */
  lemma UpdatedCell(m: MemoryState, t: TaskType, ideal: seq<real>, noise: seq<seq<real>>, r: nat, col: nat)
    requires WellFormed(m) && |ideal| == HilbertDim
    requires ValidDraws(noise, |m.matrix|, 2 * HilbertDim)
    requires r < |m.matrix| && InSlice(col, SliceOf(t))
    ensures UpdateMemory(m, t, ideal, noise).matrix[r][col] - m.matrix[r][col]
      == ideal[(col - SliceOf(t).start) % HilbertDim] * IdealWeight + noise[r][col - SliceOf(t).start] * NoiseWeight
  {
  }

  /** Updates only add to cells, so two updates give the same memory in
      either order, whatever their tasks. */
  lemma UpdatesCommute(m: MemoryState, t: TaskType, u: TaskType, a: seq<real>, na: seq<seq<real>>, b: seq<real>, nb: seq<seq<real>>)
    requires WellFormed(m) && |a| == HilbertDim && |b| == HilbertDim
    requires ValidDraws(na, |m.matrix|, 2 * HilbertDim) && ValidDraws(nb, |m.matrix|, 2 * HilbertDim)
    ensures UpdateMemory(UpdateMemory(m, t, a, na), u, b, nb) == UpdateMemory(UpdateMemory(m, u, b, nb), t, a, na)
  {
    var x := UpdateMemory(UpdateMemory(m, t, a, na), u, b, nb);
    var y := UpdateMemory(UpdateMemory(m, u, b, nb), t, a, na);
    forall r | 0 <= r < |m.matrix|
      ensures x.matrix[r] == y.matrix[r]
    {
      forall col | 0 <= col < MemoryWidth
        ensures x.matrix[r][col] == y.matrix[r][col]
      {
      }
    }
  }
}
