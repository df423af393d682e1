/** The integer structure of the fixed 6-qubit basis vectors of
    `QuantumBackendV7`: population counts, the supports of GHZ, W and Dicke2,
    the Cluster sign rule, and the normalisation of each vector. Amplitudes
    that are square roots (1/sqrt(2), 1/sqrt(6), 1/sqrt(15)) are represented by
    their exact squares; the Cluster amplitude 1/sqrt(64) = 1/8 is exact. */
module Basis {
  import opened Text
  import opened Constants
  import opened Wrappers

  /** Number of qubits: indices are 6-bit numbers. */
  const Qubits: nat := 6

  function Pow2(k: nat): (p: nat)
    ensures p >= 1
  {
    if k == 0 then 1 else 2 * Pow2(k - 1)
  }

  /** `(n >> b) & 1`. */
  function Bit(n: nat, b: nat): nat {
    (n / Pow2(b)) % 2
  }

  /** Number of set bits of `n`, read off its bits. */
  function Popcount(n: nat): nat {
    if n == 0 then 0 else n % 2 + Popcount(n / 2)
  }

  function Digit(d: nat): char
    requires d < 2
  {
    if d == 0 then '0' else '1'
  }

  /** `n.toString(2)`: base-2 digits, most significant first, "0" for zero. */
  function BinaryString(n: nat): (r: string)
    ensures |r| >= 1
  {
    if n < 2 then [Digit(n)] else BinaryString(n / 2) + [Digit(n % 2)]
  }

  /** `popcount` as the source computes it: the number of pieces left when the
      binary string is split at every '1', minus one. */
  function PopcountAsWritten(n: nat): (c: int)
    ensures c == Popcount(n)
  {
    PopcountAsWrittenIsBitCount(n);
    |Split(BinaryString(n), '1')| - 1
  }

  /** The string-splitting `popcount` counts exactly the set bits. */
  lemma {:induction false} PopcountAsWrittenIsBitCount(n: nat)
    ensures |Split(BinaryString(n), '1')| - 1 == Popcount(n)
  {
    OnesInBinaryString(n);
  }

  lemma {:induction false} OnesInBinaryString(n: nat)
    ensures Occurrences(BinaryString(n), '1') == Popcount(n)
    decreases n
  {
    if n < 2 {
      assert BinaryString(n) == [Digit(n)];
      assert [Digit(n)][..0] == [];
      if n == 1 {
        assert Popcount(1) == 1 + Popcount(0);
      }
    } else {
      OnesInBinaryString(n / 2);
      OccurrencesAppend(BinaryString(n / 2), [Digit(n % 2)], '1');
      assert [Digit(n % 2)][..0] == [];
    }
  }

  /** Number of indices below `n` with exactly `j` set bits. */
  function CountPop(n: nat, j: nat): nat {
    if n == 0 then 0 else CountPop(n - 1, j) + (if Popcount(n - 1) == j then 1 else 0)
  }

  /** C(k, j), by Pascal's rule. */
  function Binom(k: nat, j: nat): nat {
    if j == 0 then 1 else if k == 0 then 0 else Binom(k - 1, j - 1) + Binom(k - 1, j)
  }

  lemma PopcountOfDouble(m: nat)
    ensures Popcount(2 * m) == Popcount(m)
    ensures Popcount(2 * m + 1) == Popcount(m) + 1
  {
    assert (2 * m + 1) % 2 == 1 && (2 * m + 1) / 2 == m;
    if m > 0 {
      assert (2 * m) % 2 == 0 && (2 * m) / 2 == m;
    }
  }

  /** The indices below `2n` are the even `2m` (same population count as `m`)
      and the odd `2m + 1` (one more), for `m < n`. */
  lemma {:induction false} CountPopOfDouble(n: nat, j: nat)
    ensures CountPop(2 * n, j) == CountPop(n, j) + (if j == 0 then 0 else CountPop(n, j - 1))
  {
    if n > 0 {
      CountPopOfDouble(n - 1, j);
      PopcountOfDouble(n - 1);
      assert CountPop(2 * n, j) == CountPop(2 * n - 2, j)
        + (if Popcount(2 * (n - 1)) == j then 1 else 0)
        + (if Popcount(2 * (n - 1) + 1) == j then 1 else 0);
    }
  }

  /** Among the `k`-bit indices exactly C(k, j) have `j` bits set. */
  lemma {:induction false} CountPopIsBinomial(k: nat, j: nat)
    ensures CountPop(Pow2(k), j) == Binom(k, j)
  {
    if k == 0 {
      assert CountPop(1, j) == CountPop(0, j) + (if Popcount(0) == j then 1 else 0);
    } else {
      CountPopIsBinomial(k - 1, j);
      if j > 0 {
        CountPopIsBinomial(k - 1, j - 1);
      }
      CountPopOfDouble(Pow2(k - 1), j);
    }
  }

  /** Number of indices below `n` satisfying `p`. */
  function CountWhere(n: nat, p: nat -> bool): nat {
    if n == 0 then 0 else CountWhere(n - 1, p) + (if p(n - 1) then 1 else 0)
  }

  /** Indices in `[a, b)` that fail `p` add nothing to the count. */
  lemma {:induction false} CountWhereGap(p: nat -> bool, a: nat, b: nat)
    requires a <= b
    requires forall i: nat :: a <= i < b ==> !p(i)
    ensures CountWhere(b, p) == CountWhere(a, p)
    decreases b
  {
    if a < b {
      CountWhereGap(p, a, b - 1);
    }
  }

  /** Sum of the entries of `s`. */
  function Sum(s: seq<real>): real {
    if |s| == 0 then 0.0 else Sum(s[..|s| - 1]) + s[|s| - 1]
  }

  function Squares(v: seq<real>): (sq: seq<real>)
    ensures |sq| == |v|
    ensures forall i :: 0 <= i < |v| ==> sq[i] == v[i] * v[i]
  {
    seq(|v|, i requires 0 <= i < |v| => v[i] * v[i])
  }

  /** A vector that is `c` where `p` holds and zero elsewhere sums to `c`
      times the number of such indices. */
  lemma {:induction false} SumOfClass(v: seq<real>, p: nat -> bool, c: real)
    requires forall i: nat :: i < |v| ==> v[i] == (if p(i) then c else 0.0)
    ensures Sum(v) == c * CountWhere(|v|, p) as real
    decreases |v|
  {
    if |v| > 0 {
      var n := |v|;
      var w := v[..n - 1];
      assert forall i :: 0 <= i < |w| ==> w[i] == v[i];
      SumOfClass(w, p, c);
      var k := CountWhere(n - 1, p);
      if p(n - 1) {
        assert c * (k + 1) as real == c * k as real + c;
      }
    }
  }

  /** A vector that is `c` everywhere sums to `|v| * c`. */
  lemma {:induction false} SumOfConstant(v: seq<real>, c: real)
    requires forall i :: 0 <= i < |v| ==> v[i] == c
    ensures Sum(v) == |v| as real * c
    decreases |v|
  {
    if |v| > 0 {
      var n := |v|;
      var w := v[..n - 1];
      assert forall i :: 0 <= i < |w| ==> w[i] == v[i];
      SumOfConstant(w, c);
      assert (n - 1) as real * c + c == n as real * c;
    }
  }

  /** The indices `getGHZ` sets. */
  predicate InGhzSupport(i: nat) {
    i == 0 || i == 63
  }

  /** The indices `getW` sets: the single-bit positions 1, 2, 4, ..., 32. */
  predicate InWSupport(i: nat) {
    i == 1 || i == 2 || i == 4 || i == 8 || i == 16 || i == 32
  }

  /** The indices `getDicke2` marks: those whose `popcount` is 2. */
  predicate InDicke2Support(i: nat) {
    Popcount(i) == 2
  }

  lemma GhzSupportSize()
    ensures CountWhere(64, InGhzSupport) == 2
  {
    assert CountWhere(1, InGhzSupport) == 1;
    CountWhereGap(InGhzSupport, 1, 63);
  }

  /** One index `a` satisfying `p`, followed by a gap up to `b`, adds one to
      the count. */
  lemma CountWhereHit(p: nat -> bool, a: nat, b: nat)
    requires a < b && p(a)
    requires forall i: nat :: a < i < b ==> !p(i)
    ensures CountWhere(b, p) == CountWhere(a, p) + 1
  {
    CountWhereGap(p, a + 1, b);
  }

  lemma WSupportSize()
    ensures CountWhere(64, InWSupport) == 6
  {
    var p := InWSupport;
    CountWhereGap(p, 0, 1);
    CountWhereHit(p, 1, 2);
    CountWhereHit(p, 2, 4);
    CountWhereHit(p, 4, 8);
    CountWhereHit(p, 8, 16);
    CountWhereHit(p, 16, 32);
    CountWhereHit(p, 32, 64);
  }

  lemma {:induction false} Dicke2CountIsCountPop(n: nat)
    ensures CountWhere(n, InDicke2Support) == CountPop(n, 2)
  {
    if n > 0 {
      Dicke2CountIsCountPop(n - 1);
    }
  }

  /** C(6, 2) = 15 six-bit indices have two bits set. */
  lemma Dicke2SupportSize()
    ensures CountPop(64, 2) == 15
    ensures CountWhere(64, InDicke2Support) == 15
  {
    CountPopIsBinomial(6, 2);
    assert Pow2(6) == 64;
    assert Binom(6, 2) == 15;
    Dicke2CountIsCountPop(64);
  }

  /** `getGHZ`, squared: weight 1/2 at indices 0 and 63 only, summing to one. */
  function GhzSquared(): (v: seq<real>)
    ensures |v| == HilbertDim
    ensures forall i: nat :: i < HilbertDim ==> (v[i] != 0.0 <==> InGhzSupport(i))
    ensures forall i: nat :: i < HilbertDim && InGhzSupport(i) ==> v[i] == 0.5
    ensures Sum(v) == 1.0
  {
    var v := seq(64, i requires 0 <= i < 64 => if InGhzSupport(i) then 0.5 else 0.0);
    SumOfClass(v, InGhzSupport, 0.5);
    GhzSupportSize();
    v
  }

  /** `getW`, squared: weight 1/6 on the six single-bit indices only, summing
      to one. */
  function WSquared(): (v: seq<real>)
    ensures |v| == HilbertDim
    ensures forall i: nat :: i < HilbertDim ==> (v[i] != 0.0 <==> InWSupport(i))
    ensures forall i: nat :: i < HilbertDim && InWSupport(i) ==> v[i] == 1.0 / 6.0
    ensures Sum(v) == 1.0
  {
    var v := seq(64, i requires 0 <= i < 64 => if InWSupport(i) then 1.0 / 6.0 else 0.0);
    SumOfClass(v, InWSupport, 1.0 / 6.0);
    WSupportSize();
    v
  }

  /** The squared Dicke2 vector as a definition: weight 1/15 on the fifteen
      indices with two bits set, summing to one. */
  function Dicke2IdealSquared(): (v: seq<real>)
    ensures |v| == HilbertDim
    ensures forall i: nat :: i < HilbertDim ==> v[i] == (if InDicke2Support(i) then 1.0 / 15.0 else 0.0)
    ensures Sum(v) == 1.0
  {
    var v := seq(64, i => if i >= 0 && InDicke2Support(i) then 1.0 / 15.0 else 0.0);
    assert forall i: nat :: i < |v| ==> v[i] == (if InDicke2Support(i) then 1.0 / 15.0 else 0.0);
    Dicke2SumsToOne(v);
    v
  }

  /** Any 64-entry vector with weight 1/15 exactly on the Dicke2 support sums
      to one. */
  lemma Dicke2SumsToOne(v: seq<real>)
    requires |v| == HilbertDim
    requires forall i: nat :: i < |v| ==> v[i] == (if InDicke2Support(i) then 1.0 / 15.0 else 0.0)
    ensures Sum(v) == 1.0
  {
    SumOfClass(v, InDicke2Support, 1.0 / 15.0);
    Dicke2SupportSize();
  }

  /** The squared Cluster vector as a definition: the uniform weight 1/64,
      summing to one. */
  function ClusterIdealSquared(): (v: seq<real>)
    ensures |v| == HilbertDim
    ensures forall i :: 0 <= i < HilbertDim ==> v[i] == 1.0 / 64.0
    ensures Sum(v) == 1.0
  {
    var v := seq(64, i => 1.0 / 64.0);
    SumOfConstant(v, 1.0 / 64.0);
    v
  }

  /** The marking loop of `getDicke2`: 1 at every index whose `popcount` is
      2, 0 elsewhere, and the number of marks. */
  method MarkDicke2() returns (marks: seq<real>, count: nat)
    ensures |marks| == HilbertDim
    ensures count == CountWhere(HilbertDim, InDicke2Support)
    ensures forall k: nat :: k < HilbertDim ==> marks[k] == (if InDicke2Support(k) then 1.0 else 0.0)
  {
    marks := [];
    count := 0;
    for i := 0 to 64
      invariant |marks| == i
      invariant count == CountWhere(i, InDicke2Support)
      invariant forall k: nat :: k < i ==> marks[k] == (if InDicke2Support(k) then 1.0 else 0.0)
    {
      if PopcountAsWritten(i) == 2 {
        marks := marks + [1.0];
        count := count + 1;
      } else {
        marks := marks + [0.0];
      }
    }
  }

  /** `getDicke2`, squared: the marks scaled by 1/count (the square of the
      source's 1/sqrt(count)); weight 1/15 on the fifteen indices with two
      bits set, summing to one. */
  method Dicke2Squared() returns (v: seq<real>, count: nat)
    ensures count == 15
    ensures v == Dicke2IdealSquared()
    ensures |v| == HilbertDim
    ensures forall i: nat :: i < HilbertDim ==> v[i] == (if InDicke2Support(i) then 1.0 / 15.0 else 0.0)
    ensures Sum(v) == 1.0
  {
    var marks;
    marks, count := MarkDicke2();
    Dicke2SupportSize();
    v := seq(64, i requires 0 <= i < 64 => marks[i] * marks[i] / count as real);
    assert v == Dicke2IdealSquared();
  }

  /** Number of adjacent bit pairs (b, b+1), b < `upTo`, both set in `i`. */
  function PairsBelow(i: nat, upTo: nat): nat {
    if upTo == 0 then 0
    else PairsBelow(i, upTo - 1) + (if Bit(i, upTo - 1) == 1 && Bit(i, upTo) == 1 then 1 else 0)
  }

  /** Adjacent set-bit pairs of a 6-bit index (bit pairs 0-1 up to 4-5). */
  function AdjacentPairs(i: nat): nat {
    PairsBelow(i, Qubits - 1)
  }

  /** (-1)^n. */
  function Sign(n: nat): (s: real)
    ensures s == 1.0 || s == -1.0
    ensures s * s == 1.0
  {
    if n % 2 == 0 then 1.0 else -1.0
  }

  /** `getCluster`: start every entry at 1/sqrt(64) = 1/8 and flip its sign
      once for each adjacent pair of set bits; every entry has magnitude 1/8
      and the squares sum to one. */
  method ClusterVector() returns (v: seq<real>)
    ensures |v| == HilbertDim
    ensures forall i: nat :: i < HilbertDim ==> v[i] == Sign(AdjacentPairs(i)) / 8.0
    ensures forall i: nat :: i < HilbertDim ==> v[i] * v[i] == 1.0 / 64.0
    ensures Squares(v) == ClusterIdealSquared()
    ensures Sum(Squares(v)) == 1.0
  {
    v := [];
    for i := 0 to 64
      invariant |v| == i
      invariant forall k: nat :: k < i ==> v[k] == Sign(AdjacentPairs(k)) / 8.0
    {
      var phase := 1.0;
      for bit := 0 to 5
        invariant phase == Sign(PairsBelow(i, bit))
      {
        if Bit(i, bit) == 1 && Bit(i, bit + 1) == 1 {
          phase := -phase;
        }
      }
      v := v + [phase / 8.0];
    }
    UniformSquares(v);
  }

  /** A 64-entry vector whose entries all square to 1/64 squares to the
      uniform Cluster weights. */
  lemma UniformSquares(v: seq<real>)
    requires |v| == HilbertDim
    requires forall i: nat :: i < HilbertDim ==> v[i] * v[i] == 1.0 / 64.0
    ensures Squares(v) == ClusterIdealSquared()
  {
    var u := ClusterIdealSquared();
    assert forall i :: 0 <= i < |v| ==> Squares(v)[i] == u[i];
  }

  /** The squared ideal vector of a task; none for the Random task, whose
      vector is drawn afresh on every call. */
  function IdealSquared(t: TaskType): (r: Option<seq<real>>)
    ensures r.None? <==> t == RandomVsNonRandom
    ensures r.Some? ==> |r.value| == HilbertDim && Sum(r.value) == 1.0
  {
    match t
    case GhzVsNonGhz => Some(GhzSquared())
    case WVsNonW => Some(WSquared())
    case Dicke2VsNonDicke2 => Some(Dicke2IdealSquared())
    case ClusterVsNonCluster => Some(ClusterIdealSquared())
    case RandomVsNonRandom => None
  }

  /** The purity reported by `getPhysicsBaseline`: the squared norm, capped at one. */
  function Purity(sq: seq<real>): (p: real)
    ensures p <= 1.0
    ensures p == 1.0 <==> Sum(sq) >= 1.0
    ensures Sum(sq) < 1.0 ==> p == Sum(sq)
  {
    if 1.0 <= Sum(sq) then 1.0 else Sum(sq)
  }

  /** `isPure`: the purity is within 1e-4 of one. */
  predicate IsPure(sq: seq<real>) {
    -0.0001 < Purity(sq) - 1.0 < 0.0001
  }

  /** Every deterministic ideal vector is normalised, so its baseline reports
      purity one and a pure state. */
  lemma DeterministicIdealsArePure(t: TaskType)
    requires t != RandomVsNonRandom
    ensures IdealSquared(t).Some?
    ensures |IdealSquared(t).value| == HilbertDim
    ensures Sum(IdealSquared(t).value) == 1.0
    ensures Purity(IdealSquared(t).value) == 1.0 && IsPure(IdealSquared(t).value)
  {
  }
}
