/** The audit history kept in the app state: the upsert that replaces a
    task's snapshot when an audit completes, and the lookup of the current
    task's snapshot. The upsert's filter key is a separate parameter, because
    the app filters by the task selected when the audit completes, which need
    not be the task the snapshot was made for. */
module History {
  import opened Wrappers
  import opened Constants
  import opened Snapshot

  type AuditHistory = seq<AuditSnapshot>

  /** `r` is `h` with some entries dropped and the rest kept in order. */
  predicate Subsequence(r: AuditHistory, h: AuditHistory)
    decreases |h|
  {
    if |r| == 0 then true
    else if |h| == 0 then false
    else (r[0] == h[0] && Subsequence(r[1..], h[1..])) || Subsequence(r, h[1..])
  }

  /** `h.filter(a => a.taskIdx !== key)`. */
  function Without(h: AuditHistory, key: TaskType): (r: AuditHistory)
    ensures Subsequence(r, h)
    ensures forall i :: 0 <= i < |r| ==> r[i].taskIdx != key
    ensures forall a :: a in h && a.taskIdx != key ==> a in r
    ensures forall a :: a in r ==> a in h
    ensures (forall i :: 0 <= i < |h| ==> h[i].taskIdx != key) ==> r == h
  {
    if |h| == 0 then []
    else if h[0].taskIdx == key then
      var rest := Without(h[1..], key);
      SubsequenceSkip(rest, h);
      rest
    else
      var rest := Without(h[1..], key);
      [h[0]] + rest
  }

  /** Dropping the head of `h` keeps every subsequence of its tail. */
  lemma SubsequenceSkip(r: AuditHistory, h: AuditHistory)
    requires |h| > 0 && Subsequence(r, h[1..])
    ensures Subsequence(r, h)
  {
  }

  /** The filter distributes over concatenation. */
  lemma {:induction false} WithoutAppend(a: AuditHistory, b: AuditHistory, key: TaskType)
    ensures Without(a + b, key) == Without(a, key) + Without(b, key)
    decreases |a|
  {
    if |a| == 0 {
      assert a + b == b;
    } else {
      assert (a + b)[1..] == a[1..] + b;
      WithoutAppend(a[1..], b, key);
    }
  }

  /** `[...h.filter(a => a.taskIdx !== key), snap]`. */
  function Upsert(h: AuditHistory, key: TaskType, snap: AuditSnapshot): (r: AuditHistory)
    ensures |r| > 0 && r[|r| - 1] == snap
    ensures r[..|r| - 1] == Without(h, key)
    ensures forall i :: 0 <= i < |r| - 1 ==> r[i].taskIdx != key && r[i] in h
    ensures forall a :: a in h && a.taskIdx != key ==> a in r
  {
    Without(h, key) + [snap]
  }

  /** `r` is the first entry of `h` for task `t`, or `None` when there is none. */
  predicate IsFirstFor(h: AuditHistory, t: TaskType, r: Option<AuditSnapshot>) {
    && (r.None? <==> forall i :: 0 <= i < |h| ==> h[i].taskIdx != t)
    && (r.Some? ==> exists i :: 0 <= i < |h| && h[i] == r.value && r.value.taskIdx == t &&
                      forall j :: 0 <= j < i ==> h[j].taskIdx != t)
  }

  /** `h.find(a => a.taskIdx === t)`: the first entry for `t`. */
  function Find(h: AuditHistory, t: TaskType): (r: Option<AuditSnapshot>)
    ensures r.None? <==> forall i :: 0 <= i < |h| ==> h[i].taskIdx != t
    ensures r.Some? ==> exists i :: 0 <= i < |h| && h[i] == r.value && r.value.taskIdx == t &&
                          forall j :: 0 <= j < i ==> h[j].taskIdx != t
  {
    if |h| == 0 then None
    else if h[0].taskIdx == t then Some(h[0])
    else
      var r := Find(h[1..], t);
      FirstForTail(h, t, r);
      r
  }

  /** When the head is for another task, the first entry for `t` in the tail
      is the first in the whole history. */
  lemma FirstForTail(h: AuditHistory, t: TaskType, r: Option<AuditSnapshot>)
    requires |h| > 0 && h[0].taskIdx != t && IsFirstFor(h[1..], t, r)
    ensures IsFirstFor(h, t, r)
  {
    if r.Some? {
      var i :| 0 <= i < |h| - 1 && h[1..][i] == r.value && r.value.taskIdx == t &&
               forall j :: 0 <= j < i ==> h[1..][j].taskIdx != t;
      assert h[i + 1] == r.value;
      forall j | 0 <= j < i + 1 ensures h[j].taskIdx != t {
        if j > 0 { assert h[j] == h[1..][j - 1]; }
      }
    } else {
      forall i | 0 <= i < |h| ensures h[i].taskIdx != t {
        if i > 0 { assert h[i] == h[1..][i - 1]; }
      }
    }
  }

  /** At most one snapshot per task. */
  predicate UniquePerTask(h: AuditHistory) {
    forall i, j :: 0 <= i < j < |h| ==> h[i].taskIdx != h[j].taskIdx
  }

  /** Keyed by the snapshot's own task, the upsert keeps at most one
      snapshot per task. */
  lemma UpsertPreservesUniqueness(h: AuditHistory, snap: AuditSnapshot)
    requires UniquePerTask(h)
    ensures UniquePerTask(Upsert(h, snap.taskIdx, snap))
  {
    var r := Upsert(h, snap.taskIdx, snap);
    var w := Without(h, snap.taskIdx);
    assert r == w + [snap];
    SubsequenceUnique(w, h);
  }

  /** A subsequence of a history with one snapshot per task has one too. */
  lemma {:induction false} SubsequenceUnique(r: AuditHistory, h: AuditHistory)
    requires Subsequence(r, h) && UniquePerTask(h)
    ensures UniquePerTask(r)
    decreases |h|
  {
    if |r| > 0 {
      assert |h| > 0;
      assert UniquePerTask(h[1..]);
      if r[0] == h[0] && Subsequence(r[1..], h[1..]) {
        SubsequenceUnique(r[1..], h[1..]);
        forall j | 0 < j < |r| ensures r[0].taskIdx != r[j].taskIdx {
          SubsequenceMember(r[1..], h[1..], j - 1);
          var k :| 0 <= k < |h[1..]| && h[1..][k] == r[1..][j - 1];
          assert h[k + 1] == r[j];
        }
        forall i, j | 0 < i < j < |r| ensures r[i].taskIdx != r[j].taskIdx {
          assert r[i] == r[1..][i - 1] && r[j] == r[1..][j - 1];
        }
      } else {
        SubsequenceUnique(r, h[1..]);
      }
    }
  }

  /** Every entry of a subsequence is an entry of the sequence. */
  lemma {:induction false} SubsequenceMember(r: AuditHistory, h: AuditHistory, i: nat)
    requires Subsequence(r, h) && i < |r|
    ensures exists k :: 0 <= k < |h| && h[k] == r[i]
    decreases |h|
  {
    assert |h| > 0;
    if r[0] == h[0] && Subsequence(r[1..], h[1..]) {
      if i == 0 {
        assert h[0] == r[0];
      } else {
        SubsequenceMember(r[1..], h[1..], i - 1);
        var k :| 0 <= k < |h[1..]| && h[1..][k] == r[1..][i - 1];
        assert h[k + 1] == r[i];
      }
    } else {
      SubsequenceMember(r, h[1..], i);
      var k :| 0 <= k < |h[1..]| && h[1..][k] == r[i];
      assert h[k + 1] == r[i];
    }
  }

  /** After an upsert keyed by the snapshot's task, the lookup of that task
      returns the new snapshot, and the lookup of every other task is what
      it was before. */
  lemma FindAfterUpsert(h: AuditHistory, snap: AuditSnapshot, t: TaskType)
    ensures Find(Upsert(h, snap.taskIdx, snap), snap.taskIdx) == Some(snap)
    ensures t != snap.taskIdx ==> Find(Upsert(h, snap.taskIdx, snap), t) == Find(h, t)
  {
    var w := Without(h, snap.taskIdx);
    FindAppend(w, [snap], snap.taskIdx);
    if t != snap.taskIdx {
      FindAppend(w, [snap], t);
      FindWithout(h, snap.taskIdx, t);
    }
  }

  /** The lookup in a concatenation looks in the second part only when the
      first has no entry for the task. */
  lemma {:induction false} FindAppend(a: AuditHistory, b: AuditHistory, t: TaskType)
    ensures Find(a + b, t) == if Find(a, t).Some? then Find(a, t) else Find(b, t)
    decreases |a|
  {
    if |a| == 0 {
      assert a + b == b;
    } else {
      assert (a + b)[1..] == a[1..] + b;
      FindAppend(a[1..], b, t);
    }
  }

  /** Removing the entries of another task does not change a lookup. */
  lemma {:induction false} FindWithout(h: AuditHistory, key: TaskType, t: TaskType)
    requires key != t
    ensures Find(Without(h, key), t) == Find(h, t)
    decreases |h|
  {
    if |h| > 0 {
      FindWithout(h[1..], key, t);
      if h[0].taskIdx != key {
        var rest := Without(h[1..], key);
        assert Without(h, key) == [h[0]] + rest;
        assert ([h[0]] + rest)[1..] == rest;
      }
    }
  }

  /** The history after upserting `snaps` in order, each keyed by its own task. */
  function UpsertAll(h: AuditHistory, snaps: seq<AuditSnapshot>): (r: AuditHistory)
    ensures UniquePerTask(h) ==> UniquePerTask(r)
    decreases |snaps|
  {
    if |snaps| == 0 then h
    else
      var h' := Upsert(h, snaps[0].taskIdx, snaps[0]);
      assert UniquePerTask(h) ==> UniquePerTask(h') by {
        if UniquePerTask(h) { UpsertPreservesUniqueness(h, snaps[0]); }
      }
      UpsertAll(h', snaps[1..])
  }

  /** The most recent snapshot for `t` among `snaps`, if there is one. */
  function LastFor(snaps: seq<AuditSnapshot>, t: TaskType): (r: Option<AuditSnapshot>)
    ensures r.Some? ==> r.value in snaps && r.value.taskIdx == t
    ensures r.None? <==> forall i :: 0 <= i < |snaps| ==> snaps[i].taskIdx != t
  {
    if |snaps| == 0 then None
    else if snaps[|snaps| - 1].taskIdx == t then Some(snaps[|snaps| - 1])
    else
      var r := LastFor(snaps[..|snaps| - 1], t);
      assert forall i :: 0 <= i < |snaps| - 1 ==> snaps[..|snaps| - 1][i] == snaps[i];
      r
  }

  /** After any run of audits, the lookup of a task returns the most recent
      snapshot made for it, or the earlier lookup when none was made. */
  lemma {:induction false} FindAfterUpsertAll(h: AuditHistory, snaps: seq<AuditSnapshot>, t: TaskType)
    ensures Find(UpsertAll(h, snaps), t) == if LastFor(snaps, t).Some? then LastFor(snaps, t) else Find(h, t)
    decreases |snaps|
  {
    if |snaps| > 0 {
      var h' := Upsert(h, snaps[0].taskIdx, snaps[0]);
      FindAfterUpsertAll(h', snaps[1..], t);
      FindAfterUpsert(h, snaps[0], t);
      LastForCons(snaps, t);
    }
  }

  /** The last snapshot for `t` is in the tail, or else it is the head. */
  lemma {:induction false} LastForCons(snaps: seq<AuditSnapshot>, t: TaskType)
    requires |snaps| > 0
    ensures LastFor(snaps, t) ==
      if LastFor(snaps[1..], t).Some? then LastFor(snaps[1..], t)
      else if snaps[0].taskIdx == t then Some(snaps[0]) else None
    decreases |snaps|
  {
    if |snaps| > 1 {
      var n := |snaps|;
      if snaps[n - 1].taskIdx != t {
        assert snaps[..n - 1][1..] == snaps[1..][..n - 2];
        LastForCons(snaps[..n - 1], t);
        assert snaps[..n - 1][0] == snaps[0];
      }
    }
  }

  /** An upsert keyed by another task than the snapshot's: the key's entry is
      gone, an earlier entry for the snapshot's task is still the one the
      lookup finds, and that task now has two entries. */
  lemma UpsertWithForeignKey(h: AuditHistory, key: TaskType, snap: AuditSnapshot, stale: AuditSnapshot)
    requires key != snap.taskIdx && Find(h, snap.taskIdx) == Some(stale)
    ensures Find(Upsert(h, key, snap), key) == None
    ensures Find(Upsert(h, key, snap), snap.taskIdx) == Some(stale)
    ensures !UniquePerTask(Upsert(h, key, snap))
  {
    var w := Without(h, key);
    var r := w + [snap];
    FindWithout(h, key, snap.taskIdx);
    FindAppend(w, [snap], snap.taskIdx);
    FindAppend(w, [snap], key);
    var i :| 0 <= i < |w| && w[i] == stale;
    assert r[i].taskIdx == r[|r| - 1].taskIdx;
  }
}
