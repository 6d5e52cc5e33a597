/** When a stored ring keeps its keys: saving reads and writes it in two transactions. */
module KeyRings {
  import opened Prelude
  import opened KeyCatchUp
  import KE = KeyEnvelopes

  // ---------------------------------------------------------------- one write

  /** The write drops a key of d's ring that its saver had not read. */
  ghost predicate StaleWrite(w: World, step: Step, d: DeviceId) {
    step.WriteRing? && CanWrite(w, step.s) && DeviceOf(w, step.s) == d
    && exists k <- w.Ring(d) :: k !in SavingOf(w, step.s).ring && k != KeyOf(w, step.s)
  }

  ghost predicate RingKept(w: World, step: Step, d: DeviceId) {
    forall k <- w.Ring(d) :: k in Next(w, step).Ring(d)
  }

  /** Only a write of its own ring touches a device's ring. */
  lemma RingAfter(w: World, step: Step, d: DeviceId)
    ensures Next(w, step).Ring(d) == if step.WriteRing? && CanWrite(w, step.s) && DeviceOf(w, step.s) == d
                                     then KE.Append(SavingOf(w, step.s).ring, KeyOf(w, step.s)) else w.Ring(d)
  {
    match step
    case WriteRing(s) =>
    case ReadRing(s) =>
    case _ =>
  }

  lemma KeptIff(w: World, step: Step, d: DeviceId)
    ensures RingKept(w, step, d) <==> !StaleWrite(w, step, d)
  {
    RingAfter(w, step, d);
  }

  // ---------------------------------------------------------------- whole runs

  ghost predicate RingsGrow(w: World, run: seq<Step>, d: DeviceId) {
    forall n | 0 <= n < |run| :: RingKept(Before(w, run, n), run[n], d)
  }

  ghost predicate StaleAt(w: World, run: seq<Step>, n: nat, d: DeviceId) {
    n < |run| && StaleWrite(Before(w, run, n), run[n], d)
  }

  ghost predicate Calm(w: World, run: seq<Step>, d: DeviceId) { forall n: nat :: !StaleAt(w, run, n, d) }

  lemma GrowIffCalm(w: World, run: seq<Step>, d: DeviceId)
    ensures RingsGrow(w, run, d) <==> Calm(w, run, d)
  {
    forall n: nat | n < |run| ensures RingKept(Before(w, run, n), run[n], d) <==> !StaleAt(w, run, n, d) {
      KeptIff(Before(w, run, n), run[n], d);
    }
  }

  /** The saver has read `ring` of d for `key` and not written yet. */
  predicate Reading(w: World, s: Saver, ring: seq<Key>, d: DeviceId, key: Key) {
    CanWrite(w, s) && SavingOf(w, s).ring == ring && DeviceOf(w, s) == d && KeyOf(w, s) == key
  }

  lemma ReadingBegins(w: World, step: Step, s: Saver, ring: seq<Key>, d: DeviceId, key: Key)
    requires Reading(Next(w, step), s, ring, d, key)
    ensures Reading(w, s, ring, d, key) || Next(w, step).Ring(d) == ring
  {
    match step
    case ReadRing(t) =>
    case WriteRing(t) =>
    case _ =>
  }

  /** Where the ring was read that a saver builds on. */
  lemma {:induction false} ReadAt(w: World, run: seq<Step>, i: nat, s: Saver, ring: seq<Key>, d: DeviceId, key: Key) returns (j: nat)
    requires Initial(w) && i <= |run| && Reading(Before(w, run, i), s, ring, d, key)
    ensures j <= i && Before(w, run, j).Ring(d) == ring
    ensures forall n | j <= n <= i :: Reading(Before(w, run, n), s, ring, d, key)
  {
    j := i;
    if i > 0 {
      BeforeNext(w, run, i - 1);
      ReadingBegins(Before(w, run, i - 1), run[i - 1], s, ring, d, key);
      if Before(w, run, i).Ring(d) != ring {
        j := ReadAt(w, run, i - 1, s, ring, d, key);
      }
    } else {
      BeforeEnd(w, run);
    }
  }

  lemma {:induction false} EntersAt(w: World, run: seq<Step>, d: DeviceId, k: Key, a: nat, b: nat) returns (m: nat)
    requires a <= b <= |run| && k !in Before(w, run, a).Ring(d) && k in Before(w, run, b).Ring(d)
    ensures a <= m < b && k !in Before(w, run, m).Ring(d) && k in Before(w, run, m + 1).Ring(d)
  {
    m := b - 1;
    if k in Before(w, run, m).Ring(d) { m := EntersAt(w, run, d, k, a, m); }
  }

  lemma {:induction false} LeavesAt(w: World, run: seq<Step>, d: DeviceId, k: Key, a: nat, b: nat) returns (m: nat)
    requires a <= b <= |run| && k in Before(w, run, a).Ring(d) && k !in Before(w, run, b).Ring(d)
    ensures a <= m < b && k in Before(w, run, m).Ring(d) && k !in Before(w, run, m + 1).Ring(d)
  {
    m := b - 1;
    if k !in Before(w, run, m).Ring(d) { m := LeavesAt(w, run, d, k, a, m); }
  }

  /**
    Step m puts a new key k into d's ring while the saver of write i has read the ring without it and
    writes another key.
  */
  ghost predicate SlipsIn(w: World, run: seq<Step>, d: DeviceId, m: nat, i: nat, k: Key)
    requires m < i < |run|
  {
    run[i].WriteRing? && CanWrite(Before(w, run, i), run[i].s)
    && var ring, key := SavingOf(Before(w, run, i), run[i].s).ring, KeyOf(Before(w, run, i), run[i].s);
    && (forall n | m <= n <= i :: Reading(Before(w, run, n), run[i].s, ring, d, key))
    && k !in Before(w, run, m).Ring(d) && k in Before(w, run, m + 1).Ring(d)
    && k !in ring && k != key
  }

  /** Some save's write of another new key falls between a save's read of d's ring and its write. */
  ghost predicate SaveInBetween(w: World, run: seq<Step>, d: DeviceId) {
    exists m, i, k: Key :: 0 <= m < i < |run| && SlipsIn(w, run, d, m, i, k)
  }

  lemma StaleMeansInBetween(w: World, run: seq<Step>, d: DeviceId, i: nat)
    requires Initial(w) && StaleAt(w, run, i, d)
    ensures SaveInBetween(w, run, d)
  {
    var u, s := Before(w, run, i), run[i].s;
    var ring, key := SavingOf(u, s).ring, KeyOf(u, s);
    var k :| k in u.Ring(d) && k !in ring && k != key;
    var j := ReadAt(w, run, i, s, ring, d, key);
    var m := EntersAt(w, run, d, k, j, i);
    assert SlipsIn(w, run, d, m, i, k);
  }

  lemma InBetweenMeansStale(w: World, run: seq<Step>, d: DeviceId, m: nat, i: nat, k: Key)
    requires m < i < |run| && SlipsIn(w, run, d, m, i, k)
    ensures !Calm(w, run, d)
  {
    if k in Before(w, run, i).Ring(d) {
      assert StaleAt(w, run, i, d);
    } else {
      var n := LeavesAt(w, run, d, k, m + 1, i);
      BeforeNext(w, run, n);
      assert !Calm(w, run, d) <== StaleAt(w, run, n, d);
      KeptIff(Before(w, run, n), run[n], d);
    }
  }

  /**
    In every run a device's ring keeps all its keys exactly when no save of another new key falls between
    the read and the write of a save of that ring.
  */
  lemma RingsGrowIff(w: World, run: seq<Step>, d: DeviceId)
    requires Initial(w)
    ensures RingsGrow(w, run, d) <==> !SaveInBetween(w, run, d)
  {
    GrowIffCalm(w, run, d);
    forall i: nat | StaleAt(w, run, i, d) ensures SaveInBetween(w, run, d) {
      StaleMeansInBetween(w, run, d, i);
    }
    forall m, i, k: Key | 0 <= m < i < |run| && SlipsIn(w, run, d, m, i, k) ensures !Calm(w, run, d) {
      InBetweenMeansStale(w, run, d, m, i, k);
    }
  }

  // ---------------------------------------------------------------- a ring that grows, grows at its end

  ghost predicate SnapshotOk(w: World, s: Saver, d: DeviceId) {
    CanWrite(w, s) && DeviceOf(w, s) == d ==> IsPrefix(SavingOf(w, s).ring, w.Ring(d))
  }

  /** What savers of d have read is an initial part of its ring, which repeats no key. */
  ghost predicate SnapshotsOk(w: World, d: DeviceId) {
    NoRepeats(w.Ring(d)) && forall s: Saver :: SnapshotOk(w, s, d)
  }

  /** A write that drops nothing is what an atomic save would have written. */
  lemma WriteIsAppend(ring: seq<Key>, now: seq<Key>, key: Key)
    requires IsPrefix(ring, now) && NoRepeats(now) && forall k <- now :: k in ring || k == key
    ensures KE.Append(ring, key) == KE.Append(now, key)
    ensures IsPrefix(now, KE.Append(now, key)) && NoRepeats(KE.Append(now, key))
  {
    if |now| > |ring| {
      var n := |ring|;
      forall i | n <= i < |now| ensures now[i] == key {
        forall j | 0 <= j < n ensures ring[j] != now[i] { assert ring[j] == now[j]; }
        assert now[i] in now && now[i] !in ring;
      }
      assert now[n] == key && now[|now| - 1] == key;
      assert now == ring + [key];
      assert key !in ring by {
        forall j | 0 <= j < n ensures ring[j] != key { assert now[j] == ring[j] && now[n] == key; }
      }
    } else {
      assert now == ring;
    }
  }

  /** Without a stale write every save of d acts as if it were one step. */
  lemma CalmStep(w: World, step: Step, d: DeviceId)
    requires SnapshotsOk(w, d) && !StaleWrite(w, step, d)
    ensures SnapshotsOk(Next(w, step), d) && IsPrefix(w.Ring(d), Next(w, step).Ring(d))
    ensures step.WriteRing? && CanWrite(w, step.s) && DeviceOf(w, step.s) == d ==>
              Next(w, step).Ring(d) == KE.Append(w.Ring(d), KeyOf(w, step.s))
  {
    RingAfter(w, step, d);
    if step.WriteRing? && CanWrite(w, step.s) && DeviceOf(w, step.s) == d {
      assert SnapshotOk(w, step.s, d);
      WriteIsAppend(SavingOf(w, step.s).ring, w.Ring(d), KeyOf(w, step.s));
    }
    forall s: Saver ensures SnapshotOk(Next(w, step), s, d) {
      assert SnapshotOk(w, s, d);
      if CanWrite(Next(w, step), s) && DeviceOf(Next(w, step), s) == d {
        ReadingBegins(w, step, s, SavingOf(Next(w, step), s).ring, d, KeyOf(Next(w, step), s));
      }
    }
  }

  lemma {:induction false} CalmRun(w: World, run: seq<Step>, n: nat, d: DeviceId)
    requires Initial(w) && n <= |run| && Calm(w, run, d)
    ensures SnapshotsOk(Before(w, run, n), d)
  {
    if n == 0 {
      BeforeEnd(w, run);
    } else {
      CalmRun(w, run, n - 1, d);
      BeforeNext(w, run, n - 1);
      assert !StaleAt(w, run, n - 1, d);
      CalmStep(Before(w, run, n - 1), run[n - 1], d);
    }
  }
}
