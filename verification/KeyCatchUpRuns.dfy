/** Whole runs of the key catch-up protocol: exactly when every distributed key arrives. */
module KeyCatchUpRuns {
  import opened Prelude
  import opened KeyCatchUp
  import opened KeyRings
  import opened KeyDelivery
  import opened KeyArrival

  // ---------------------------------------------------------------- nothing lost on the way

  ghost predicate HasEveryKey(w: World, d: DeviceId) {
    forall v <- w.deliveries :: d in v.recipients ==> v.key in w.Ring(d)
  }

  ghost predicate AllCarried(w: World, d: DeviceId) {
    forall v <- w.deliveries :: d in v.recipients ==> Carried(w, d, v.epoch, v.key)
  }

  /** The step loses some key that was distributed to d. */
  ghost predicate LosesSome(w: World, step: Step, d: DeviceId) {
    exists v <- w.deliveries :: d in v.recipients && Loses(w, step, d, v.epoch, v.key)
  }

  /** Nothing pending for d, and no pass of d holds a letter it has not saved. */
  ghost predicate Drained(w: World, d: DeviceId) {
    NothingPending(w.rows, d) && forall p <- w.passes :: w.passes[p].device == d ==> Open(w.passes[p]) == []
  }

  ghost predicate NothingLost(w: World, run: seq<Step>, d: DeviceId) {
    forall n | 0 <= n < |run| :: !LossAt(w, run, n, d)
  }

  lemma DrainedCarriesInRing(w: World, d: DeviceId, e: Epoch, k: Key)
    requires Drained(w, d)
    ensures Carried(w, d, e, k) <==> k in w.Ring(d)
  {
    assert forall p <- w.passes :: !Holds(w.passes[p], d, k);
  }

  lemma DeliveredOrNew(w: World, step: Step, v: Delivery)
    requires v in Next(w, step).deliveries
    ensures v in w.deliveries || (step.Post? && CanPost(w, step.r, step.ids)
            && v == Delivery(w.rotations[step.r].key, step.ids.Keys, w.rotations[step.r].epoch.value, step.at))
  {
    if !step.Post? { OthersAddNothing(w, step); }
  }

  lemma DeliveriesStay(w: World, step: Step)
    ensures w.deliveries <= Next(w, step).deliveries
  {
    if !step.Post? { OthersAddNothing(w, step); }
  }

  lemma SomeBrought(w: World, v: Delivery, d: DeviceId)
    requires v in w.deliveries && d in v.recipients
    ensures BroughtBySome(w, d, v.epoch, v.key)
  {
    assert Brought(v, d, v.epoch, v.key);
  }

  /** All keys distributed to d keep a copy through a step exactly when the step loses none of them. */
  lemma AllCarriedIff(w: World, step: Step, d: DeviceId)
    requires Inv(w) && !StaleWrite(w, step, d) && AllCarried(w, d)
    ensures AllCarried(Next(w, step), d) <==> !LosesSome(w, step, d)
  {
    var u := Next(w, step);
    DeliveriesStay(w, step);
    forall v | v in w.deliveries && d in v.recipients
      ensures v in u.deliveries && (Carried(u, d, v.epoch, v.key) <==> !Loses(w, step, d, v.epoch, v.key))
    {
      SomeBrought(w, v, d);
      CarriedIff(w, step, d, v.epoch, v.key);
    }
    forall v | v in u.deliveries && v !in w.deliveries && d in v.recipients ensures Carried(u, d, v.epoch, v.key) {
      DeliveredOrNew(w, step, v);
      PostRows(w, step.r, step.ids, step.at, (d, v.epoch));
    }
  }

  lemma NotAllForGood(w: World, step: Step, d: DeviceId)
    requires Inv(w) && SnapshotsOk(w, d) && !AllCarried(w, d)
    ensures !AllCarried(Next(w, step), d)
  {
    var v :| v in w.deliveries && d in v.recipients && !Carried(w, d, v.epoch, v.key);
    SomeBrought(w, v, d);
    GoneStays(w, step, d, v.epoch, v.key);
    DeliveriesStay(w, step);
  }

  ghost predicate CarriedAt(w: World, run: seq<Step>, n: int, d: DeviceId) {
    0 <= n <= |run| && AllCarried(Before(w, run, n), d)
  }

  ghost predicate LossAt(w: World, run: seq<Step>, n: int, d: DeviceId) {
    0 <= n < |run| && LosesSome(Before(w, run, n), run[n], d)
  }

  lemma CarriedOneOn(w: World, run: seq<Step>, n: nat, d: DeviceId)
    requires Initial(w) && n < |run| && Calm(w, run, d)
    ensures CarriedAt(w, run, n + 1, d) <==> CarriedAt(w, run, n, d) && !LossAt(w, run, n, d)
  {
    var u := Before(w, run, n);
    ExecInv(w, run[..n]);
    CalmRun(w, run, n, d);
    BeforeNext(w, run, n);
    assert !StaleAt(w, run, n, d);
    if AllCarried(u, d) { AllCarriedIff(u, run[n], d); } else { NotAllForGood(u, run[n], d); }
  }

  lemma CarriedAtFirst(w: World, run: seq<Step>, d: DeviceId)
    requires Initial(w)
    ensures CarriedAt(w, run, 0, d)
  {
    BeforeEnd(w, run);
  }

  lemma {:induction false} AllAlong(p: nat -> bool, q: nat -> bool, n: nat)
    requires p(0) && forall i | 0 <= i < n :: p(i + 1) <==> p(i) && q(i)
    ensures p(n) <==> forall i | 0 <= i < n :: q(i)
  {
    if n > 0 {
      AllAlong(p, q, n - 1);
      assert p(n - 1 + 1) <==> p(n - 1) && q(n - 1);
    }
  }

  lemma CarriedUpTo(w: World, run: seq<Step>, n: nat, d: DeviceId)
    requires Initial(w) && n <= |run| && Calm(w, run, d)
    ensures CarriedAt(w, run, n, d) <==> forall j | 0 <= j < n :: !LossAt(w, run, j, d)
  {
    CarriedAtFirst(w, run, d);
    forall i | 0 <= i < n ensures CarriedAt(w, run, i + 1, d) <==> CarriedAt(w, run, i, d) && !LossAt(w, run, i, d) {
      CarriedOneOn(w, run, i, d);
    }
    var p, q := (i: nat) => CarriedAt(w, run, i, d), (i: nat) => !LossAt(w, run, i, d);
    AllAlong(p, q, n);
    assert forall i: nat :: q(i) == !LossAt(w, run, i, d);
  }

  lemma CalmEveryKeyIff(w: World, run: seq<Step>, d: DeviceId)
    requires Initial(w) && Calm(w, run, d) && Drained(Exec(w, run), d)
    ensures HasEveryKey(Exec(w, run), d) <==> NothingLost(w, run, d)
  {
    BeforeEnd(w, run);
    CarriedUpTo(w, run, |run|, d);
    var v := Exec(w, run);
    forall x | x in v.deliveries ensures Carried(v, d, x.epoch, x.key) <==> x.key in v.Ring(d) {
      DrainedCarriesInRing(v, d, x.epoch, x.key);
    }
  }

  /**
    Exactly when a drained device has every key: its ring never loses a key and in the end holds the key of
    every distribution that reached it, if and only if no save falls between the read and the write of
    another save of that ring, and no step takes the last copy of a key the device has not saved.
  */
  lemma EveryKeyIff(w: World, run: seq<Step>, d: DeviceId)
    requires Initial(w) && Drained(Exec(w, run), d)
    ensures RingsGrow(w, run, d) && HasEveryKey(Exec(w, run), d) <==> !SaveInBetween(w, run, d) && NothingLost(w, run, d)
  {
    RingsGrowIff(w, run, d);
    GrowIffCalm(w, run, d);
    if Calm(w, run, d) { CalmEveryKeyIff(w, run, d); }
  }

  // ---------------------------------------------------------------- distributions at different epochs

  /** No two distributions that reached d resolved to the same epoch. */
  ghost predicate EpochsApart(w: World, d: DeviceId) {
    forall i: nat, j: nat :: !SharesEpoch(w, d, i, j)
  }

  predicate SharesEpoch(w: World, d: DeviceId, i: nat, j: nat) {
    && i < j < |w.deliveries| && w.deliveries[i].epoch == w.deliveries[j].epoch
    && d in w.deliveries[i].recipients && d in w.deliveries[j].recipients
  }

  lemma ApartOneKey(w: World, d: DeviceId, e: Epoch, k: Key, l: Key)
    requires EpochsApart(w, d) && BroughtBySome(w, d, e, k) && BroughtBySome(w, d, e, l)
    ensures k == l
  {
    var x :| x in w.deliveries && Brought(x, d, e, k);
    var y :| y in w.deliveries && Brought(y, d, e, l);
    var i :| 0 <= i < |w.deliveries| && w.deliveries[i] == x;
    var j :| 0 <= j < |w.deliveries| && w.deliveries[j] == y;
    assert !SharesEpoch(w, d, i, j) && !SharesEpoch(w, d, j, i);
  }

  lemma ApartBefore(w: World, step: Step, d: DeviceId)
    requires EpochsApart(Next(w, step), d)
    ensures EpochsApart(w, d)
  {
    DeliveriesStay(w, step);
    forall i: nat, j: nat ensures !SharesEpoch(w, d, i, j) {
      assert !SharesEpoch(Next(w, step), d, i, j);
    }
  }

  lemma {:induction false} ApartAllAlong(w: World, run: seq<Step>, n: nat, d: DeviceId)
    requires n <= |run| && EpochsApart(Exec(w, run), d)
    ensures EpochsApart(Before(w, run, n), d)
    decreases |run| - n
  {
    if n == |run| {
      BeforeEnd(w, run);
    } else {
      ApartAllAlong(w, run, n + 1, d);
      BeforeNext(w, run, n);
      ApartBefore(Before(w, run, n), run[n], d);
    }
  }

  /** An envelope that only one distribution ever reached cannot change under a letter. */
  lemma ApartConsumes(w: World, step: Step, d: DeviceId)
    requires Inv(w) && EpochsApart(w, d)
    ensures !StaleConsume(w, step, d)
  {
    if step.Consume? && CanConsume(w, step.p) && w.passes[step.p].device == d {
      var l := w.passes[step.p].todo[0];
      assert PassLettersOk(w, w.passes[step.p]) && l in w.passes[step.p].todo;
      assert LetterOk(w, d, l) && RowOk(w, l.slot);
      assert l.slot == (d, l.slot.1);
      ApartOneKey(w, d, l.slot.1, l.key, w.rows[l.slot].box.key);
    }
  }

  lemma ApartNoStaleConsume(w: World, run: seq<Step>, d: DeviceId)
    requires Initial(w) && EpochsApart(Exec(w, run), d)
    ensures NoStaleConsume(w, run, d)
  {
    forall n | 0 <= n < |run| ensures !StaleConsume(Before(w, run, n), run[n], d) {
      ExecInv(w, run[..n]);
      ApartAllAlong(w, run, n, d);
      ApartConsumes(Before(w, run, n), run[n], d);
    }
  }

  /** At different epochs, no envelope is consumed before its key is in the ring. */
  lemma ConsumedMeansSaved(w: World, run: seq<Step>, d: DeviceId)
    requires Initial(w) && !SaveInBetween(w, run, d) && EpochsApart(Exec(w, run), d)
    ensures RingsGrow(w, run, d) && AlwaysSaved(w, run, d)
  {
    ApartNoStaleConsume(w, run, d);
    ConsumedMeansSavedIff(w, run, d);
  }

  /**
    At different epochs and with saves that do not cross, once nothing is pending for a device its ring
    holds the key of every distribution that reached it: however the rotations overlapped, whatever was cut
    off, skipped or given up, and however many passes ran at once.
  */
  lemma DrainedRingHasEveryKey(w: World, run: seq<Step>, d: DeviceId)
    requires Initial(w) && !SaveInBetween(w, run, d) && EpochsApart(Exec(w, run), d)
    requires NothingPending(Exec(w, run).rows, d)
    ensures HasEveryKey(Exec(w, run), d)
  {
    var u := Exec(w, run);
    ConsumedMeansSaved(w, run, d);
    BeforeEnd(w, run);
    ExecInv(w, run);
    assert SavedOk(Before(w, run, |run|), d);
    forall v | v in u.deliveries && d in v.recipients ensures v.key in u.Ring(d) {
      var at := (d, v.epoch);
      SomeBrought(u, v, d);
      assert at in u.rows && RowOk(u, at) && !IsPending(u.rows, at, d);
      ApartOneKey(u, d, v.epoch, v.key, u.rows[at].box.key);
    }
  }

  // ---------------------------------------------------------------- a device that was offline

  /** d starts neither passes nor rotations in the run. */
  ghost predicate Offline(run: seq<Step>, d: DeviceId) {
    forall step <- run :: (step.Fetch? ==> step.d != d) && (step.StartRotation? ==> step.d != d)
  }

  ghost predicate Untouched(w: World, d: DeviceId) {
    && (forall p <- w.passes :: w.passes[p].device != d)
    && (forall r <- w.rotations :: w.rotations[r].rotator != d)
    && (forall k <- w.Ring(d) :: k < w.base)
  }

  lemma OfflineStep(w: World, step: Step, d: DeviceId)
    requires Untouched(w, d) && (step.Fetch? ==> step.d != d) && (step.StartRotation? ==> step.d != d)
    ensures Untouched(Next(w, step), d)
  {
    RingAfter(w, step, d);
    match step
    case ReadRing(s) =>
    case WriteRing(s) =>
    case _ =>
  }

  lemma {:induction false} OfflineRun(w: World, run: seq<Step>, d: DeviceId)
    requires Initial(w) && Offline(run, d)
    ensures Untouched(Exec(w, run), d)
  {
    if run == [] {
      assert forall k <- w.Ring(d) :: k < w.base;
    } else {
      var before := run[..|run| - 1];
      assert Offline(before, d) && Last(run) in run;
      OfflineRun(w, before, d);
      OfflineStep(Exec(w, before), Last(run), d);
    }
  }

  ghost predicate Gone(w: World, d: DeviceId, e: Epoch, k: Key) { BroughtBySome(w, d, e, k) && !Carried(w, d, e, k) }

  lemma GoneStep(w: World, step: Step, d: DeviceId, e: Epoch, k: Key)
    requires Inv(w) && SnapshotsOk(w, d) && Gone(w, d, e, k)
    ensures Gone(Next(w, step), d, e, k)
  {
    GoneStays(w, step, d, e, k);
    BroughtStays(w, step, d, e, k);
  }

  ghost predicate GoneAt(w: World, run: seq<Step>, n: int, d: DeviceId, e: Epoch, k: Key) {
    0 <= n <= |run| && Gone(Before(w, run, n), d, e, k)
  }

  lemma GoneOneOn(w: World, run: seq<Step>, n: nat, d: DeviceId, e: Epoch, k: Key)
    requires Initial(w) && n < |run| && Calm(w, run, d) && GoneAt(w, run, n, d, e, k)
    ensures GoneAt(w, run, n + 1, d, e, k)
  {
    ExecInv(w, run[..n]);
    CalmRun(w, run, n, d);
    GoneStep(Before(w, run, n), run[n], d, e, k);
    BeforeNext(w, run, n);
  }

  lemma {:induction false} TurnsAt(p: int -> bool, a: int, b: int) returns (m: int)
    requires a <= b && p(a) && !p(b)
    ensures a <= m < b && p(m) && !p(m + 1)
    decreases b - a
  {
    m := b - 1;
    if !p(m) { m := TurnsAt(p, a, m); }
  }

  lemma GoneForGood(w: World, run: seq<Step>, a: nat, b: nat, d: DeviceId, e: Epoch, k: Key)
    requires Initial(w) && a <= b <= |run| && Calm(w, run, d) && GoneAt(w, run, a, d, e, k)
    ensures GoneAt(w, run, b, d, e, k)
  {
    if !GoneAt(w, run, b, d, e, k) {
      var n := TurnsAt(n => GoneAt(w, run, n, d, e, k), a, b);
      GoneOneOn(w, run, n, d, e, k);
    }
  }

  /** The envelope at a shared epoch holds the last key distributed to it. */
  ghost predicate HoldsLatest(w: World, d: DeviceId) {
    forall i: nat, j: nat | SharesEpoch(w, d, i, j) ::
      (d, w.deliveries[i].epoch) in w.rows && w.rows[(d, w.deliveries[i].epoch)].box.key != w.deliveries[i].key
  }

  lemma HoldsLatestKept(w: World, step: Step, d: DeviceId)
    requires Inv(w) && HoldsLatest(w, d)
    ensures HoldsLatest(Next(w, step), d)
  {
    var u := Next(w, step);
    if !step.Post? { OthersAddNothing(w, step); }
    forall i: nat, j: nat | SharesEpoch(u, d, i, j)
      ensures (d, u.deliveries[i].epoch) in u.rows && u.rows[(d, u.deliveries[i].epoch)].box.key != u.deliveries[i].key
    {
      var v, at := u.deliveries[i], (d, u.deliveries[i].epoch);
      assert i < |w.deliveries| && v == w.deliveries[i] && v in w.deliveries;
      assert at in w.rows;
      if j < |w.deliveries| { assert SharesEpoch(w, d, i, j); }
      RowsStay(w, step, at);
      SomeBrought(w, v, d);
      if step.Post? && CanPost(w, step.r, step.ids) {
        PostRows(w, step.r, step.ids, step.at, at);
        NotRotating(w, d, v.epoch, v.key, step.r);
      }
    }
  }

  lemma {:induction false} LatestRun(w: World, run: seq<Step>, d: DeviceId)
    requires Initial(w)
    ensures HoldsLatest(Exec(w, run), d)
  {
    if run != [] {
      var before := run[..|run| - 1];
      LatestRun(w, before, d);
      ExecInv(w, before);
      HoldsLatestKept(Exec(w, before), Last(run), d);
    }
  }

  /** Of two keys that reached an offline device's envelope at one epoch, the first never arrives. */
  lemma SharedEpochLost(w: World, away: seq<Step>, back: seq<Step>, d: DeviceId, i: nat, j: nat)
    requires Initial(w) && Offline(away, d) && Calm(w, away + back, d)
    requires SharesEpoch(Exec(w, away), d, i, j)
    ensures Exec(w, away).deliveries[i].key !in Exec(w, away + back).Ring(d)
  {
    var u, run := Exec(w, away), away + back;
    var v := u.deliveries[i];
    OfflineRun(w, away, d);
    LatestRun(w, away, d);
    ExecInv(w, away);
    SomeBrought(u, v, d);
    assert v in u.deliveries && v.key >= u.base;
    assert !Carried(u, d, v.epoch, v.key);
    assert run[..|away|] == away && run[..|run|] == run;
    GoneForGood(w, run, |away|, |run|, d, v.epoch, v.key);
  }

  /**
    A device that was offline while keys were rotated, and then drains its envelopes without crossing
    saves, has every key exactly when no two of the distributions resolved to the same epoch. Rotations
    that overlap may still resolve to different epochs.
  */
  lemma OfflineCatchesUpIff(w: World, away: seq<Step>, back: seq<Step>, d: DeviceId)
    requires Initial(w) && Offline(away, d) && !SaveInBetween(w, away + back, d)
    requires Exec(w, away + back).deliveries == Exec(w, away).deliveries && NothingPending(Exec(w, away + back).rows, d)
    ensures HasEveryKey(Exec(w, away + back), d) <==> EpochsApart(Exec(w, away), d)
  {
    var run := away + back;
    if EpochsApart(Exec(w, away), d) {
      forall i: nat, j: nat ensures !SharesEpoch(Exec(w, run), d, i, j) {
        assert !SharesEpoch(Exec(w, away), d, i, j);
      }
      DrainedRingHasEveryKey(w, run, d);
    } else {
      RingsGrowIff(w, run, d);
      GrowIffCalm(w, run, d);
      var u := Exec(w, away);
      var i: nat, j: nat :| SharesEpoch(u, d, i, j);
      SharedEpochLost(w, away, back, d, i, j);
      assert u.deliveries[i] in Exec(w, run).deliveries;
    }
  }
}
