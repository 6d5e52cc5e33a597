/** Catching up: when consumed means saved, and exactly when a drained device has every key. */
module KeyArrival {
  import opened Prelude
  import opened KeyCatchUp
  import opened KeyRings
  import opened KeyDelivery
  import KE = KeyEnvelopes

  // ---------------------------------------------------------------- no envelope consumed before its key is saved

  /** A pass that has written has its first letter's key in the ring. */
  ghost predicate HeadsSaved(w: World, d: DeviceId) {
    forall p <- w.passes :: w.passes[p].device == d && CanConsume(w, p) ==> w.passes[p].todo[0].key in w.Ring(d)
  }

  ghost predicate SavedOk(w: World, d: DeviceId) {
    forall at <- w.rows :: at.0 == d && w.rows[at].consumed ==> w.rows[at].box.key in w.Ring(d)
  }

  /** The envelope was overwritten since it was fetched, by a key the ring lacks, and is consumed all the same. */
  predicate StaleConsume(w: World, step: Step, d: DeviceId) {
    step.Consume? && CanConsume(w, step.p) && w.passes[step.p].device == d
    && var l := w.passes[step.p].todo[0];
    IsPending(w.rows, l.slot, d) && w.rows[l.slot].box.key != l.key && w.rows[l.slot].box.key !in w.Ring(d)
  }

  lemma HeadOrigin(w: World, step: Step, p: PassId)
    requires CanConsume(Next(w, step), p)
    ensures (CanConsume(w, p) && Next(w, step).passes[p] == w.passes[p])
         || (step == WriteRing(PassSaver(p)) && CanWrite(w, step.s) && Next(w, step).passes[p].todo == w.passes[p].todo
             && Next(w, step).passes[p].device == w.passes[p].device)
  {
    match step
    case ReadRing(s) =>
    case WriteRing(s) =>
    case _ =>
  }

  lemma HeadsKept(w: World, step: Step, d: DeviceId)
    requires HeadsSaved(w, d) && !StaleWrite(w, step, d)
    ensures HeadsSaved(Next(w, step), d)
  {
    var v := Next(w, step);
    RingAfter(w, step, d);
    KeptIff(w, step, d);
    forall p | p in v.passes && v.passes[p].device == d && CanConsume(v, p) ensures v.passes[p].todo[0].key in v.Ring(d) {
      HeadOrigin(w, step, p);
    }
  }

  /** A consume marks the row of its letter and no other. */
  lemma ConsumeMarks(w: World, p: PassId, x: Slot)
    requires IdsUnique(w) && LettersOk(w) && CanConsume(w, p) && x in w.rows
    ensures x in ConsumeBy(w, p).rows
    ensures ConsumeBy(w, p).rows[x] == if x == w.passes[p].todo[0].slot then w.rows[x].(consumed := true) else w.rows[x]
  {
    assert PassLettersOk(w, w.passes[p]) && w.passes[p].todo[0] in w.passes[p].todo;
    assert LetterOk(w, w.passes[p].device, w.passes[p].todo[0]);
  }

  lemma RowsElsewhere(w: World, step: Step)
    requires !step.Post? && !step.Consume?
    ensures Next(w, step).rows == w.rows
  {
    match step
    case ReadRing(s) =>
    case WriteRing(s) =>
    case _ =>
  }

  lemma PostKeepsSaved(w: World, r: RotationId, ids: map<DeviceId, nat>, at: Time, d: DeviceId)
    requires SavedOk(w, d)
    ensures SavedOk(PostBy(w, r, ids, at), d)
  {
    if CanPost(w, r, ids) {
      var v := PostBy(w, r, ids, at);
      forall x | x in v.rows && x.0 == d && v.rows[x].consumed ensures v.rows[x].box.key in v.Ring(d) {
        PostRows(w, r, ids, at, x);
      }
    }
  }

  lemma ConsumeSavedIff(w: World, p: PassId, d: DeviceId)
    requires Inv(w) && HeadsSaved(w, d) && SavedOk(w, d)
    ensures SavedOk(ConsumeBy(w, p), d) <==> !StaleConsume(w, Consume(p), d)
  {
    if CanConsume(w, p) {
      var v, l := ConsumeBy(w, p), w.passes[p].todo[0];
      assert PassLettersOk(w, w.passes[p]) && l in w.passes[p].todo;
      forall x | x in w.rows ensures v.rows[x] == if x == l.slot then w.rows[x].(consumed := true) else w.rows[x] {
        ConsumeMarks(w, p, x);
      }
      assert v.rows.Keys == w.rows.Keys && v.Ring(d) == w.Ring(d);
    }
  }

  lemma StepSavedIff(w: World, step: Step, d: DeviceId)
    requires Inv(w) && HeadsSaved(w, d) && SavedOk(w, d) && !StaleWrite(w, step, d)
    ensures SavedOk(Next(w, step), d) <==> !StaleConsume(w, step, d)
  {
    KeptIff(w, step, d);
    match step
    case Post(r, ids, at) => PostKeepsSaved(w, r, ids, at, d);
    case Consume(p) => ConsumeSavedIff(w, p, d);
    case _ => RowsElsewhere(w, step);
  }

  ghost predicate AlwaysSaved(w: World, run: seq<Step>, d: DeviceId) {
    forall n | 0 <= n <= |run| :: SavedOk(Before(w, run, n), d)
  }

  ghost predicate NoStaleConsume(w: World, run: seq<Step>, d: DeviceId) {
    forall n | 0 <= n < |run| :: !StaleConsume(Before(w, run, n), run[n], d)
  }

  lemma {:induction false} CalmHeads(w: World, run: seq<Step>, n: nat, d: DeviceId)
    requires Initial(w) && n <= |run| && Calm(w, run, d)
    ensures HeadsSaved(Before(w, run, n), d) && Inv(Before(w, run, n))
  {
    ExecInv(w, run[..n]);
    if n == 0 {
      BeforeEnd(w, run);
    } else {
      CalmHeads(w, run, n - 1, d);
      BeforeNext(w, run, n - 1);
      assert !StaleAt(w, run, n - 1, d);
      HeadsKept(Before(w, run, n - 1), run[n - 1], d);
    }
  }

  lemma {:induction false} SavedUpTo(w: World, run: seq<Step>, n: nat, d: DeviceId)
    requires Initial(w) && n <= |run| && Calm(w, run, d) && NoStaleConsume(w, run, d)
    ensures SavedOk(Before(w, run, n), d)
  {
    if n == 0 {
      BeforeEnd(w, run);
    } else {
      SavedUpTo(w, run, n - 1, d);
      CalmHeads(w, run, n - 1, d);
      BeforeNext(w, run, n - 1);
      assert !StaleAt(w, run, n - 1, d);
      StepSavedIff(Before(w, run, n - 1), run[n - 1], d);
    }
  }

  lemma CalmSavedIff(w: World, run: seq<Step>, d: DeviceId)
    requires Initial(w) && Calm(w, run, d)
    ensures AlwaysSaved(w, run, d) <==> NoStaleConsume(w, run, d)
  {
    if AlwaysSaved(w, run, d) {
      forall n | 0 <= n < |run| ensures !StaleConsume(Before(w, run, n), run[n], d) {
        CalmHeads(w, run, n, d);
        BeforeNext(w, run, n);
        assert SavedOk(Before(w, run, n), d) && SavedOk(Before(w, run, n + 1), d);
        assert !StaleAt(w, run, n, d);
        StepSavedIff(Before(w, run, n), run[n], d);
      }
    }
    if NoStaleConsume(w, run, d) {
      forall n | 0 <= n <= |run| ensures SavedOk(Before(w, run, n), d) { SavedUpTo(w, run, n, d); }
    }
  }

  /**
    In every run: a device's ring keeps all its keys and no envelope of the device is ever consumed while
    the ring lacks its key, exactly when no save falls between the read and the write of another save of
    that ring, and no envelope is consumed that was overwritten since it was fetched by a key the ring lacks.
  */
  lemma ConsumedMeansSavedIff(w: World, run: seq<Step>, d: DeviceId)
    requires Initial(w)
    ensures RingsGrow(w, run, d) && AlwaysSaved(w, run, d) <==> !SaveInBetween(w, run, d) && NoStaleConsume(w, run, d)
  {
    RingsGrowIff(w, run, d);
    GrowIffCalm(w, run, d);
    if Calm(w, run, d) { CalmSavedIff(w, run, d); }
  }

  // ---------------------------------------------------------------- where a distributed key can be

  predicate Mail(w: World, d: DeviceId, e: Epoch, k: Key) { IsPending(w.rows, (d, e), d) && w.rows[(d, e)].box.key == k }

  /** The letters of a pass whose keys are not written yet. */
  function Open(pass: Pass): seq<Letter> {
    if pass.todo != [] && pass.saving.Written? then pass.todo[1..] else pass.todo
  }

  predicate Holds(pass: Pass, d: DeviceId, k: Key) { pass.device == d && exists l <- Open(pass) :: l.key == k }

  predicate Hand(w: World, d: DeviceId, k: Key) { exists p <- w.passes :: Holds(w.passes[p], d, k) }

  predicate HandElsewhere(w: World, d: DeviceId, k: Key, p: PassId) {
    exists q <- w.passes :: q != p && Holds(w.passes[q], d, k)
  }

  /** In the ring, in a pending envelope, or in the hands of a pass. */
  predicate Carried(w: World, d: DeviceId, e: Epoch, k: Key) { k in w.Ring(d) || Mail(w, d, e, k) || Hand(w, d, k) }

  /**
    The step takes the last copy of k that d could still save. Either a distribution resolved to the same
    epoch overwrites its envelope; or the envelope is consumed for a letter fetched before it held k; or,
    with no envelope left, the last pass that fetched k skips its letter or is cut off.
  */
  ghost predicate Loses(w: World, step: Step, d: DeviceId, e: Epoch, k: Key) {
    k !in w.Ring(d) &&
    match step
    case Post(r, ids, _) =>
      CanPost(w, r, ids) && d in ids && w.rotations[r].epoch.value == e && Mail(w, d, e, k) && !Hand(w, d, k)
    case Consume(p) =>
      CanConsume(w, p) && w.passes[p].todo[0].slot == (d, e) && Mail(w, d, e, k) && !Hand(w, d, k)
    case Skip(p) =>
      HasLetter(w, p) && !Mail(w, d, e, k) && Holds(w.passes[p], d, k)
      && !Holds(Rest(w.passes[p]), d, k) && !HandElsewhere(w, d, k, p)
    case CutOff(p) =>
      p in w.passes && !Mail(w, d, e, k) && Holds(w.passes[p], d, k) && !HandElsewhere(w, d, k, p)
    case _ => false
  }

  /** A distributed key has one epoch and is no rotation's any more. */
  lemma OneEpoch(w: World, d: DeviceId, e: Epoch, f: Epoch, k: Key)
    requires KeysFresh(w) && BroughtBySome(w, d, e, k) && BroughtBySome(w, d, f, k)
    ensures e == f
  {
    var x :| x in w.deliveries && Brought(x, d, e, k);
    var y :| y in w.deliveries && Brought(y, d, f, k);
    var i :| 0 <= i < |w.deliveries| && w.deliveries[i] == x;
    var j :| 0 <= j < |w.deliveries| && w.deliveries[j] == y;
  }

  lemma NotRotating(w: World, d: DeviceId, e: Epoch, k: Key, r: RotationId)
    requires KeysFresh(w) && BroughtBySome(w, d, e, k) && r in w.rotations
    ensures w.rotations[r].key != k
  {
    var v :| v in w.deliveries && Brought(v, d, e, k);
  }

  /** Without a stale write, a distributed key enters a ring only out of the hands of a pass. */
  lemma RingGains(w: World, step: Step, d: DeviceId, e: Epoch, k: Key)
    requires Inv(w) && SnapshotsOk(w, d) && BroughtBySome(w, d, e, k) && k !in w.Ring(d) && k in Next(w, step).Ring(d)
    ensures Hand(w, d, k)
  {
    RingAfter(w, step, d);
    assert SnapshotOk(w, step.s, d);
    assert SavingOf(w, step.s).ring == w.Ring(d)[..|SavingOf(w, step.s).ring|];
    assert k == KeyOf(w, step.s);
    match step.s
    case PassSaver(p) => assert w.passes[p].todo[0] in Open(w.passes[p]) && Holds(w.passes[p], d, k);
    case RotationSaver(r) => NotRotating(w, d, e, k, r);
  }

  lemma MailAfter(w: World, step: Step, d: DeviceId, e: Epoch, k: Key)
    requires Inv(w) && BroughtBySome(w, d, e, k)
    ensures Mail(Next(w, step), d, e, k)
       <==> Mail(w, d, e, k)
            && !(step.Post? && CanPost(w, step.r, step.ids) && d in step.ids && w.rotations[step.r].epoch.value == e)
            && !(step.Consume? && CanConsume(w, step.p) && w.passes[step.p].todo[0].slot == (d, e))
  {
    var x := (d, e);
    match step
    case Post(r, ids, at) =>
      if CanPost(w, r, ids) {
        PostRows(w, r, ids, at, x);
        NotRotating(w, d, e, k, r);
      }
    case Consume(p) =>
      if CanConsume(w, p) && x in w.rows { ConsumeMarks(w, p, x); }
    case _ => RowsElsewhere(w, step);
  }

  /** A pass comes to hold a distributed key only by fetching its envelope. */
  lemma HandGains(w: World, step: Step, d: DeviceId, e: Epoch, k: Key)
    requires Inv(w) && BroughtBySome(w, d, e, k) && Hand(Next(w, step), d, k)
    ensures Hand(w, d, k) || Mail(w, d, e, k)
  {
    var v := Next(w, step);
    var p :| p in v.passes && Holds(v.passes[p], d, k);
    var l :| l in Open(v.passes[p]) && l.key == k;
    OpenOrigin(w, step, p, l);
    if p in w.passes && l in Open(w.passes[p]) {
      assert Holds(w.passes[p], d, k);
    } else {
      assert RowOk(w, l.slot);
      OneEpoch(w, d, e, l.slot.1, k);
    }
  }

  lemma OpenOrigin(w: World, step: Step, p: PassId, l: Letter)
    requires p in Next(w, step).passes && l in Open(Next(w, step).passes[p])
    ensures (p in w.passes && l in Open(w.passes[p]) && Next(w, step).passes[p].device == w.passes[p].device)
         || (step.Fetch? && step.p == p && CanFetch(w, p, step.d, step.list) && Next(w, step).passes[p].device == step.d
             && IsPending(w.rows, l.slot, step.d) && l == LetterAt(w.rows, l.slot))
  {
    match step
    case Fetch(q, d, list) => if CanFetch(w, q, d, list) && p == q { LetterOrigin(w, step, p, l); }
    case ReadRing(s) =>
    case WriteRing(s) =>
    case Consume(q) =>
    case Skip(q) =>
    case _ =>
  }

  predicate MovesHands(step: Step) { step.Fetch? || step.WriteRing? || step.Skip? || step.CutOff? }

  lemma HandsStay(w: World, step: Step, d: DeviceId, k: Key)
    requires !MovesHands(step)
    ensures Hand(Next(w, step), d, k) <==> Hand(w, d, k)
  {
    var v := Next(w, step);
    match step
    case ReadRing(s) => SameHands(w, ReadBy(w, s), d, k);
    case Consume(p) => SameHands(w, ConsumeBy(w, p), d, k);
    case _ =>
  }

  lemma SameHands(w: World, v: World, d: DeviceId, k: Key)
    requires v.passes.Keys == w.passes.Keys
    requires forall p <- w.passes :: Open(v.passes[p]) == Open(w.passes[p]) && v.passes[p].device == w.passes[p].device
    ensures Hand(v, d, k) <==> Hand(w, d, k)
  {
    forall p | p in w.passes ensures Holds(v.passes[p], d, k) <==> Holds(w.passes[p], d, k) {
    }
  }

  lemma FetchKeepsHands(w: World, p: PassId, b: DeviceId, list: seq<Slot>, d: DeviceId, k: Key)
    requires Hand(w, d, k)
    ensures Hand(FetchBy(w, p, b, list), d, k)
  {
    var q :| q in w.passes && Holds(w.passes[q], d, k);
    assert Holds(FetchBy(w, p, b, list).passes[q], d, k);
  }

  /** A write takes a letter out of a pass's hands only into the ring. */
  lemma WriteKeepsHands(w: World, s: Saver, d: DeviceId, k: Key)
    requires Hand(w, d, k)
    ensures Hand(WriteBy(w, s), d, k) || k in WriteBy(w, s).Ring(d)
  {
    var v := WriteBy(w, s);
    var q :| q in w.passes && Holds(w.passes[q], d, k);
    var l :| l in Open(w.passes[q]) && l.key == k;
    if s == PassSaver(q) && CanWrite(w, s) {
      assert Open(w.passes[q]) == [w.passes[q].todo[0]] + Open(v.passes[q]);
      assert l == w.passes[q].todo[0] || Holds(v.passes[q], d, k);
    } else {
      assert Holds(v.passes[q], d, k);
    }
  }

  lemma SkipHands(w: World, p: PassId, d: DeviceId, k: Key)
    requires HasLetter(w, p)
    ensures Hand(SkipBy(w, p), d, k) <==> Holds(Rest(w.passes[p]), d, k) || HandElsewhere(w, d, k, p)
  {
    var v := SkipBy(w, p);
    assert forall q | q in w.passes && q != p :: v.passes[q] == w.passes[q];
    assert v.passes[p] == Rest(w.passes[p]);
    if HandElsewhere(w, d, k, p) {
      var q :| q in w.passes && q != p && Holds(w.passes[q], d, k);
      assert Holds(v.passes[q], d, k);
    }
  }

  lemma CutOffHands(w: World, p: PassId, d: DeviceId, k: Key)
    ensures Hand(Next(w, CutOff(p)), d, k) <==> HandElsewhere(w, d, k, p)
  {
    var v := Next(w, CutOff(p));
    if HandElsewhere(w, d, k, p) {
      var q :| q in w.passes && q != p && Holds(w.passes[q], d, k);
      assert Holds(v.passes[q], d, k);
    }
  }

  lemma SplitHand(w: World, d: DeviceId, k: Key, p: PassId)
    requires p in w.passes
    ensures Hand(w, d, k) <==> Holds(w.passes[p], d, k) || HandElsewhere(w, d, k, p)
  {
  }

  lemma ConsumeIsForItsDevice(w: World, p: PassId)
    requires LettersOk(w) && HasLetter(w, p)
    ensures w.passes[p].todo[0].slot.0 == w.passes[p].device
  {
    assert PassLettersOk(w, w.passes[p]) && w.passes[p].todo[0] in w.passes[p].todo;
  }

  /** A step that loses k leaves no copy of it. */
  lemma LosingTakesAll(w: World, step: Step, d: DeviceId, e: Epoch, k: Key)
    requires Inv(w) && BroughtBySome(w, d, e, k) && Loses(w, step, d, e, k)
    ensures !Carried(Next(w, step), d, e, k)
  {
    RingAfter(w, step, d);
    MailAfter(w, step, d, e, k);
    match step
    case Post(r, ids, at) => HandsStay(w, step, d, k);
    case Consume(p) => HandsStay(w, step, d, k);
    case Skip(p) => SkipHands(w, p, d, k);
    case CutOff(p) => CutOffHands(w, p, d, k);
  }

  lemma HandsSurvive(w: World, step: Step, d: DeviceId, e: Epoch, k: Key)
    requires Hand(w, d, k) && !Mail(w, d, e, k) && k !in w.Ring(d) && !Loses(w, step, d, e, k)
    ensures Hand(Next(w, step), d, k) || k in Next(w, step).Ring(d)
  {
    match step
    case Fetch(p, b, list) => FetchKeepsHands(w, p, b, list, d, k);
    case WriteRing(s) => WriteKeepsHands(w, s, d, k);
    case Skip(p) => if HasLetter(w, p) { SkipHands(w, p, d, k); SplitHand(w, d, k, p); }
    case CutOff(p) =>
      CutOffHands(w, p, d, k);
      if p in w.passes { SplitHand(w, d, k, p); }
    case _ => HandsStay(w, step, d, k);
  }

  lemma MailSurvives(w: World, step: Step, d: DeviceId, e: Epoch, k: Key)
    requires Inv(w) && BroughtBySome(w, d, e, k) && Mail(w, d, e, k) && k !in w.Ring(d) && !Loses(w, step, d, e, k)
    ensures Carried(Next(w, step), d, e, k)
  {
    MailAfter(w, step, d, e, k);
    if !Mail(Next(w, step), d, e, k) { HandsStay(w, step, d, k); }
  }

  /** Without a stale write, a copy of k survives a step exactly when the step does not lose k. */
  lemma CarriedIff(w: World, step: Step, d: DeviceId, e: Epoch, k: Key)
    requires Inv(w) && !StaleWrite(w, step, d) && BroughtBySome(w, d, e, k) && Carried(w, d, e, k)
    ensures Carried(Next(w, step), d, e, k) <==> !Loses(w, step, d, e, k)
  {
    KeptIff(w, step, d);
    if Loses(w, step, d, e, k) {
      LosingTakesAll(w, step, d, e, k);
    } else if k !in w.Ring(d) {
      if Mail(w, d, e, k) { MailSurvives(w, step, d, e, k); } else { HandsSurvive(w, step, d, e, k); }
    }
  }

  /** What is gone stays gone. */
  lemma GoneStays(w: World, step: Step, d: DeviceId, e: Epoch, k: Key)
    requires Inv(w) && SnapshotsOk(w, d) && BroughtBySome(w, d, e, k) && !Carried(w, d, e, k)
    ensures !Carried(Next(w, step), d, e, k)
  {
    var v := Next(w, step);
    if k in v.Ring(d) { RingGains(w, step, d, e, k); }
    MailAfter(w, step, d, e, k);
    if Hand(v, d, k) { HandGains(w, step, d, e, k); }
  }
}
