/** The order of a ring: new data is sealed under its last key. */
module KeyOrder {
  import opened Prelude
  import opened KeyCatchUp
  import opened KeyRings
  import opened KeyDelivery
  import opened KeyArrival
  import opened KeyCatchUpRuns
  import KE = KeyEnvelopes

  // ---------------------------------------------------------------- careful runs

  /**
    Rotations come one after the other, envelopes are created at later and later times, d saves the key of a
    rotation only with nothing pending, and its passes skip only letters whose key it has.
  */
  ghost predicate Careful(w: World, step: Step, d: DeviceId) {
    match step
    case StartRotation(_, _) => w.rotations == map[]
    case Post(_, _, at) => forall v <- w.deliveries :: v.at < at
    case WriteRing(s) => s.RotationSaver? && CanWrite(w, s) && DeviceOf(w, s) == d ==> NothingPending(w.rows, d)
    case Skip(p) => HasLetter(w, p) && w.passes[p].device == d ==> w.passes[p].todo[0].key in w.Ring(d)
    case _ => true
  }

  ghost predicate CarefulRun(w: World, run: seq<Step>, d: DeviceId) {
    forall n | 0 <= n < |run| :: Careful(Before(w, run, n), run[n], d)
  }

  ghost predicate Ascending(ring: seq<Key>) { forall i, j | 0 <= i < j < |ring| :: ring[i] < ring[j] }

  // ---------------------------------------------------------------- rotations one after the other

  /** One rotation at a time, of the newest key; its envelopes go to the circle's epoch. */
  ghost predicate Solo(w: World) {
    && (forall r <- w.rotations, s <- w.rotations :: r == s)
    && (forall r <- w.rotations :: w.rotations[r].key == w.drawn - 1)
    && (forall r <- w.rotations | w.rotations[r].epoch.Some? :: w.rotations[r].bumped && w.rotations[r].epoch.value == w.epoch)
  }

  ghost predicate Later(x: Delivery, y: Delivery) { x.key < y.key && x.epoch < y.epoch && x.at < y.at }

  ghost predicate InOrder(w: World) {
    && (forall i, j | 0 <= i < j < |w.deliveries| :: Later(w.deliveries[i], w.deliveries[j]))
    && (forall v <- w.deliveries :: v.epoch <= w.epoch)
    && (forall v <- w.deliveries, r <- w.rotations | w.rotations[r].bumped :: v.epoch < w.epoch)
  }

  ghost predicate AsMade(w: World, v: Delivery, d: DeviceId) {
    var at := (d, v.epoch);
    at in w.rows && w.rows[at].box.key == v.key && w.rows[at].created == v.at
  }

  /** Every distribution's envelope is still the one it made. */
  ghost predicate RowsAsMade(w: World, d: DeviceId) { forall v <- w.deliveries | d in v.recipients :: AsMade(w, v, d) }

  lemma SoloKept(w: World, step: Step, d: DeviceId)
    requires Solo(w) && Careful(w, step, d)
    ensures Solo(Next(w, step))
  {
    match step
    case ReadRing(s) =>
    case WriteRing(s) =>
    case _ =>
  }

  lemma PostInOrder(w: World, r: RotationId, ids: map<DeviceId, nat>, at: Time, d: DeviceId)
    requires KeysFresh(w) && Solo(w) && InOrder(w) && CanPost(w, r, ids) && Careful(w, Post(r, ids, at), d)
    ensures InOrder(PostBy(w, r, ids, at))
  {
    var u := PostBy(w, r, ids, at);
    forall i | 0 <= i < |w.deliveries| ensures Later(w.deliveries[i], Last(u.deliveries)) {
      assert w.deliveries[i] in w.deliveries;
    }
    assert u.rotations == map[];
  }

  lemma InOrderKept(w: World, step: Step, d: DeviceId)
    requires KeysFresh(w) && Solo(w) && InOrder(w) && Careful(w, step, d)
    ensures InOrder(Next(w, step))
  {
    match step
    case Post(r, ids, at) => if CanPost(w, r, ids) { PostInOrder(w, r, ids, at, d); }
    case ReadRing(s) =>
    case WriteRing(s) =>
    case _ =>
  }

  lemma AsMadeKept(w: World, step: Step, d: DeviceId)
    requires Solo(w) && InOrder(w) && RowsAsMade(w, d)
    ensures RowsAsMade(Next(w, step), d)
  {
    var u := Next(w, step);
    forall v | v in u.deliveries && d in v.recipients ensures AsMade(u, v, d) {
      DeliveredOrNew(w, step, v);
      if v in w.deliveries { assert AsMade(w, v, d); }
      match step
      case Post(r, ids, at) => if CanPost(w, r, ids) { PostRows(w, r, ids, at, (d, v.epoch)); }
      case Consume(p) =>
      case _ => RowsElsewhere(w, step);
    }
  }

  lemma {:induction false} OrderUpTo(w: World, run: seq<Step>, n: nat, d: DeviceId)
    requires Initial(w) && n <= |run| && CarefulRun(w, run, d)
    ensures Inv(Before(w, run, n)) && Solo(Before(w, run, n)) && InOrder(Before(w, run, n)) && RowsAsMade(Before(w, run, n), d)
  {
    ExecInv(w, run[..n]);
    if n == 0 {
      BeforeEnd(w, run);
    } else {
      var u := Before(w, run, n - 1);
      OrderUpTo(w, run, n - 1, d);
      BeforeNext(w, run, n - 1);
      SoloKept(u, run[n - 1], d);
      InOrderKept(u, run[n - 1], d);
      AsMadeKept(u, run[n - 1], d);
    }
  }

  /** Rotations one after the other resolve to different epochs. */
  lemma CarefulApart(w: World, run: seq<Step>, d: DeviceId)
    requires Initial(w) && CarefulRun(w, run, d)
    ensures EpochsApart(Exec(w, run), d)
  {
    BeforeEnd(w, run);
    OrderUpTo(w, run, |run|, d);
    var u := Exec(w, run);
    forall i: nat, j: nat ensures !SharesEpoch(u, d, i, j) {
      if i < j < |u.deliveries| { assert Later(u.deliveries[i], u.deliveries[j]); }
    }
  }

  // ---------------------------------------------------------------- what d still misses comes in order

  ghost predicate Missing(w: World, d: DeviceId, v: Delivery) {
    v in w.deliveries && d in v.recipients && v.key !in w.Ring(d)
  }

  ghost predicate MissingAbove(w: World, d: DeviceId) {
    forall v <- w.deliveries, k <- w.Ring(d) | Missing(w, d, v) :: k < v.key
  }

  ghost predicate Earlier(todo: seq<Letter>, i: nat, k: Key)
    requires i <= |todo|
  {
    exists j | 0 <= j < i :: todo[j].key == k
  }

  /** What d misses and is older than a letter stands earlier in the same pass. */
  ghost predicate LetterInOrder(w: World, d: DeviceId, todo: seq<Letter>, i: nat)
    requires i < |todo|
  {
    forall v <- w.deliveries | Missing(w, d, v) && v.key < todo[i].key :: Earlier(todo, i, v.key)
  }

  ghost predicate PassInOrder(w: World, d: DeviceId, todo: seq<Letter>) {
    forall i | 0 <= i < |todo| :: LetterInOrder(w, d, todo, i)
  }

  ghost predicate PassesInOrder(w: World, d: DeviceId) {
    forall p <- w.passes | w.passes[p].device == d :: PassInOrder(w, d, w.passes[p].todo)
  }

  ghost predicate Distributed(w: World, k: Key) { exists v <- w.deliveries :: v.key == k }

  /** A key of a rotation that was given up or is under way. */
  ghost predicate Undistributed(w: World, k: Key) { k in w.stray || exists r <- w.rotations :: w.rotations[r].key == k }

  ghost predicate Sourced(w: World, d: DeviceId) {
    forall k <- w.Ring(d) :: k < w.drawn && (k < w.base || Distributed(w, k) || Undistributed(w, k))
  }

  ghost predicate RingInOrder(w: World, d: DeviceId) {
    Ascending(w.Ring(d)) && MissingAbove(w, d) && PassesInOrder(w, d) && Sourced(w, d)
  }

  /** What the theorems on arrival give before every step. */
  ghost predicate Sound(w: World, d: DeviceId) {
    Inv(w) && SnapshotsOk(w, d) && HeadsSaved(w, d) && SavedOk(w, d) && Solo(w) && InOrder(w) && RowsAsMade(w, d)
  }

  lemma NothingMissing(w: World, d: DeviceId)
    requires SavedOk(w, d) && RowsAsMade(w, d) && NothingPending(w.rows, d)
    ensures forall v :: !Missing(w, d, v)
  {
    forall v | v in w.deliveries && d in v.recipients ensures v.key in w.Ring(d) {
      assert AsMade(w, v, d) && !IsPending(w.rows, (d, v.epoch), d);
    }
  }

  /** Only a post of a newer key makes d miss more. */
  lemma MissesMore(w: World, step: Step, d: DeviceId, v: Delivery)
    requires Sound(w, d) && !StaleWrite(w, step, d) && Missing(Next(w, step), d, v)
    ensures Missing(w, d, v) || (step.Post? && CanPost(w, step.r, step.ids) && v.key == w.drawn - 1)
  {
    KeptIff(w, step, d);
    DeliveredOrNew(w, step, v);
  }

  lemma LettersAreOlder(w: World, d: DeviceId, p: PassId, i: nat)
    requires Inv(w) && p in w.passes && i < |w.passes[p].todo| && w.passes[p].device == d
    ensures w.passes[p].todo[i].key < w.drawn
    ensures exists v <- w.deliveries :: d in v.recipients && v.key == w.passes[p].todo[i].key
  {
    var l := w.passes[p].todo[i];
    assert PassLettersOk(w, w.passes[p]) && l in w.passes[p].todo;
    var v :| v in w.deliveries && Brought(v, d, l.slot.1, l.key);
  }

  // ---------------------------------------------------------------- writes

  lemma AppendAscending(ring: seq<Key>, key: Key)
    requires Ascending(ring) && (key in ring || forall k <- ring :: k < key)
    ensures Ascending(KE.Append(ring, key))
  {
    if key !in ring {
      forall i | 0 <= i < |ring| ensures ring[i] < key { assert ring[i] in ring; }
    }
  }

  /** The first letter of a pass is in the ring, or is the oldest key that d misses. */
  lemma HeadIsNext(w: World, p: PassId, d: DeviceId)
    requires Sound(w, d) && MissingAbove(w, d) && PassesInOrder(w, d) && HasLetter(w, p) && w.passes[p].device == d
    ensures var key := w.passes[p].todo[0].key;
      && (key in w.Ring(d) || forall k <- w.Ring(d) :: k < key)
      && (forall v <- w.deliveries | Missing(w, d, v) :: key <= v.key)
  {
    var key := w.passes[p].todo[0].key;
    LettersAreOlder(w, d, p, 0);
    var x :| x in w.deliveries && d in x.recipients && x.key == key;
    if key !in w.Ring(d) { assert Missing(w, d, x); }
    forall v | v in w.deliveries && Missing(w, d, v) ensures key <= v.key {
      assert LetterInOrder(w, d, w.passes[p].todo, 0);
    }
  }

  lemma PassWrites(w: World, p: PassId, d: DeviceId)
    requires Sound(w, d) && RingInOrder(w, d) && CanWrite(w, PassSaver(p)) && w.passes[p].device == d
    requires !StaleWrite(w, WriteRing(PassSaver(p)), d)
    ensures var u := Next(w, WriteRing(PassSaver(p))); Ascending(u.Ring(d)) && MissingAbove(u, d)
  {
    var step, key := WriteRing(PassSaver(p)), w.passes[p].todo[0].key;
    CalmStep(w, step, d);
    HeadIsNext(w, p, d);
    AppendAscending(w.Ring(d), key);
    AppendMissing(w, Next(w, step), d, key);
  }

  lemma AppendMissing(w: World, u: World, d: DeviceId, key: Key)
    requires MissingAbove(w, d) && u.deliveries == w.deliveries && u.Ring(d) == KE.Append(w.Ring(d), key)
    requires forall v <- w.deliveries | Missing(w, d, v) :: key <= v.key
    ensures MissingAbove(u, d)
  {
    forall v, k | v in u.deliveries && k in u.Ring(d) && Missing(u, d, v) ensures k < v.key {
      assert Missing(w, d, v);
    }
  }

  lemma RotationWrites(w: World, r: RotationId, d: DeviceId)
    requires Sound(w, d) && RingInOrder(w, d) && CanWrite(w, RotationSaver(r)) && w.rotations[r].rotator == d
    requires !StaleWrite(w, WriteRing(RotationSaver(r)), d) && Careful(w, WriteRing(RotationSaver(r)), d)
    ensures var u := Next(w, WriteRing(RotationSaver(r))); Ascending(u.Ring(d)) && MissingAbove(u, d)
  {
    var step := WriteRing(RotationSaver(r));
    CalmStep(w, step, d);
    AppendAscending(w.Ring(d), w.rotations[r].key);
    NothingMissing(w, d);
    forall v | v in w.deliveries ensures !Missing(Next(w, step), d, v) { assert !Missing(w, d, v); }
  }

  lemma RingKeptInOrder(w: World, step: Step, d: DeviceId)
    requires Sound(w, d) && RingInOrder(w, d) && !StaleWrite(w, step, d) && Careful(w, step, d)
    ensures Ascending(Next(w, step).Ring(d)) && MissingAbove(Next(w, step), d)
  {
    var u := Next(w, step);
    RingAfter(w, step, d);
    if step.WriteRing? && CanWrite(w, step.s) && DeviceOf(w, step.s) == d {
      match step.s
      case PassSaver(p) => PassWrites(w, p, d);
      case RotationSaver(r) => RotationWrites(w, r, d);
    } else {
      forall v, k | v in u.deliveries && k in u.Ring(d) && Missing(u, d, v) ensures k < v.key {
        MissesMore(w, step, d, v);
      }
    }
  }

  // ---------------------------------------------------------------- passes

  /** A pass after the step is one from before, one that has dropped a letter d has, or a new one. */
  lemma PassOrigin(w: World, step: Step, d: DeviceId, p: PassId)
    requires HeadsSaved(w, d) && Careful(w, step, d) && p in Next(w, step).passes && Next(w, step).passes[p].device == d
    ensures var todo := Next(w, step).passes[p].todo;
      || (p in w.passes && w.passes[p].device == d && todo == w.passes[p].todo)
      || (p in w.passes && w.passes[p].device == d && w.passes[p].todo != [] && todo == w.passes[p].todo[1..]
          && w.passes[p].todo[0].key in w.Ring(d))
      || (step.Fetch? && CanFetch(w, p, d, step.list) && todo == Letters(w.rows, step.list))
  {
    match step
    case ReadRing(s) =>
    case WriteRing(s) =>
    case _ =>
  }

  lemma RestInOrder(w: World, d: DeviceId, todo: seq<Letter>)
    requires PassInOrder(w, d, todo) && todo != [] && todo[0].key in w.Ring(d)
    ensures PassInOrder(w, d, todo[1..])
  {
    var rest := todo[1..];
    forall i, v | 0 <= i < |rest| && v in w.deliveries && Missing(w, d, v) && v.key < rest[i].key ensures Earlier(rest, i, v.key) {
      assert LetterInOrder(w, d, todo, i + 1);
      var j :| 0 <= j < i + 1 && todo[j].key == v.key;
      assert rest[j - 1].key == v.key;
    }
  }

  lemma FetchedInOrder(w: World, d: DeviceId, p: PassId, list: seq<Slot>)
    requires Sound(w, d) && CanFetch(w, p, d, list)
    ensures PassInOrder(w, d, Letters(w.rows, list))
  {
    var todo := Letters(w.rows, list);
    forall i, v | 0 <= i < |todo| && v in w.deliveries && Missing(w, d, v) && v.key < todo[i].key ensures Earlier(todo, i, v.key) {
      assert AsMade(w, v, d) && IsPending(w.rows, (d, v.epoch), d);
      OlderMade(w, d, v, list[i]);
      var j :| 0 <= j < |list| && list[j] == (d, v.epoch);
      assert todo[j].key == v.key;
    }
  }

  /** Of two envelopes, the one with the older key was made earlier. */
  lemma OlderMade(w: World, d: DeviceId, v: Delivery, at: Slot)
    requires Inv(w) && InOrder(w) && RowsAsMade(w, d) && v in w.deliveries && d in v.recipients
    requires at in w.rows && at.0 == d && v.key < w.rows[at].box.key
    ensures AsMade(w, v, d) && w.rows[(d, v.epoch)].created < w.rows[at].created
  {
    assert RowOk(w, at);
    var x :| x in w.deliveries && Brought(x, d, at.1, w.rows[at].box.key);
    assert AsMade(w, x, d) && at == (d, x.epoch);
    var i :| 0 <= i < |w.deliveries| && w.deliveries[i] == v;
    var j :| 0 <= j < |w.deliveries| && w.deliveries[j] == x;
    assert i < j ==> Later(v, x);
    assert j < i ==> Later(x, v);
  }

  lemma StillInOrder(w: World, step: Step, d: DeviceId, todo: seq<Letter>)
    requires Sound(w, d) && !StaleWrite(w, step, d) && PassInOrder(w, d, todo)
    requires forall l <- todo :: l.key < w.drawn
    ensures PassInOrder(Next(w, step), d, todo)
  {
    var u := Next(w, step);
    forall i, v | 0 <= i < |todo| && v in u.deliveries && Missing(u, d, v) && v.key < todo[i].key ensures Earlier(todo, i, v.key) {
      MissesMore(w, step, d, v);
      assert todo[i] in todo && LetterInOrder(w, d, todo, i);
    }
  }

  lemma PassesKeptInOrder(w: World, step: Step, d: DeviceId)
    requires Sound(w, d) && PassesInOrder(w, d) && !StaleWrite(w, step, d) && Careful(w, step, d)
    ensures PassesInOrder(Next(w, step), d)
  {
    var u := Next(w, step);
    forall p | p in u.passes && u.passes[p].device == d ensures PassInOrder(u, d, u.passes[p].todo) {
      PassOrigin(w, step, d, p);
      var todo := u.passes[p].todo;
      if step.Fetch? && CanFetch(w, p, d, step.list) {
        FetchedInOrder(w, d, p, step.list);
      } else if todo != w.passes[p].todo {
        RestInOrder(w, d, w.passes[p].todo);
      }
      NextInv(w, step);
      forall l | l in todo ensures l.key < w.drawn {
        var i :| 0 <= i < |todo| && todo[i] == l;
        LettersAreOlder(u, d, p, i);
        DrawnStays(w, step);
      }
      StillInOrder(w, step, d, todo);
    }
  }

  // ---------------------------------------------------------------- where the keys of a ring come from

  lemma RotatingStays(w: World, step: Step, r: RotationId)
    requires r in w.rotations
    ensures var u, k := Next(w, step), w.rotations[r].key;
      || (r in u.rotations && u.rotations[r].key == k)
      || k in u.stray
      || (u.deliveries != [] && Last(u.deliveries).key == k)
  {
    match step
    case ReadRing(s) =>
    case WriteRing(s) =>
    case _ =>
  }

  lemma StrayStays(w: World, step: Step)
    ensures w.stray <= Next(w, step).stray
  {
    match step
    case ReadRing(s) =>
    case WriteRing(s) =>
    case _ =>
  }

  lemma SourceStays(w: World, step: Step, k: Key)
    requires Distributed(w, k) || Undistributed(w, k)
    ensures Distributed(Next(w, step), k) || Undistributed(Next(w, step), k)
  {
    DeliveriesStay(w, step);
    StrayStays(w, step);
    if Distributed(w, k) {
      var v :| v in w.deliveries && v.key == k;
      assert v in Next(w, step).deliveries;
    } else if k !in w.stray {
      var r :| r in w.rotations && w.rotations[r].key == k;
      RotatingStays(w, step, r);
    }
  }

  lemma NewKeySource(w: World, step: Step, d: DeviceId, k: Key)
    requires Inv(w) && SnapshotsOk(w, d) && Solo(w) && !StaleWrite(w, step, d)
    requires k in Next(w, step).Ring(d) && k !in w.Ring(d)
    ensures k < w.drawn && (Distributed(w, k) || Undistributed(w, k))
  {
    CalmStep(w, step, d);
    RingAfter(w, step, d);
    match step.s
    case PassSaver(p) => LettersAreOlder(w, d, p, 0);
    case RotationSaver(r) =>
  }

  lemma SourcedKept(w: World, step: Step, d: DeviceId)
    requires Sound(w, d) && Sourced(w, d) && !StaleWrite(w, step, d)
    ensures Sourced(Next(w, step), d)
  {
    var u := Next(w, step);
    DrawnStays(w, step);
    forall k | k in u.Ring(d) ensures k < u.drawn && (k < u.base || Distributed(u, k) || Undistributed(u, k)) {
      if k !in w.Ring(d) { NewKeySource(w, step, d, k); }
      if Distributed(w, k) || Undistributed(w, k) { SourceStays(w, step, k); }
    }
  }

  // ---------------------------------------------------------------- whole runs

  lemma SoundUpTo(w: World, run: seq<Step>, n: nat, d: DeviceId)
    requires Initial(w) && n <= |run| && Calm(w, run, d) && CarefulRun(w, run, d)
    ensures Sound(Before(w, run, n), d)
  {
    CarefulApart(w, run, d);
    ApartNoStaleConsume(w, run, d);
    SavedUpTo(w, run, n, d);
    CalmHeads(w, run, n, d);
    CalmRun(w, run, n, d);
    OrderUpTo(w, run, n, d);
  }

  lemma {:induction false} RingInOrderUpTo(w: World, run: seq<Step>, n: nat, d: DeviceId)
    requires Initial(w) && Ascending(w.Ring(d)) && n <= |run| && Calm(w, run, d) && CarefulRun(w, run, d)
    ensures RingInOrder(Before(w, run, n), d)
  {
    if n == 0 {
      BeforeEnd(w, run);
      assert forall k <- w.Ring(d) :: k < w.base;
    } else {
      RingInOrderUpTo(w, run, n - 1, d);
      SoundUpTo(w, run, n - 1, d);
      BeforeNext(w, run, n - 1);
      assert !StaleAt(w, run, n - 1, d);
      RingKeptInOrder(Before(w, run, n - 1), run[n - 1], d);
      PassesKeptInOrder(Before(w, run, n - 1), run[n - 1], d);
      SourcedKept(Before(w, run, n - 1), run[n - 1], d);
    }
  }

  /** In an ascending ring the largest distributed key is last unless an undistributed one is larger. */
  lemma LargestIsLast(w: World, d: DeviceId, k: Key)
    requires Ascending(w.Ring(d)) && Sourced(w, d) && k in w.Ring(d) && k >= w.base
    requires forall v <- w.deliveries :: v.key <= k
    ensures Last(w.Ring(d)) == k <==> forall l <- w.Ring(d) :: Undistributed(w, l) ==> l <= k
  {
    var ring := w.Ring(d);
    assert Last(ring) in ring;
    forall l | l in ring ensures l <= Last(ring) {
      var i :| 0 <= i < |ring| && ring[i] == l;
    }
  }

  lemma LatestIsLast(u: World, d: DeviceId)
    requires Sound(u, d) && RingInOrder(u, d)
    requires NothingPending(u.rows, d) && u.deliveries != [] && d in Last(u.deliveries).recipients
    ensures u.Ring(d) != []
    ensures Last(u.Ring(d)) == Last(u.deliveries).key
       <==> forall k <- u.Ring(d) :: Undistributed(u, k) ==> k <= Last(u.deliveries).key
  {
    var latest := Last(u.deliveries);
    NothingMissing(u, d);
    assert latest in u.deliveries && !Missing(u, d, latest);
    forall v | v in u.deliveries ensures v.key <= latest.key {
      var i :| 0 <= i < |u.deliveries| && u.deliveries[i] == v;
      assert i < |u.deliveries| - 1 ==> Later(v, latest);
    }
    LargestIsLast(u, d, latest.key);
  }

  /**
    In a careful run without crossing saves, a drained device that got the latest distribution has its key
    at the end of its ring, where new data is sealed, exactly when no key of a rotation that was given up or
    is under way is newer in its ring.
  */
  lemma DrainedRingEndsWithLatest(w: World, run: seq<Step>, d: DeviceId)
    requires Initial(w) && Ascending(w.Ring(d)) && CarefulRun(w, run, d) && !SaveInBetween(w, run, d)
    requires var u := Exec(w, run);
      NothingPending(u.rows, d) && u.deliveries != [] && d in Last(u.deliveries).recipients
    ensures var u := Exec(w, run);
      && u.Ring(d) != []
      && (Last(u.Ring(d)) == Last(u.deliveries).key
          <==> forall k <- u.Ring(d) :: Undistributed(u, k) ==> k <= Last(u.deliveries).key)
  {
    RingsGrowIff(w, run, d);
    GrowIffCalm(w, run, d);
    BeforeEnd(w, run);
    SoundUpTo(w, run, |run|, d);
    RingInOrderUpTo(w, run, |run|, d);
    LatestIsLast(Exec(w, run), d);
  }
}
