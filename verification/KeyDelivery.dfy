/** Which distributed keys reach which rings: envelopes, letters in hand, and what can lose a key on its way. */
module KeyDelivery {
  import opened Prelude
  import opened KeyCatchUp
  import opened KeyRings
  import KE = KeyEnvelopes

  // ---------------------------------------------------------------- rows, letters and deliveries

  /** The distribution brought key k to d at epoch e. */
  predicate Brought(v: Delivery, d: DeviceId, e: Epoch, k: Key) { d in v.recipients && v.epoch == e && v.key == k }

  ghost predicate BroughtBySome(w: World, d: DeviceId, e: Epoch, k: Key) { exists v <- w.deliveries :: Brought(v, d, e, k) }

  ghost predicate RowOk(w: World, at: Slot)
    requires at in w.rows
  {
    w.rows[at].id in w.used && BroughtBySome(w, at.0, at.1, w.rows[at].box.key)
  }

  ghost predicate RowsSound(w: World) { forall at <- w.rows :: RowOk(w, at) }

  ghost predicate IdsUnique(w: World) {
    forall a <- w.rows, b <- w.rows :: a.0 == b.0 && w.rows[a].id == w.rows[b].id ==> a == b
  }

  ghost predicate RowsPresent(w: World) {
    forall v <- w.deliveries, d <- v.recipients :: (d, v.epoch) in w.rows
  }

  /** A letter's row is still there under its id, and its key was distributed to that row. */
  ghost predicate LetterOk(w: World, d: DeviceId, l: Letter) {
    l.slot.0 == d && l.slot in w.rows && w.rows[l.slot].id == l.id && BroughtBySome(w, d, l.slot.1, l.key)
  }

  ghost predicate PassLettersOk(w: World, pass: Pass) { forall l <- pass.todo :: LetterOk(w, pass.device, l) }

  ghost predicate LettersOk(w: World) { forall p <- w.passes :: PassLettersOk(w, w.passes[p]) }

  /** Keys are drawn once: rotations under way differ from each other and from everything distributed. */
  ghost predicate KeysFresh(w: World) {
    && w.base <= w.drawn
    && (forall r <- w.rotations :: w.base <= w.rotations[r].key < w.drawn)
    && (forall r <- w.rotations, s <- w.rotations :: w.rotations[r].key == w.rotations[s].key ==> r == s)
    && (forall v <- w.deliveries :: w.base <= v.key < w.drawn)
    && (forall v <- w.deliveries, r <- w.rotations :: v.key != w.rotations[r].key)
    && (forall i, j | 0 <= i < j < |w.deliveries| :: w.deliveries[i].key != w.deliveries[j].key)
  }

  ghost predicate Inv(w: World) { RowsSound(w) && IdsUnique(w) && RowsPresent(w) && LettersOk(w) && KeysFresh(w) }

  // ---------------------------------------------------------------- step by step

  lemma PostRows(w: World, r: RotationId, ids: map<DeviceId, nat>, at: Time, x: Slot)
    requires CanPost(w, r, ids)
    ensures var v, e := PostBy(w, r, ids, at), w.rotations[r].epoch.value;
      && (x in v.rows <==> x in w.rows || (x.1 == e && x.0 in ids))
      && (x.1 == e && x.0 in ids ==>
            && v.rows[x].box.key == w.rotations[r].key && !v.rows[x].consumed && v.rows[x].created == at
            && v.rows[x].id == if x in w.rows then w.rows[x].id else ids[x.0])
      && (x in w.rows && !(x.1 == e && x.0 in ids) ==> v.rows[x] == w.rows[x])
  {
  }

  /** Rows are never deleted and keep their ids. */
  lemma RowsStay(w: World, step: Step, x: Slot)
    requires x in w.rows
    ensures x in Next(w, step).rows && Next(w, step).rows[x].id == w.rows[x].id
    ensures Next(w, step).rows[x].box == w.rows[x].box
         || (step.Post? && CanPost(w, step.r, step.ids) && x.0 in step.ids && x.1 == w.rotations[step.r].epoch.value)
  {
    match step
    case Post(r, ids, at) => if CanPost(w, r, ids) { PostRows(w, r, ids, at, x); }
    case _ =>
  }

  lemma BroughtStays(w: World, step: Step, d: DeviceId, e: Epoch, k: Key)
    requires BroughtBySome(w, d, e, k)
    ensures BroughtBySome(Next(w, step), d, e, k)
  {
    var v :| v in w.deliveries && Brought(v, d, e, k);
    assert v in Next(w, step).deliveries;
  }

  lemma PostRowOk(w: World, r: RotationId, ids: map<DeviceId, nat>, at: Time, x: Slot)
    requires RowsSound(w) && CanPost(w, r, ids) && x in PostBy(w, r, ids, at).rows
    ensures RowOk(PostBy(w, r, ids, at), x)
    ensures x !in w.rows ==> PostBy(w, r, ids, at).rows[x].id == ids[x.0] && x.0 in ids && x.1 == w.rotations[r].epoch.value
  {
    var v := PostBy(w, r, ids, at);
    PostRows(w, r, ids, at, x);
    if x.1 == w.rotations[r].epoch.value && x.0 in ids {
      assert Brought(Last(v.deliveries), x.0, x.1, v.rows[x].box.key) && Last(v.deliveries) in v.deliveries;
      if x in w.rows { assert RowOk(w, x); }
    } else {
      assert RowOk(w, x);
      BroughtStays(w, Post(r, ids, at), x.0, x.1, w.rows[x].box.key);
    }
  }

  lemma PostIdsUnique(w: World, r: RotationId, ids: map<DeviceId, nat>, at: Time)
    requires RowsSound(w) && IdsUnique(w) && CanPost(w, r, ids)
    ensures IdsUnique(PostBy(w, r, ids, at))
  {
    var v := PostBy(w, r, ids, at);
    forall a, b | a in v.rows && b in v.rows && a.0 == b.0 && v.rows[a].id == v.rows[b].id ensures a == b {
      PostRowOk(w, r, ids, at, a);
      PostRowOk(w, r, ids, at, b);
      PostRows(w, r, ids, at, a);
      PostRows(w, r, ids, at, b);
      if a in w.rows { assert RowOk(w, a); }
      if b in w.rows { assert RowOk(w, b); }
    }
  }

  lemma PostPresent(w: World, r: RotationId, ids: map<DeviceId, nat>, at: Time)
    requires RowsPresent(w) && CanPost(w, r, ids)
    ensures RowsPresent(PostBy(w, r, ids, at))
  {
    var v := PostBy(w, r, ids, at);
    forall x, d | x in v.deliveries && d in x.recipients ensures (d, x.epoch) in v.rows {
      PostRows(w, r, ids, at, (d, x.epoch));
      assert x in w.deliveries || x == Last(v.deliveries);
    }
  }

  /** Only a post adds rows or deliveries. */
  lemma OthersAddNothing(w: World, step: Step)
    requires !step.Post?
    ensures Next(w, step).deliveries == w.deliveries && Next(w, step).used == w.used && Next(w, step).rows.Keys == w.rows.Keys
  {
    match step
    case ReadRing(s) =>
    case WriteRing(s) =>
    case _ =>
  }

  lemma RowsFrame(w: World, step: Step)
    requires RowsSound(w) && IdsUnique(w) && RowsPresent(w) && !step.Post?
    ensures RowsSound(Next(w, step)) && IdsUnique(Next(w, step)) && RowsPresent(Next(w, step))
  {
    var v := Next(w, step);
    OthersAddNothing(w, step);
    forall x | x in v.rows ensures RowOk(v, x) {
      assert RowOk(w, x);
      RowsStay(w, step, x);
    }
    forall a, b | a in v.rows && b in v.rows && a.0 == b.0 && v.rows[a].id == v.rows[b].id ensures a == b {
      RowsStay(w, step, a);
      RowsStay(w, step, b);
    }
  }

  lemma RowsKept(w: World, step: Step)
    requires RowsSound(w) && IdsUnique(w) && RowsPresent(w)
    ensures RowsSound(Next(w, step)) && IdsUnique(Next(w, step)) && RowsPresent(Next(w, step))
  {
    if !step.Post? {
      RowsFrame(w, step);
    } else if CanPost(w, step.r, step.ids) {
      PostIdsUnique(w, step.r, step.ids, step.at);
      PostPresent(w, step.r, step.ids, step.at);
      forall x | x in Next(w, step).rows ensures RowOk(Next(w, step), x) { PostRowOk(w, step.r, step.ids, step.at, x); }
    }
  }

  /** A letter in a pass after the step was in it before, or was just fetched from its row. */
  lemma LetterOrigin(w: World, step: Step, p: PassId, l: Letter)
    requires p in Next(w, step).passes && l in Next(w, step).passes[p].todo
    ensures (p in w.passes && l in w.passes[p].todo && Next(w, step).passes[p].device == w.passes[p].device)
         || (step.Fetch? && step.p == p && CanFetch(w, p, step.d, step.list) && Next(w, step).passes[p].device == step.d
             && l.slot in step.list && IsPending(w.rows, l.slot, step.d) && l == LetterAt(w.rows, l.slot))
  {
    match step
    case Fetch(q, d, list) => if CanFetch(w, q, d, list) && p == q { var i :| 0 <= i < |list| && l == LetterAt(w.rows, list[i]); }
    case Consume(q) =>
    case Skip(q) =>
    case ReadRing(s) =>
    case WriteRing(s) =>
    case _ =>
  }

  lemma LettersKept(w: World, step: Step)
    requires RowsSound(w) && LettersOk(w)
    ensures LettersOk(Next(w, step))
  {
    var v := Next(w, step);
    forall p, l | p in v.passes && l in v.passes[p].todo ensures LetterOk(v, v.passes[p].device, l) {
      LetterOrigin(w, step, p, l);
      if p in w.passes && l in w.passes[p].todo && v.passes[p].device == w.passes[p].device {
        assert PassLettersOk(w, w.passes[p]);
      } else {
        assert RowOk(w, l.slot);
      }
      RowsStay(w, step, l.slot);
      BroughtStays(w, step, l.slot.0, l.slot.1, l.key);
    }
    forall p | p in v.passes ensures PassLettersOk(v, v.passes[p]) {
    }
  }

  lemma StartFresh(w: World, r: RotationId, d: DeviceId)
    requires KeysFresh(w)
    ensures KeysFresh(StartBy(w, r, d))
  {
  }

  lemma PostFresh(w: World, r: RotationId, ids: map<DeviceId, nat>, at: Time)
    requires KeysFresh(w) && CanPost(w, r, ids)
    ensures KeysFresh(PostBy(w, r, ids, at))
  {
    var v := PostBy(w, r, ids, at);
    assert forall x <- v.deliveries :: x in w.deliveries || x == Last(v.deliveries);
    assert forall i | 0 <= i < |w.deliveries| :: w.deliveries[i] in w.deliveries;
  }

  /** The other steps draw no key and distribute none. */
  lemma FreshFrame(w: World, v: World)
    requires KeysFresh(w) && v.deliveries == w.deliveries && v.base == w.base && v.drawn == w.drawn
    requires forall r <- v.rotations :: r in w.rotations && v.rotations[r].key == w.rotations[r].key
    ensures KeysFresh(v)
  {
  }

  lemma RotationsStay(w: World, step: Step, r: RotationId)
    requires !step.StartRotation? && r in Next(w, step).rotations
    ensures r in w.rotations && Next(w, step).rotations[r].key == w.rotations[r].key
    ensures Next(w, step).rotations[r].rotator == w.rotations[r].rotator
  {
    match step
    case ReadRing(s) =>
    case WriteRing(s) =>
    case _ =>
  }

  lemma DrawnStays(w: World, step: Step)
    ensures Next(w, step).base == w.base && Next(w, step).drawn >= w.drawn
    ensures !step.StartRotation? ==> Next(w, step).drawn == w.drawn
  {
    match step
    case ReadRing(s) =>
    case WriteRing(s) =>
    case _ =>
  }

  lemma FreshKept(w: World, step: Step)
    requires KeysFresh(w)
    ensures KeysFresh(Next(w, step))
  {
    if step.StartRotation? {
      StartFresh(w, step.r, step.d);
    } else if step.Post? {
      if CanPost(w, step.r, step.ids) { PostFresh(w, step.r, step.ids, step.at); }
    } else {
      OthersAddNothing(w, step);
      DrawnStays(w, step);
      forall r | r in Next(w, step).rotations ensures r in w.rotations && Next(w, step).rotations[r].key == w.rotations[r].key {
        RotationsStay(w, step, r);
      }
      FreshFrame(w, Next(w, step));
    }
  }

  lemma NextInv(w: World, step: Step)
    requires Inv(w)
    ensures Inv(Next(w, step))
  {
    RowsKept(w, step);
    LettersKept(w, step);
    FreshKept(w, step);
  }

  lemma {:induction false} ExecInv(w: World, run: seq<Step>)
    requires Initial(w)
    ensures Inv(Exec(w, run))
  {
    if run != [] {
      ExecInv(w, run[..|run| - 1]);
      NextInv(Exec(w, run[..|run| - 1]), Last(run));
    }
  }

  // ---------------------------------------------------------------- rotations that were given up

  ghost predicate StrayOk(w: World) {
    && (forall k <- w.stray :: k < w.drawn)
    && (forall r <- w.rotations :: w.rotations[r].key !in w.stray)
    && (forall v <- w.deliveries :: v.key !in w.stray)
  }

  lemma StrayOnlyByGivingUp(w: World, step: Step)
    requires !step.GiveUp?
    ensures Next(w, step).stray == w.stray
  {
    match step
    case ReadRing(s) =>
    case WriteRing(s) =>
    case _ =>
  }

  lemma StrayKept(w: World, step: Step)
    requires KeysFresh(w) && StrayOk(w)
    ensures StrayOk(Next(w, step))
  {
    var u := Next(w, step);
    DrawnStays(w, step);
    match step
    case GiveUp(r) =>
    case StartRotation(r, d) =>
    case Post(r, ids, at) =>
      assert forall v <- u.deliveries :: v in w.deliveries || (CanPost(w, r, ids) && v.key == w.rotations[r].key);
    case _ =>
      StrayOnlyByGivingUp(w, step);
      OthersAddNothing(w, step);
      forall r | r in u.rotations ensures u.rotations[r].key !in u.stray { RotationsStay(w, step, r); }
  }

  /** In every run, the key of a rotation that was given up is never distributed, not even later. */
  lemma {:induction false} GivenUpIsNeverDistributed(w: World, run: seq<Step>)
    requires Initial(w)
    ensures StrayOk(Exec(w, run))
  {
    if run != [] {
      GivenUpIsNeverDistributed(w, run[..|run| - 1]);
      ExecInv(w, run[..|run| - 1]);
      StrayKept(Exec(w, run[..|run| - 1]), Last(run));
    }
  }
}
