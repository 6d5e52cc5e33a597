/** Three short runs, from any world before the first rotation: two that lose a key and one that does not. */
module KeyRaces {
  import opened Prelude
  import opened KeyCatchUp
  import opened KeyRings
  import opened KeyDelivery
  import opened KeyArrival
  import opened KeyCatchUpRuns
  import KE = KeyEnvelopes

  lemma {:induction false} ExecConcat(w: World, a: seq<Step>, b: seq<Step>)
    ensures Exec(w, a + b) == Exec(Exec(w, a), b)
  {
    if b == [] {
      assert a + b == a;
    } else {
      ExecConcat(w, a, b[..|b| - 1]);
      assert (a + b)[..|a + b| - 1] == a + b[..|b| - 1];
    }
  }

  lemma ExecOne(w: World, step: Step)
    ensures Exec(w, [step]) == Next(w, step)
  {
    assert [step][..0] == [];
  }

  // ---------------------------------------------------------------- the parts of a rotation

  function Save(r: RotationId, d: DeviceId): seq<Step> {
    [StartRotation(r, d), ReadRing(RotationSaver(r)), WriteRing(RotationSaver(r))]
  }

  function Distribute(r: RotationId, ids: map<DeviceId, nat>, at: Time): seq<Step> { [Bump(r), Resolve(r), Post(r, ids, at)] }

  function AfterSave(w: World, r: RotationId, d: DeviceId): World {
    w.(rotations := w.rotations[r := Rotation(d, w.drawn, Written, false, None)], drawn := w.drawn + 1,
       rings := w.rings[d := KE.Append(w.Ring(d), w.drawn)])
  }

  lemma ExecThree(w: World, a: Step, b: Step, c: Step)
    ensures Exec(w, [a, b, c]) == Next(Next(Next(w, a), b), c)
  {
    assert [a, b, c][..2] == [a, b] && [a, b][..1] == [a];
    ExecOne(w, a);
  }

  lemma Saves(w: World, r: RotationId, d: DeviceId)
    requires r !in w.rotations
    ensures Exec(w, Save(r, d)) == AfterSave(w, r, d)
  {
    ExecThree(w, StartRotation(r, d), ReadRing(RotationSaver(r)), WriteRing(RotationSaver(r)));
    var w1 := StartBy(w, r, d);
    var w2 := ReadBy(w1, RotationSaver(r));
    assert w2.rotations == w.rotations[r := Rotation(d, w.drawn, HasRead(w.Ring(d)), false, None)];
    assert WriteBy(w2, RotationSaver(r)).rotations == w.rotations[r := Rotation(d, w.drawn, Written, false, None)];
  }

  function AfterDistribute(w: World, r: RotationId, d: DeviceId, key: Key, ids: map<DeviceId, nat>, at: Time): World {
    w.(epoch := w.epoch + 1, rows := Delivered(w.rows, w.epoch + 1, d, key, ids, at), used := w.used + ids.Values,
       deliveries := w.deliveries + [Delivery(key, ids.Keys, w.epoch + 1, at)], rotations := w.rotations - {r})
  }

  lemma BumpsAndResolves(w: World, r: RotationId)
    requires r in w.rotations && w.rotations[r].saving.Written? && !w.rotations[r].bumped && w.rotations[r].epoch.None?
    ensures var v := ResolveBy(BumpBy(w, r), r);
      && v == w.(epoch := w.epoch + 1, rotations := w.rotations[r := w.rotations[r].(bumped := true, epoch := Some(w.epoch + 1))])
      && v.rotations - {r} == w.rotations - {r}
  {
    assert BumpBy(w, r).rotations[r].bumped;
    assert ResolveBy(BumpBy(w, r), r).rotations == w.rotations[r := w.rotations[r].(bumped := true, epoch := Some(w.epoch + 1))];
  }

  lemma Distributes(w: World, r: RotationId, d: DeviceId, key: Key, ids: map<DeviceId, nat>, at: Time)
    requires r in w.rotations && w.rotations[r] == Rotation(d, key, Written, false, None) && NewIds(w, ids)
    ensures Exec(w, Distribute(r, ids, at)) == AfterDistribute(w, r, d, key, ids, at)
  {
    ExecThree(w, Bump(r), Resolve(r), Post(r, ids, at));
    BumpsAndResolves(w, r);
    assert CanPost(ResolveBy(BumpBy(w, r), r), r, ids);
  }

  // ---------------------------------------------------------------- saves that cross

  /** d's pass and d's rotation read the ring, then both write it; the pass consumes its envelope. */
  function Cross(p: PassId, r: RotationId): seq<Step> {
    [ReadRing(PassSaver(p)), ReadRing(RotationSaver(r)), WriteRing(PassSaver(p))]
    + [WriteRing(RotationSaver(r)), Consume(p)]
  }

  lemma PassWritesFirst(w: World, p: PassId, r: RotationId)
    requires HasLetter(w, p) && w.passes[p].saving == Idle
    requires r in w.rotations && w.rotations[r].saving == Idle && w.rotations[r].rotator == w.passes[p].device
    ensures var v, d := Exec(w, [ReadRing(PassSaver(p)), ReadRing(RotationSaver(r)), WriteRing(PassSaver(p))]), w.passes[p].device;
      && p in v.passes && v.passes[p] == Pass(d, w.passes[p].todo, Written)
      && r in v.rotations && v.rotations[r] == w.rotations[r].(saving := HasRead(w.Ring(d)))
      && v.rows == w.rows && v.deliveries == w.deliveries
  {
    ExecThree(w, ReadRing(PassSaver(p)), ReadRing(RotationSaver(r)), WriteRing(PassSaver(p)));
  }

  lemma CrossingLoses(w: World, p: PassId, r: RotationId, l: Letter)
    requires HasLetter(w, p) && w.passes[p].saving == Idle && l == w.passes[p].todo[0]
    requires r in w.rotations && w.rotations[r].saving == Idle && w.rotations[r].rotator == w.passes[p].device
    requires l.key !in w.Ring(w.passes[p].device) && w.rotations[r].key != l.key
    ensures var v, d := Exec(w, Cross(p, r)), w.passes[p].device;
      && v.Ring(d) == KE.Append(w.Ring(d), w.rotations[r].key) && l.key !in v.Ring(d)
      && v.rows == MarkConsumed(w.rows, l.id, d) && v.deliveries == w.deliveries
  {
    var first := [ReadRing(PassSaver(p)), ReadRing(RotationSaver(r)), WriteRing(PassSaver(p))];
    ExecConcat(w, first, [WriteRing(RotationSaver(r)), Consume(p)]);
    PassWritesFirst(w, p, r);
    ExecTwo(Exec(w, first), WriteRing(RotationSaver(r)), Consume(p));
  }

  lemma ExecTwo(w: World, a: Step, b: Step)
    ensures Exec(w, [a, b]) == Next(Next(w, a), b)
  {
    assert [a, b][..1] == [a];
    ExecOne(w, a);
  }

  /** One recipient, with the new row id i. */
  function To(d: DeviceId, i: nat): (ids: map<DeviceId, nat>)
    ensures ids.Keys == {d} && ids[d] == i
  {
    map[d := i]
  }

  function Rotate(r: RotationId, b: DeviceId, d: DeviceId, i: nat, at: Time): seq<Step> { Save(r, b) + Distribute(r, To(d, i), at) }

  function AfterRotate(w: World, r: RotationId, b: DeviceId, d: DeviceId, i: nat, at: Time): World {
    AfterDistribute(AfterSave(w, r, b), r, b, w.drawn, To(d, i), at)
  }

  lemma Rotates(w: World, r: RotationId, b: DeviceId, d: DeviceId, i: nat, at: Time)
    requires Initial(w)
    ensures Exec(w, Rotate(r, b, d, i, at)) == AfterRotate(w, r, b, d, i, at)
  {
    Saves(w, r, b);
    Distributes(AfterSave(w, r, b), r, b, w.drawn, To(d, i), at);
    ExecConcat(w, Save(r, b), Distribute(r, To(d, i), at));
  }

  lemma RotateMakesARow(w: World, r: RotationId, b: DeviceId, d: DeviceId, i: nat, at: Time)
    requires Initial(w)
    ensures var u := AfterRotate(w, r, b, d, i, at);
      && u.rows == map[(d, w.epoch + 1) := KE.Envelope(i, b, KE.Sealed(d, w.drawn), at, false)]
      && u.passes == map[] && u.rotations == map[] && u.drawn == w.drawn + 1 && (b != d ==> u.Ring(d) == w.Ring(d))
      && BroughtBySome(u, d, w.epoch + 1, w.drawn)
  {
    var u := AfterRotate(w, r, b, d, i, at);
    assert Last(u.deliveries) == Delivery(w.drawn, {d}, w.epoch + 1, at);
    assert Brought(Last(u.deliveries), d, w.epoch + 1, w.drawn);
    assert SlotsOf(w.epoch + 1, To(d, i).Keys) == {(d, w.epoch + 1)};
  }

  function FetchAndStart(p: PassId, r: RotationId, d: DeviceId, x: Slot): seq<Step> { [Fetch(p, d, [x]), StartRotation(r, d)] }

  lemma FetchesAndStarts(w: World, p: PassId, r: RotationId, d: DeviceId, x: Slot)
    requires w.passes == map[] && w.rotations == map[] && x in w.rows && w.rows.Keys == {x} && IsPending(w.rows, x, d)
    ensures Exec(w, FetchAndStart(p, r, d, x))
         == w.(passes := map[p := Pass(d, [LetterAt(w.rows, x)], Idle)],
               rotations := map[r := Rotation(d, w.drawn, Idle, false, None)], drawn := w.drawn + 1)
  {
    ExecTwo(w, Fetch(p, d, [x]), StartRotation(r, d));
    assert CanFetch(w, p, d, [x]);
    assert Letters(w.rows, [x]) == [LetterAt(w.rows, x)];
  }

  lemma CrossingAfterFetch(w: World, p: PassId, r: RotationId, d: DeviceId, x: Slot)
    requires w.passes == map[] && w.rotations == map[] && x in w.rows && w.rows.Keys == {x} && IsPending(w.rows, x, d)
    requires w.rows[x].box.key !in w.Ring(d) && w.rows[x].box.key < w.drawn
    ensures var v := Exec(w, FetchAndStart(p, r, d, x) + Cross(p, r));
      && w.rows[x].box.key !in v.Ring(d) && v.deliveries == w.deliveries
      && v.rows == MarkConsumed(w.rows, w.rows[x].id, d)
  {
    FetchesAndStarts(w, p, r, d, x);
    ExecConcat(w, FetchAndStart(p, r, d, x), Cross(p, r));
    CrossingLoses(Exec(w, FetchAndStart(p, r, d, x)), p, r, LetterAt(w.rows, x));
  }

  /** b rotates; d fetches the envelope, starts a rotation of its own, and the two saves cross. */
  function CrossedRun(r: RotationId, p: PassId, b: DeviceId, d: DeviceId, i: nat, at: Time, e: Epoch): seq<Step> {
    Rotate(r, b, d, i, at) + (FetchAndStart(p, r, d, (d, e)) + Cross(p, r))
  }

  /**
    A pass that crosses with a rotation on the same device: the key of b's rotation is distributed to d and
    its envelope consumed, and d's ring does not have it.
  */
  lemma CrossedSavesLoseAKey(w: World, r: RotationId, p: PassId, b: DeviceId, d: DeviceId, i: nat, at: Time)
    requires Initial(w) && b != d
    ensures var v := Exec(w, CrossedRun(r, p, b, d, i, at, w.epoch + 1));
      && BroughtBySome(v, d, w.epoch + 1, w.drawn) && w.drawn !in v.Ring(d)
      && NothingPending(v.rows, d) && !SavedOk(v, d)
  {
    var u, x := AfterRotate(w, r, b, d, i, at), (d, w.epoch + 1);
    Rotates(w, r, b, d, i, at);
    RotateMakesARow(w, r, b, d, i, at);
    CrossingAfterFetch(u, p, r, d, x);
    ExecConcat(w, Rotate(r, b, d, i, at), FetchAndStart(p, r, d, x) + Cross(p, r));
    var v := Exec(w, CrossedRun(r, p, b, d, i, at, w.epoch + 1));
    assert v.rows[x].consumed && v.rows[x].box.key == w.drawn;
  }

  // ---------------------------------------------------------------- rotations that overlap

  /** Rotations r of a and s of b have both saved their keys. */
  function SaveBoth(r: RotationId, s: RotationId, a: DeviceId, b: DeviceId): seq<Step> { Save(r, a) + Save(s, b) }

  function AfterBoth(w: World, r: RotationId, s: RotationId, a: DeviceId, b: DeviceId): World {
    AfterSave(AfterSave(w, r, a), s, b)
  }

  lemma SavesBoth(w: World, r: RotationId, s: RotationId, a: DeviceId, b: DeviceId)
    requires Initial(w) && r != s
    ensures Exec(w, SaveBoth(r, s, a, b)) == AfterBoth(w, r, s, a, b)
    ensures AfterBoth(w, r, s, a, b).rotations
         == map[r := Rotation(a, w.drawn, Written, false, None), s := Rotation(b, w.drawn + 1, Written, false, None)]
  {
    Saves(w, r, a);
    Saves(AfterSave(w, r, a), s, b);
    ExecConcat(w, Save(r, a), Save(s, b));
  }

  function BumpTwo(r: RotationId, s: RotationId): seq<Step> { [Bump(r), Bump(s)] }

  function ResolveAndPost(r: RotationId, d: DeviceId, i: nat, at: Time): seq<Step> { [Resolve(r), Post(r, To(d, i), at)] }

  /** Rotation r has saved key and, once `bumped`, has yet to distribute it. */
  predicate Saved(w: World, r: RotationId, key: Key, bumped: bool) {
    r in w.rotations && w.rotations[r] == Rotation(w.rotations[r].rotator, key, Written, bumped, None)
  }

  lemma Bumps(w: World, r: RotationId, s: RotationId, k: Key, l: Key, bumped: bool)
    requires r != s && Saved(w, r, k, false) && Saved(w, s, l, bumped)
    ensures var v := BumpBy(w, r);
      && Saved(v, r, k, true) && Saved(v, s, l, bumped)
      && v.epoch == w.epoch + 1 && v.deliveries == w.deliveries && v.used == w.used
  {
  }

  lemma BumpsTwo(w: World, r: RotationId, s: RotationId, k: Key, l: Key)
    requires r != s && Saved(w, r, k, false) && Saved(w, s, l, false)
    ensures var v := Exec(w, BumpTwo(r, s));
      && Saved(v, r, k, true) && Saved(v, s, l, true)
      && v.epoch == w.epoch + 2 && v.deliveries == w.deliveries && v.used == w.used
  {
    ExecTwo(w, Bump(r), Bump(s));
    Bumps(w, r, s, k, l, false);
    Bumps(BumpBy(w, r), s, r, l, k, true);
  }

  lemma ResolvesAndPosts(w: World, r: RotationId, d: DeviceId, i: nat, at: Time)
    requires r in w.rotations && w.rotations[r].bumped && w.rotations[r].epoch.None? && i !in w.used
    ensures var v := Exec(w, ResolveAndPost(r, d, i, at));
      && v.deliveries == w.deliveries + [Delivery(w.rotations[r].key, {d}, w.epoch, at)]
      && v.rotations == w.rotations - {r} && v.used == w.used + {i} && v.epoch == w.epoch
  {
    ExecTwo(w, Resolve(r), Post(r, To(d, i), at));
    var w1 := ResolveBy(w, r);
    assert w1.rotations - {r} == w.rotations - {r};
    assert To(d, i).Values == {i};
  }

  lemma PostsBoth(w: World, r: RotationId, s: RotationId, k: Key, l: Key, d: DeviceId, i: nat, j: nat, at: Time)
    requires Saved(w, r, k, true) && Saved(w, s, l, true) && r != s && i != j && w.used == {} && w.deliveries == []
    ensures Exec(w, ResolveAndPost(r, d, i, at) + ResolveAndPost(s, d, j, at)).deliveries
         == [Delivery(k, {d}, w.epoch, at), Delivery(l, {d}, w.epoch, at)]
  {
    ResolvesAndPosts(w, r, d, i, at);
    ResolvesAndPosts(Exec(w, ResolveAndPost(r, d, i, at)), s, d, j, at);
    ExecConcat(w, ResolveAndPost(r, d, i, at), ResolveAndPost(s, d, j, at));
  }

  /** Both bump before either distributes: both distributions resolve to the same epoch. */
  function SameEpochRun(r: RotationId, s: RotationId, a: DeviceId, b: DeviceId, d: DeviceId, i: nat, j: nat, at: Time): seq<Step> {
    SaveBoth(r, s, a, b) + (BumpTwo(r, s) + (ResolveAndPost(r, d, i, at) + ResolveAndPost(s, d, j, at)))
  }

  lemma BumpsThenPosts(w: World, r: RotationId, s: RotationId, k: Key, l: Key, d: DeviceId, i: nat, j: nat, at: Time)
    requires Saved(w, r, k, false) && Saved(w, s, l, false) && r != s && i != j && w.used == {} && w.deliveries == []
    ensures Exec(w, BumpTwo(r, s) + (ResolveAndPost(r, d, i, at) + ResolveAndPost(s, d, j, at))).deliveries
         == [Delivery(k, {d}, w.epoch + 2, at), Delivery(l, {d}, w.epoch + 2, at)]
  {
    BumpsTwo(w, r, s, k, l);
    PostsBoth(Exec(w, BumpTwo(r, s)), r, s, k, l, d, i, j, at);
    ExecConcat(w, BumpTwo(r, s), ResolveAndPost(r, d, i, at) + ResolveAndPost(s, d, j, at));
  }

  lemma SameEpochDeliveries(w: World, r: RotationId, s: RotationId, a: DeviceId, b: DeviceId, d: DeviceId, i: nat, j: nat, at: Time)
    requires Initial(w) && r != s && i != j
    ensures Exec(w, SameEpochRun(r, s, a, b, d, i, j, at)).deliveries
         == [Delivery(w.drawn, {d}, w.epoch + 2, at), Delivery(w.drawn + 1, {d}, w.epoch + 2, at)]
  {
    SavesBoth(w, r, s, a, b);
    BumpsThenPosts(AfterBoth(w, r, s, a, b), r, s, w.drawn, w.drawn + 1, d, i, j, at);
    ExecConcat(w, SaveBoth(r, s, a, b), BumpTwo(r, s) + (ResolveAndPost(r, d, i, at) + ResolveAndPost(s, d, j, at)));
  }

  lemma SameEpochOffline(r: RotationId, s: RotationId, a: DeviceId, b: DeviceId, d: DeviceId, i: nat, j: nat, at: Time)
    requires a != d && b != d
    ensures Offline(SameEpochRun(r, s, a, b, d, i, j, at), d)
  {
  }

  /**
    Two rotations that both bump before either distributes, while d is offline: however the run goes on,
    unless saves of d's ring cross, d never gets the key of the first.
  */
  lemma SharedEpochLosesAKey(w: World, r: RotationId, s: RotationId, a: DeviceId, b: DeviceId, d: DeviceId,
                             i: nat, j: nat, at: Time, back: seq<Step>)
    requires Initial(w) && r != s && i != j && a != d && b != d
    requires !SaveInBetween(w, SameEpochRun(r, s, a, b, d, i, j, at) + back, d)
    ensures w.drawn !in Exec(w, SameEpochRun(r, s, a, b, d, i, j, at) + back).Ring(d)
  {
    var away := SameEpochRun(r, s, a, b, d, i, j, at);
    SameEpochDeliveries(w, r, s, a, b, d, i, j, at);
    SameEpochOffline(r, s, a, b, d, i, j, at);
    RingsGrowIff(w, away + back, d);
    GrowIffCalm(w, away + back, d);
    SharedEpochLost(w, away, back, d, 0, 1);
  }

  /** The first bumps and distributes before the second bumps: they overlap, at two epochs. */
  function ApartRun(r: RotationId, s: RotationId, a: DeviceId, b: DeviceId, d: DeviceId, i: nat, j: nat, at: Time): seq<Step> {
    SaveBoth(r, s, a, b) + (Distribute(r, To(d, i), at) + Distribute(s, To(d, j), at))
  }

  lemma DistributesTo(w: World, r: RotationId, key: Key, d: DeviceId, i: nat, at: Time)
    requires Saved(w, r, key, false) && i !in w.used
    ensures var v := Exec(w, Distribute(r, To(d, i), at));
      && v.deliveries == w.deliveries + [Delivery(key, {d}, w.epoch + 1, at)]
      && v.rotations == w.rotations - {r} && v.used == w.used + {i} && v.epoch == w.epoch + 1
  {
    assert To(d, i).Values == {i};
    Distributes(w, r, w.rotations[r].rotator, key, To(d, i), at);
  }

  lemma DistributesBoth(w: World, r: RotationId, s: RotationId, k: Key, l: Key, d: DeviceId, i: nat, j: nat, at: Time)
    requires r != s && i != j && w.used == {} && w.deliveries == [] && Saved(w, r, k, false) && Saved(w, s, l, false)
    ensures Exec(w, Distribute(r, To(d, i), at) + Distribute(s, To(d, j), at)).deliveries
         == [Delivery(k, {d}, w.epoch + 1, at), Delivery(l, {d}, w.epoch + 2, at)]
  {
    DistributesTo(w, r, k, d, i, at);
    DistributesTo(Exec(w, Distribute(r, To(d, i), at)), s, l, d, j, at);
    ExecConcat(w, Distribute(r, To(d, i), at), Distribute(s, To(d, j), at));
  }

  lemma ApartDeliveries(w: World, r: RotationId, s: RotationId, a: DeviceId, b: DeviceId, d: DeviceId, i: nat, j: nat, at: Time)
    requires Initial(w) && r != s && i != j
    ensures Exec(w, ApartRun(r, s, a, b, d, i, j, at)).deliveries
         == [Delivery(w.drawn, {d}, w.epoch + 1, at), Delivery(w.drawn + 1, {d}, w.epoch + 2, at)]
  {
    SavesBoth(w, r, s, a, b);
    DistributesBoth(AfterBoth(w, r, s, a, b), r, s, w.drawn, w.drawn + 1, d, i, j, at);
    ExecConcat(w, SaveBoth(r, s, a, b), Distribute(r, To(d, i), at) + Distribute(s, To(d, j), at));
  }

  /** Overlapping rotations at two epochs: once d has drained its envelopes without crossing saves it has both keys. */
  lemma OverlapAtTwoEpochsArrives(w: World, r: RotationId, s: RotationId, a: DeviceId, b: DeviceId, d: DeviceId,
                                  i: nat, j: nat, at: Time, back: seq<Step>)
    requires Initial(w) && r != s && i != j && !SaveInBetween(w, ApartRun(r, s, a, b, d, i, j, at) + back, d)
    requires var away := ApartRun(r, s, a, b, d, i, j, at);
      NothingPending(Exec(w, away + back).rows, d) && Exec(w, away + back).deliveries == Exec(w, away).deliveries
    ensures var v := Exec(w, ApartRun(r, s, a, b, d, i, j, at) + back); w.drawn in v.Ring(d) && w.drawn + 1 in v.Ring(d)
  {
    var run := ApartRun(r, s, a, b, d, i, j, at) + back;
    var v := Exec(w, run);
    ApartDeliveries(w, r, s, a, b, d, i, j, at);
    assert EpochsApart(v, d);
    DrainedRingHasEveryKey(w, run, d);
    assert v.deliveries[0] in v.deliveries && v.deliveries[1] in v.deliveries;
  }
}
