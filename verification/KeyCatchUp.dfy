/**
  Catching up on the rotated keys of one circle (web/src/data/keyManager.ts and keystore.ts against the
  server's envelope table): rotations and passes of any number of tabs, interleaved between any two of
  their requests and of their accesses to the stored ring.

  Keys are drawn from a counter. Saving a key reads the ring in one transaction and writes it in another.
  Distributing reads the circle's epoch and then upserts. A rotation or a pass may stop anywhere. Envelopes
  of other circles only shorten the list a pass gets, so a pass may get any initial part of this circle's
  pending envelopes.
*/
module KeyCatchUp {
  import opened Prelude
  import KE = KeyEnvelopes

  type DeviceId = KE.DeviceId
  type Key = nat
  type Time = int
  type Epoch = int
  type PassId = nat
  type RotationId = nat

  /** One envelope row of the circle, by recipient and epoch. */
  type Slot = (DeviceId, Epoch)
  type Rows = map<Slot, KE.Envelope<Key>>

  /** An envelope as a pass fetched it; the row may change meanwhile. */
  datatype Letter = Letter(slot: Slot, id: nat, key: Key)

  /** How far saving a key has come: the ring that was read is what the write will build on. */
  datatype Saving = Idle | HasRead(ring: seq<Key>) | Written

  /** A run of openPendingEnvelopes: the letters still to do, and how far the first one is saved. */
  datatype Pass = Pass(device: DeviceId, todo: seq<Letter>, saving: Saving)

  /** A run of rotateKey: save, bump, then distribute at the epoch the server finds. */
  datatype Rotation = Rotation(rotator: DeviceId, key: Key, saving: Saving, bumped: bool, epoch: Option<Epoch>)

  /** A distribution that reached the server. */
  datatype Delivery = Delivery(key: Key, recipients: set<DeviceId>, epoch: Epoch, at: Time)

  datatype Saver = PassSaver(p: PassId) | RotationSaver(r: RotationId)

  /** `deliveries` records the distributions in order, `stray` the keys of rotations given up. */
  datatype World = World(
    epoch: Epoch, rows: Rows, used: set<nat>, rings: map<DeviceId, seq<Key>>,
    passes: map<PassId, Pass>, rotations: map<RotationId, Rotation>,
    deliveries: seq<Delivery>, stray: set<Key>, drawn: Key, base: Key)
  {
    function Ring(d: DeviceId): seq<Key> {
      if d in rings then rings[d] else []
    }
  }

  datatype Step =
    | StartRotation(r: RotationId, d: DeviceId)                        // randomCircleKey
    | ReadRing(s: Saver)                                               // the get of saveCircleKey
    | WriteRing(s: Saver)                                              // the put of saveCircleKey
    | Bump(r: RotationId)                                              // POST rotate-key
    | Resolve(r: RotationId)                                           // GetCircle in POST key-envelopes
    | Post(r: RotationId, ids: map<DeviceId, nat>, at: Time)           // its transaction, with new row ids
    | GiveUp(r: RotationId)
    | Fetch(p: PassId, d: DeviceId, list: seq<Slot>)                   // GET pending
    | Consume(p: PassId)                                               // POST consume
    | Skip(p: PassId)                                                  // an exception: on to the next letter
    | CutOff(p: PassId)

  // ---------------------------------------------------------------- statements on the circle's rows

  predicate IsPending(rows: Rows, at: Slot, d: DeviceId) {
    at in rows && at.0 == d && !rows[at].consumed
  }

  /** Oldest first; a pending row that is left out is not older than any that is listed. */
  ghost predicate IsPendingList(rows: Rows, d: DeviceId, list: seq<Slot>) {
    && (forall i | 0 <= i < |list| :: IsPending(rows, list[i], d))
    && (forall i, j | 0 <= i < j < |list| :: rows[list[i]].created <= rows[list[j]].created)
    && (forall at <- rows, i | IsPending(rows, at, d) && at !in list && 0 <= i < |list| :: rows[list[i]].created <= rows[at].created)
  }

  ghost predicate NothingPending(rows: Rows, d: DeviceId) {
    forall at <- rows :: !IsPending(rows, at, d)
  }

  function MarkConsumed(rows: Rows, id: nat, d: DeviceId): Rows {
    map at | at in rows :: if rows[at].id == id && at.0 == d then rows[at].(consumed := true) else rows[at]
  }

  /** One envelope to every recipient, in one transaction. */
  function Delivered(rows: Rows, e: Epoch, sender: DeviceId, key: Key, ids: map<DeviceId, nat>, now: Time): Rows {
    rows + map at | at in SlotsOf(e, ids.Keys) ::
      KE.Envelope(if at in rows then rows[at].id else ids[at.0], sender, KE.Sealed(at.0, key), now, false)
  }

  function SlotsOf(e: Epoch, recipients: set<DeviceId>): (slots: set<Slot>)
    ensures forall at :: at in slots <==> at.1 == e && at.0 in recipients
  {
    set d | d in recipients :: (d, e)
  }

  ghost predicate NewIds(w: World, ids: map<DeviceId, nat>) {
    ids.Values !! w.used && forall d <- ids, d' <- ids :: ids[d] == ids[d'] ==> d == d'
  }

  // ---------------------------------------------------------------- saving a key

  predicate HasSaver(w: World, s: Saver) {
    match s
    case PassSaver(p) => p in w.passes && w.passes[p].todo != []
    case RotationSaver(r) => r in w.rotations
  }

  function DeviceOf(w: World, s: Saver): DeviceId
    requires HasSaver(w, s)
  {
    match s case PassSaver(p) => w.passes[p].device case RotationSaver(r) => w.rotations[r].rotator
  }

  function KeyOf(w: World, s: Saver): Key
    requires HasSaver(w, s)
  {
    match s case PassSaver(p) => w.passes[p].todo[0].key case RotationSaver(r) => w.rotations[r].key
  }

  function SavingOf(w: World, s: Saver): Saving
    requires HasSaver(w, s)
  {
    match s case PassSaver(p) => w.passes[p].saving case RotationSaver(r) => w.rotations[r].saving
  }

  function SetSaving(w: World, s: Saver, saving: Saving): World
    requires HasSaver(w, s)
  {
    match s
    case PassSaver(p) => w.(passes := w.passes[p := w.passes[p].(saving := saving)])
    case RotationSaver(r) => w.(rotations := w.rotations[r := w.rotations[r].(saving := saving)])
  }

  predicate CanRead(w: World, s: Saver) { HasSaver(w, s) && SavingOf(w, s) == Idle }

  predicate CanWrite(w: World, s: Saver) { HasSaver(w, s) && SavingOf(w, s).HasRead? }

  function ReadBy(w: World, s: Saver): World {
    if !CanRead(w, s) then w else SetSaving(w, s, HasRead(w.Ring(DeviceOf(w, s))))
  }

  /** The ring that was read, with the key, replaces whatever is stored now. */
  function WriteBy(w: World, s: Saver): World {
    if !CanWrite(w, s) then w else
    SetSaving(w, s, Written).(rings := w.rings[DeviceOf(w, s) := KE.Append(SavingOf(w, s).ring, KeyOf(w, s))])
  }

  // ---------------------------------------------------------------- steps

  function StartBy(w: World, r: RotationId, d: DeviceId): World {
    if r in w.rotations then w else
    w.(rotations := w.rotations[r := Rotation(d, w.drawn, Idle, false, None)], drawn := w.drawn + 1)
  }

  predicate CanBump(w: World, r: RotationId) {
    r in w.rotations && w.rotations[r].saving.Written? && !w.rotations[r].bumped
  }

  function BumpBy(w: World, r: RotationId): World {
    if !CanBump(w, r) then w else
    w.(epoch := w.epoch + 1, rotations := w.rotations[r := w.rotations[r].(bumped := true)])
  }

  predicate CanResolve(w: World, r: RotationId) { r in w.rotations && w.rotations[r].bumped && w.rotations[r].epoch.None? }

  function ResolveBy(w: World, r: RotationId): World {
    if !CanResolve(w, r) then w else w.(rotations := w.rotations[r := w.rotations[r].(epoch := Some(w.epoch))])
  }

  ghost predicate CanPost(w: World, r: RotationId, ids: map<DeviceId, nat>) {
    r in w.rotations && w.rotations[r].epoch.Some? && NewIds(w, ids)
  }

  ghost function PostBy(w: World, r: RotationId, ids: map<DeviceId, nat>, at: Time): World {
    if !CanPost(w, r, ids) then w else
    var Rotation(d, key, _, _, e) := w.rotations[r];
    w.(rows := Delivered(w.rows, e.value, d, key, ids, at), used := w.used + ids.Values,
       deliveries := w.deliveries + [Delivery(key, ids.Keys, e.value, at)], rotations := w.rotations - {r})
  }

  function GiveUpBy(w: World, r: RotationId): World {
    if r !in w.rotations then w else
    w.(stray := w.stray + {w.rotations[r].key}, rotations := w.rotations - {r})
  }

  function LetterAt(rows: Rows, at: Slot): Letter
    requires at in rows
  {
    Letter(at, rows[at].id, rows[at].box.key)
  }

  function Letters(rows: Rows, list: seq<Slot>): seq<Letter>
    requires forall at <- list :: at in rows
  {
    seq(|list|, i requires 0 <= i < |list| => LetterAt(rows, list[i]))
  }

  ghost predicate CanFetch(w: World, p: PassId, d: DeviceId, list: seq<Slot>) {
    p !in w.passes && IsPendingList(w.rows, d, list)
  }

  ghost function FetchBy(w: World, p: PassId, d: DeviceId, list: seq<Slot>): World {
    if !CanFetch(w, p, d, list) then w else w.(passes := w.passes[p := Pass(d, Letters(w.rows, list), Idle)])
  }

  predicate HasLetter(w: World, p: PassId) { p in w.passes && w.passes[p].todo != [] }

  predicate CanConsume(w: World, p: PassId) { HasLetter(w, p) && w.passes[p].saving.Written? }

  function Rest(pass: Pass): Pass
    requires pass.todo != []
  {
    Pass(pass.device, pass.todo[1..], Idle)
  }

  function ConsumeBy(w: World, p: PassId): World {
    if !CanConsume(w, p) then w else
    w.(rows := MarkConsumed(w.rows, w.passes[p].todo[0].id, w.passes[p].device),
       passes := w.passes[p := Rest(w.passes[p])])
  }

  function SkipBy(w: World, p: PassId): World {
    if !HasLetter(w, p) then w else w.(passes := w.passes[p := Rest(w.passes[p])])
  }

  /** A step that is not enabled changes nothing. */
  ghost function Next(w: World, step: Step): World {
    match step
    case StartRotation(r, d) => StartBy(w, r, d)
    case ReadRing(s) => ReadBy(w, s)
    case WriteRing(s) => WriteBy(w, s)
    case Bump(r) => BumpBy(w, r)
    case Resolve(r) => ResolveBy(w, r)
    case Post(r, ids, at) => PostBy(w, r, ids, at)
    case GiveUp(r) => GiveUpBy(w, r)
    case Fetch(p, d, list) => FetchBy(w, p, d, list)
    case Consume(p) => ConsumeBy(w, p)
    case Skip(p) => SkipBy(w, p)
    case CutOff(p) => w.(passes := w.passes - {p})
  }

  ghost function Exec(w: World, run: seq<Step>): World {
    if run == [] then w else Next(Exec(w, run[..|run| - 1]), Last(run))
  }

  /** The world before step n. */
  ghost function Before(w: World, run: seq<Step>, n: nat): World
    requires n <= |run|
  {
    Exec(w, run[..n])
  }

  ghost predicate NoRepeats(ring: seq<Key>) { forall i, j | 0 <= i < j < |ring| :: ring[i] != ring[j] }

  /** A circle before its first rotation; devices may hold older keys (from an invite), named below `base`. */
  ghost predicate Initial(w: World) {
    && w.rows == map[] && w.used == {} && w.passes == map[] && w.rotations == map[]
    && w.deliveries == [] && w.stray == {} && w.base == w.drawn
    && forall d <- w.rings :: NoRepeats(w.rings[d]) && forall k <- w.rings[d] :: k < w.base
  }

  lemma BeforeNext(w: World, run: seq<Step>, n: nat)
    requires n < |run|
    ensures Before(w, run, n + 1) == Next(Before(w, run, n), run[n])
  {
    assert run[..n + 1][..n] == run[..n];
  }

  lemma BeforeEnd(w: World, run: seq<Step>)
    ensures Before(w, run, |run|) == Exec(w, run) && Before(w, run, 0) == w
  {
    assert run[..|run|] == run;
  }
}
