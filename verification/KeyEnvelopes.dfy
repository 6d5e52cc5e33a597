/**
  Sealed circle-key envelopes: the server's table and posting handler, and the browser's keyring
  (server/internal/httpapi/keyenvelopes.go, store/key_envelopes.sql.go, web/src/data/keystore.ts, keyManager.ts).
*/
module KeyEnvelopes {
  import opened Prelude

  type CircleId = nat
  type DeviceId = nat
  type Time = int

  /** A box sealed to the identity key of device `to`; only that device can open it. */
  datatype Sealed<K> = Sealed(to: DeviceId, key: K)

  datatype Envelope<K> = Envelope(id: nat, sender: DeviceId, box: Sealed<K>, created: Time, consumed: bool)

  /** Rows are unique per (circle, recipient device, epoch). */
  type Slot = (CircleId, DeviceId, int)
  type Table<K> = map<Slot, Envelope<K>>

  const MAX_KEY_ENVELOPES := 200
  const PENDING_LIMIT := 500

  // ---------------------------------------------------------------- statements

  /** CreateKeyEnvelope: a row already there keeps its id, takes the new box and is armed again. */
  function Upsert<K>(rows: Table<K>, at: Slot, sender: DeviceId, box: Sealed<K>, now: Time, newId: nat): Table<K> {
    rows[at := Envelope(if at in rows then rows[at].id else newId, sender, box, now, false)]
  }

  function MarkConsumed<K>(rows: Table<K>, id: nat, d: DeviceId): Table<K> {
    map at | at in rows :: if rows[at].id == id && at.1 == d then rows[at].(consumed := true) else rows[at]
  }

  predicate IsPending<K>(rows: Table<K>, at: Slot, d: DeviceId) {
    at in rows && at.1 == d && !rows[at].consumed
  }

  /** A possible answer of PendingEnvelopesForDevice: oldest first, at most 500, nothing older left out. */
  ghost predicate IsPendingList<K>(rows: Table<K>, d: DeviceId, list: seq<Slot>) {
    && |list| <= PENDING_LIMIT
    && (forall i | 0 <= i < |list| :: IsPending(rows, list[i], d))
    && (forall i, j | 0 <= i < j < |list| :: list[i] != list[j] && rows[list[i]].created <= rows[list[j]].created)
    && (forall at <- rows | IsPending(rows, at, d) && at !in list ::
          |list| == PENDING_LIMIT && forall i | 0 <= i < |list| :: rows[list[i]].created <= rows[at].created)
  }

  // ---------------------------------------------------------------- handlePostKeyEnvelopes

  /** `recipient` and `box` are None when they do not parse. */
  datatype Item<K> = Item(recipient: Option<DeviceId>, box: Option<Sealed<K>>, epoch: int)

  datatype PostError = CircleNotFound | OwnerRoleRequired | WrongItemCount | BadItem(index: nat)

  predicate ItemOk<K>(e: Item<K>, valid: set<DeviceId>) {
    e.recipient.Some? && e.recipient.value in valid && e.box.Some?
  }

  /** Zero or less means the circle's current epoch. */
  function Clamp(epoch: int, current: int): int {
    if epoch <= 0 then current else epoch
  }

  function SlotOf<K>(c: CircleId, e: Item<K>, current: int): Slot
    requires e.recipient.Some?
  {
    (c, e.recipient.value, Clamp(e.epoch, current))
  }

  /** The envelopes of the batch, one after another. */
  function PostAll<K>(rows: Table<K>, c: CircleId, current: int, sender: DeviceId, items: seq<Item<K>>, now: Time, newId: nat): Table<K>
    requires forall e <- items :: e.recipient.Some? && e.box.Some?
  {
    if items == [] then rows else
    var e := Last(items);
    Upsert(PostAll(rows, c, current, sender, items[..|items| - 1], now, newId),
           SlotOf(c, e, current), sender, e.box.value, now, newId + |items| - 1)
  }

  class Server<K(==)> {
    var rows: Table<K>
    var nextId: nat
    var now: Time

    constructor ()
      ensures rows == map[] && nextId == 0
    {
      rows, nextId, now := map[], 0, 0;
    }

    /**
      `role` is the caller's role in the circle, None for a non-member; `valid` the devices of the
      circle's members. The transaction works on a copy of the table and is committed at the end.
    */
    method PostEnvelopes(c: CircleId, ownerRole: Option<bool>, current: int, valid: set<DeviceId>, sender: DeviceId, items: seq<Item<K>>)
      returns (r: Result<nat, PostError>)
      modifies this`rows, this`nextId
      ensures r.Err? ==> rows == old(rows) && nextId == old(nextId)
      ensures r == Err(CircleNotFound) <==> ownerRole.None?
      ensures r == Err(OwnerRoleRequired) <==> ownerRole == Some(false)
      ensures r == Err(WrongItemCount) <==> ownerRole == Some(true) && !(1 <= |items| <= 200)
      ensures r.Ok? <==> ownerRole == Some(true) && 1 <= |items| <= 200
                         && forall e <- items :: e.recipient.Some? && e.recipient.value in valid && e.box.Some?
      ensures r.Ok? ==> r.value == |items| && nextId == old(nextId) + |items|
                        && rows == PostAll(old(rows), c, current, sender, items, now, old(nextId))
      ensures r.Err? && r.error.BadItem? ==>
                var e := r.error.index;
                e < |items| && !(items[e].recipient.Some? && items[e].recipient.value in valid && items[e].box.Some?)
                && forall i | 0 <= i < r.error.index :: ItemOk(items[i], valid)
    {
      if ownerRole.None? {
        return Err(CircleNotFound);
      }
      if !ownerRole.value {
        return Err(OwnerRoleRequired);
      }
      if |items| == 0 || |items| > MAX_KEY_ENVELOPES {
        return Err(WrongItemCount);
      }
      var tx, id, count := rows, nextId, 0;
      for i := 0 to |items|
        invariant count == i && id == nextId + i && rows == old(rows) && nextId == old(nextId)
        invariant forall j | 0 <= j < i :: ItemOk(items[j], valid)
        invariant tx == PostAll(rows, c, current, sender, items[..i], now, nextId)
      {
        var e := items[i];
        if e.recipient.None? || e.recipient.value !in valid || e.box.None? {
          assert e in items && !ItemOk(e, valid);
          return Err(BadItem(i));
        }
        assert items[..i + 1][..i] == items[..i];
        tx := Upsert(tx, SlotOf(c, e, current), sender, e.box.value, now, id);
        id := id + 1;
        count := count + 1;
      }
      assert items[..|items|] == items;
      rows, nextId := tx, id;
      return Ok(count);
    }

    method Consume(id: nat, d: DeviceId)
      modifies this`rows
      ensures rows == MarkConsumed(old(rows), id, d)
    {
      rows := map at | at in rows ::
        if rows[at].id == id && at.1 == d && !rows[at].consumed then rows[at].(consumed := true) else rows[at];
    }
  }

  /** A row once there keeps its slot and its id. */
  lemma {:induction false} PostAllKeeps<K>(
      rows: Table<K>, c: CircleId, current: int, sender: DeviceId, items: seq<Item<K>>, now: Time, newId: nat, at: Slot)
    requires forall e <- items :: e.recipient.Some? && e.box.Some?
    requires at in rows
    ensures at in PostAll(rows, c, current, sender, items, now, newId)
    ensures PostAll(rows, c, current, sender, items, now, newId)[at].id == rows[at].id
  {
    if items != [] { PostAllKeeps(rows, c, current, sender, items[..|items| - 1], now, newId, at); }
  }

  /** A slot the batch does not address is as before. */
  lemma {:induction false} PostAllElsewhere<K>(
      rows: Table<K>, c: CircleId, current: int, sender: DeviceId, items: seq<Item<K>>, now: Time, newId: nat, at: Slot)
    requires forall e <- items :: e.recipient.Some? && e.box.Some?
    requires forall e <- items :: SlotOf(c, e, current) != at
    ensures at in PostAll(rows, c, current, sender, items, now, newId) <==> at in rows
    ensures at in rows ==> PostAll(rows, c, current, sender, items, now, newId)[at] == rows[at]
  {
    if items != [] {
      assert Last(items) in items;
      PostAllElsewhere(rows, c, current, sender, items[..|items| - 1], now, newId, at);
    }
  }

  /** A slot the batch addresses holds the box of the last item for it, unconsumed. */
  lemma {:induction false} LastItemWins<K>(
      rows: Table<K>, c: CircleId, current: int, sender: DeviceId, items: seq<Item<K>>, now: Time, newId: nat, at: Slot, i: nat)
    requires forall e <- items :: e.recipient.Some? && e.box.Some?
    requires i < |items| && SlotOf(c, items[i], current) == at
    requires forall j | i < j < |items| :: SlotOf(c, items[j], current) != at
    ensures at in PostAll(rows, c, current, sender, items, now, newId)
    ensures var row := PostAll(rows, c, current, sender, items, now, newId)[at];
      row.box == items[i].box.value && !row.consumed && row.created == now && (at in rows ==> row.id == rows[at].id)
  {
    var init := items[..|items| - 1];
    if i < |init| {
      LastItemWins(rows, c, current, sender, init, now, newId, at, i);
    } else if at in rows {
      PostAllKeeps(rows, c, current, sender, init, now, newId, at);
    }
  }

  /** Two batches resolved to the same epoch keep only the second key: the first one's envelope is gone. */
  lemma SameEpochLosesFirstKey<K>(rows: Table<K>, at: Slot, sender: DeviceId, first: Sealed<K>, second: Sealed<K>, now: Time, id: nat)
    requires first.key != second.key
    requires forall s <- rows | s.0 == at.0 && s.1 == at.1 && s != at :: rows[s].box.key != first.key
    ensures var after := Upsert(Upsert(rows, at, sender, first, now, id), at, sender, second, now, id + 1);
      forall s <- after | s.0 == at.0 && s.1 == at.1 :: after[s].box.key != first.key
  {
  }

  // ---------------------------------------------------------------- keystore.ts

  type Bytes = seq<bv8>

  function Append<K(==)>(ring: seq<K>, key: K): seq<K> {
    if key in ring then ring else ring + [key]
  }

  function RingOf<K>(rings: map<CircleId, seq<K>>, c: CircleId): seq<K> {
    if c in rings then rings[c] else []
  }

  /** Saving a key: `read` is the store at its first transaction, `between` at its second. */
  function Saved<K(==)>(read: map<CircleId, seq<K>>, between: map<CircleId, seq<K>>, c: CircleId, key: K): map<CircleId, seq<K>> {
    between[c := Append(RingOf(read, c), key)]
  }

  type Rings = map<CircleId, seq<Bytes>>

  class Keystore {
    var rings: Rings

    constructor ()
      ensures rings == map[]
    {
      rings := map[];
    }

    static method SameKey(a: Bytes, b: Bytes) returns (same: bool)
      ensures same <==> a == b
    {
      if |a| != |b| {
        return false;
      }
      for i := 0 to |a|
        invariant a[..i] == b[..i]
      {
        if a[i] != b[i] {
          return false;
        }
      }
      assert a == a[..|a|] && b == b[..|b|];
      return true;
    }

    /** `between` is what other tabs leave in the store between this call's two transactions. */
    method SaveCircleKey(c: CircleId, key: Bytes, between: Rings)
      modifies this`rings
      ensures rings == Saved(old(rings), between, c, key)
    {
      var ring := if c in rings then rings[c] else [];
      var known := false;
      for i := 0 to |ring|
        invariant rings == old(rings) && (!known <==> key !in ring[..i])
      {
        var same := SameKey(ring[i], key);
        known := known || same;
      }
      assert ring[..|ring|] == ring;
      if !known {
        ring := ring + [key];
      }
      rings := between;
      rings := rings[c := ring];
    }

    method LoadCircleKey(c: CircleId) returns (key: Option<Bytes>)
      ensures key == if RingOf(rings, c) == [] then None else Some(Last(RingOf(rings, c)))
    {
      if c in rings && |rings[c]| > 0 {
        return Some(rings[c][|rings[c]| - 1]);
      }
      return None;
    }
  }

  /** No key of a ring is ever lost or moved by a save, none is stored twice, and the saved key is there. */
  lemma AppendKeeps<K>(ring: seq<K>, key: K)
    ensures IsPrefix(ring, Append(ring, key)) && key in Append(ring, key)
    ensures (forall i, j | 0 <= i < j < |ring| :: ring[i] != ring[j]) ==>
              forall i, j | 0 <= i < j < |Append(ring, key)| :: Append(ring, key)[i] != Append(ring, key)[j]
  {
  }

  ghost predicate Keeps<K>(a: map<CircleId, seq<K>>, b: map<CircleId, seq<K>>) {
    forall c, k | k in RingOf(a, c) :: k in RingOf(b, c)
  }

  /** A save drops no stored key exactly when every other key now stored was there when it read. */
  lemma SavedKeepsIff<K>(read: map<CircleId, seq<K>>, between: map<CircleId, seq<K>>, c: CircleId, key: K)
    ensures Keeps(between, Saved(read, between, c, key)) <==> forall k <- RingOf(between, c) :: k in RingOf(read, c) || k == key
    ensures key in RingOf(Saved(read, between, c, key), c)
  {
    var after := Saved(read, between, c, key);
    forall k ensures k in RingOf(after, c) <==> k in RingOf(read, c) || k == key {
      AppendKeeps(RingOf(read, c), key);
    }
    forall x, k | x != c ensures k in RingOf(after, x) <==> k in RingOf(between, x) {
    }
  }

  // ---------------------------------------------------------------- keyManager.openPendingEnvelopes

  /** One unsealed letter of the pending list, with the slot it was read from. */
  datatype Letter<K> = Letter(id: nat, circle: CircleId, box: Sealed<K>)

  /** What others leave before a letter's awaits: the store when the save reads and when it writes, the server's rows. */
  datatype Gap<K> = Gap(read: map<CircleId, seq<K>>, between: map<CircleId, seq<K>>, rows: Table<K>)

  /**
    The loop of openPendingEnvelopes on device `me`. `reachable(id)` says whether the consume request
    for that envelope succeeds; a failure is caught and leaves the envelope for the next pass.
  */
  method OpenPending(store: Keystore, server: Server<Bytes>, me: DeviceId, pending: seq<Letter<Bytes>>, gaps: seq<Gap<Bytes>>,
                     reachable: nat -> bool)
    returns (updated: set<CircleId>)
    requires |gaps| == |pending|
    modifies store`rings, server`rows
    ensures store.rings == SaveLetters(old(store.rings), me, pending, gaps)
    ensures server.rows == ConsumeLetters(old(server.rows), me, pending, gaps, reachable)
    ensures updated == set i | 0 <= i < |pending| && pending[i].box.to == me && reachable(pending[i].id) :: pending[i].circle
  {
    updated := {};
    for i := 0 to |pending|
      invariant store.rings == SaveLetters(old(store.rings), me, pending[..i], gaps[..i])
      invariant server.rows == ConsumeLetters(old(server.rows), me, pending[..i], gaps[..i], reachable)
      invariant updated == set j | 0 <= j < i && pending[j].box.to == me && reachable(pending[j].id) :: pending[j].circle
    {
      var env, gap := pending[i], gaps[i];
      assert pending[..i + 1][..i] == pending[..i] && gaps[..i + 1][..i] == gaps[..i];
      if env.box.to == me {
        store.rings := gap.read;
        store.SaveCircleKey(env.circle, env.box.key, gap.between);
        server.rows := gap.rows;
        if reachable(env.id) {
          server.Consume(env.id, me);
          updated := updated + {env.circle};
        }
      }
    }
    assert pending[..|pending|] == pending && gaps[..|gaps|] == gaps;
  }

  function SaveLetters<K(==)>(rings: map<CircleId, seq<K>>, me: DeviceId, pending: seq<Letter<K>>, gaps: seq<Gap<K>>): map<CircleId, seq<K>>
    requires |gaps| == |pending|
  {
    if pending == [] then rings else
    var env, gap := Last(pending), Last(gaps);
    if env.box.to == me then Saved(gap.read, gap.between, env.circle, env.box.key)
    else SaveLetters(rings, me, pending[..|pending| - 1], gaps[..|gaps| - 1])
  }

  function ConsumeLetters<K>(rows: Table<K>, me: DeviceId, pending: seq<Letter<K>>, gaps: seq<Gap<K>>, reachable: nat -> bool): Table<K>
    requires |gaps| == |pending|
  {
    if pending == [] then rows else
    var env, gap := Last(pending), Last(gaps);
    if env.box.to != me then ConsumeLetters(rows, me, pending[..|pending| - 1], gaps[..|gaps| - 1], reachable)
    else if reachable(env.id) then MarkConsumed(gap.rows, env.id, me) else gap.rows
  }

  /** The row still holds its box, and is consumed only if the key is in the ring. */
  ghost predicate Sound<K>(rings: map<CircleId, seq<K>>, rows: Table<K>, at: Slot, id: nat, box: Sealed<K>) {
    at in rows && rows[at].id == id && rows[at].box == box && (rows[at].consumed ==> box.key in RingOf(rings, at.0))
  }

  /**
    Others keep to the rules around one letter: they drop no key, slip in no other key between the save's
    read and its write, do not overwrite the envelope, and consume it only when its key is in the ring.
  */
  ghost predicate Harmless<K>(before: map<CircleId, seq<K>>, gap: Gap<K>, env: Letter<K>, at: Slot, id: nat, box: Sealed<K>) {
    && Keeps(before, gap.read) && Keeps(gap.read, gap.between)
    && (forall k <- RingOf(gap.between, env.circle) :: k in RingOf(gap.read, env.circle) || k == env.box.key)
    && Sound(Saved(gap.read, gap.between, env.circle, env.box.key), gap.rows, at, id, box)
  }

  /** A pass consumes only envelopes whose key it has put in the ring, and the rings keep their keys. */
  lemma {:induction false} PassSavesWhatItConsumes<K>(
      rings: map<CircleId, seq<K>>, rows: Table<K>, me: DeviceId, pending: seq<Letter<K>>, gaps: seq<Gap<K>>, reachable: nat -> bool,
      at: Slot, id: nat, box: Sealed<K>)
    requires |gaps| == |pending| && Sound(rings, rows, at, id, box)
    requires forall env <- pending | env.id == id && env.box.to == at.1 :: env.circle == at.0 && env.box == box
    requires forall i | 0 <= i < |pending| && pending[i].box.to == me ::
      Harmless(SaveLetters(rings, me, pending[..i], gaps[..i]), gaps[i], pending[i], at, id, box)
    ensures Sound(SaveLetters(rings, me, pending, gaps), ConsumeLetters(rows, me, pending, gaps, reachable), at, id, box)
    ensures Keeps(rings, SaveLetters(rings, me, pending, gaps))
  {
    if pending != [] {
      var n := |pending| - 1;
      forall i | 0 <= i < n ensures pending[..n][..i] == pending[..i] && gaps[..n][..i] == gaps[..i] {
      }
      PassSavesWhatItConsumes(rings, rows, me, pending[..n], gaps[..n], reachable, at, id, box);
      var env, gap := pending[n], gaps[n];
      if env.box.to == me {
        SavedKeepsIff(gap.read, gap.between, env.circle, env.box.key);
        assert env in pending && Harmless(SaveLetters(rings, me, pending[..n], gaps[..n]), gap, env, at, id, box);
      }
    }
  }
}
