/** The one-circle protocol of KeyCatchUp is what the server's statements do to the rows of one circle. */
module KeyCatchUpLink {
  import opened Prelude
  import KE = KeyEnvelopes
  import KeyCatchUp

  type Table = KE.Table<KeyCatchUp.Key>

  ghost function OfCircle(rows: Table, c: KE.CircleId): KeyCatchUp.Rows {
    map at | at in SlotsIn(rows, c) :: rows[(c, at.0, at.1)]
  }

  ghost function SlotsIn(rows: Table, c: KE.CircleId): (slots: set<KeyCatchUp.Slot>)
    ensures forall at :: at in slots <==> (c, at.0, at.1) in rows
  {
    set at | at in rows && at.0 == c :: (at.1, at.2)
  }

  lemma ConsumeIsConsume(rows: Table, c: KE.CircleId, id: nat, d: KE.DeviceId)
    ensures OfCircle(KE.MarkConsumed(rows, id, d), c) == KeyCatchUp.MarkConsumed(OfCircle(rows, c), id, d)
  {
  }

  /** The batch distributeKey builds: one item per recipient, sealed to it, at epoch 0. */
  function Batch(recipients: seq<KE.DeviceId>, key: KeyCatchUp.Key): (items: seq<KE.Item<KeyCatchUp.Key>>)
    ensures forall e <- items :: e.recipient.Some? && e.box.Some?
  {
    seq(|recipients|, i requires 0 <= i < |recipients| => KE.Item(Some(recipients[i]), Some(KE.Sealed(recipients[i], key)), 0))
  }

  function IdsFrom(recipients: seq<KE.DeviceId>, newId: nat): map<KE.DeviceId, nat> {
    if recipients == [] then map[] else
    IdsFrom(recipients[..|recipients| - 1], newId)[Last(recipients) := newId + |recipients| - 1]
  }

  lemma {:induction false} IdsFromKeys(recipients: seq<KE.DeviceId>, newId: nat)
    ensures forall d :: d in IdsFrom(recipients, newId) <==> d in recipients
  {
    if recipients != [] {
      var init := recipients[..|recipients| - 1];
      IdsFromKeys(init, newId);
      assert recipients == init + [Last(recipients)];
    }
  }

  /** Posting the batch of distributeKey does what a Post step does to the rows of the circle. */
  lemma {:induction false} PostIsDistribute(rows: Table, c: KE.CircleId, current: int, sender: KE.DeviceId,
                                            recipients: seq<KE.DeviceId>, key: KeyCatchUp.Key, now: KE.Time, newId: nat)
    requires forall i, j | 0 <= i < j < |recipients| :: recipients[i] != recipients[j]
    ensures OfCircle(KE.PostAll(rows, c, current, sender, Batch(recipients, key), now, newId), c)
         == KeyCatchUp.Delivered(OfCircle(rows, c), current, sender, key, IdsFrom(recipients, newId), now)
  {
    if recipients == [] {
      assert KeyCatchUp.SlotsOf(current, {}) == {};
    } else {
      var init := recipients[..|recipients| - 1];
      var d := Last(recipients);
      PostIsDistribute(rows, c, current, sender, init, key, now, newId);
      IdsFromKeys(init, newId);
      PostLast(rows, c, current, sender, recipients, key, now, newId);
      assert d !in init;
      PostOneMore(OfCircle(rows, c), KE.PostAll(rows, c, current, sender, Batch(init, key), now, newId),
                  c, d, current, sender, key, IdsFrom(init, newId), now, newId + |init|);
    }
  }

  lemma PostOneMore(rows: KeyCatchUp.Rows, before: Table, c: KE.CircleId, d: KE.DeviceId, e: int, sender: KE.DeviceId,
                    key: KeyCatchUp.Key, ids: map<KE.DeviceId, nat>, now: KE.Time, id: nat)
    requires OfCircle(before, c) == KeyCatchUp.Delivered(rows, e, sender, key, ids, now) && d !in ids
    ensures OfCircle(KE.Upsert(before, (c, d, e), sender, KE.Sealed(d, key), now, id), c)
         == KeyCatchUp.Delivered(rows, e, sender, key, ids[d := id], now)
  {
    UpsertInCircle(before, c, d, e, sender, KE.Sealed(d, key), now, id);
    DeliverOneMore(rows, e, sender, key, ids, now, d, id);
  }

  lemma PostLast(rows: Table, c: KE.CircleId, current: int, sender: KE.DeviceId,
                 recipients: seq<KE.DeviceId>, key: KeyCatchUp.Key, now: KE.Time, newId: nat)
    requires recipients != []
    ensures var init, d := recipients[..|recipients| - 1], Last(recipients);
      KE.PostAll(rows, c, current, sender, Batch(recipients, key), now, newId)
        == KE.Upsert(KE.PostAll(rows, c, current, sender, Batch(init, key), now, newId),
                     (c, d, current), sender, KE.Sealed(d, key), now, newId + |init|)
  {
    assert Batch(recipients, key)[..|recipients| - 1] == Batch(recipients[..|recipients| - 1], key);
  }

  lemma UpsertInCircle(rows: Table, c: KE.CircleId, d: KE.DeviceId, e: int, sender: KE.DeviceId,
                       box: KE.Sealed<KeyCatchUp.Key>, now: KE.Time, id: nat)
    ensures OfCircle(KE.Upsert(rows, (c, d, e), sender, box, now, id), c)
         == OfCircle(rows, c)[(d, e) := KE.Envelope(
              if (d, e) in OfCircle(rows, c) then OfCircle(rows, c)[(d, e)].id else id, sender, box, now, false)]
  {
  }

  lemma DeliverOneMore(rows: KeyCatchUp.Rows, e: int, sender: KE.DeviceId, key: KeyCatchUp.Key,
                       ids: map<KE.DeviceId, nat>, now: KE.Time, d: KE.DeviceId, id: nat)
    requires d !in ids
    ensures var before := KeyCatchUp.Delivered(rows, e, sender, key, ids, now);
      KeyCatchUp.Delivered(rows, e, sender, key, ids[d := id], now)
        == before[(d, e) := KE.Envelope(if (d, e) in before then before[(d, e)].id else id, sender, KE.Sealed(d, key), now, false)]
  {
  }

  function Restrict(list: seq<KE.Slot>, c: KE.CircleId): seq<KeyCatchUp.Slot> {
    if list == [] then [] else
    Restrict(list[..|list| - 1], c) + if Last(list).0 == c then [(Last(list).1, Last(list).2)] else []
  }

  lemma {:induction false} RestrictMembers(list: seq<KE.Slot>, c: KE.CircleId)
    ensures forall at :: at in Restrict(list, c) <==> (c, at.0, at.1) in list
  {
    if list != [] {
      var init := list[..|list| - 1];
      RestrictMembers(init, c);
      assert list == init + [Last(list)];
    }
  }

  ghost predicate Sorted(rows: KeyCatchUp.Rows, list: seq<KeyCatchUp.Slot>) {
    && (forall i | 0 <= i < |list| :: list[i] in rows)
    && (forall i, j | 0 <= i < j < |list| :: rows[list[i]].created <= rows[list[j]].created)
  }

  lemma SortedSnoc(rows: KeyCatchUp.Rows, list: seq<KeyCatchUp.Slot>, at: KeyCatchUp.Slot)
    requires Sorted(rows, list) && at in rows
    requires forall x <- list :: rows[x].created <= rows[at].created
    ensures Sorted(rows, list + [at])
  {
  }

  lemma {:induction false} RestrictSorted(rows: Table, list: seq<KE.Slot>, c: KE.CircleId)
    requires forall i | 0 <= i < |list| :: list[i] in rows
    requires forall i, j | 0 <= i < j < |list| :: rows[list[i]].created <= rows[list[j]].created
    ensures Sorted(OfCircle(rows, c), Restrict(list, c))
  {
    if list != [] {
      var init := list[..|list| - 1];
      RestrictSorted(rows, init, c);
      RestrictMembers(init, c);
      assert forall at <- init :: at in rows && rows[at].created <= rows[Last(list)].created;
      if Last(list).0 == c {
        SortedSnoc(OfCircle(rows, c), Restrict(init, c), (Last(list).1, Last(list).2));
      }
    }
  }

  /** What the server lists as pending, over all circles and cut at 500, is an answer a Fetch step may get. */
  lemma PendingIsFetch(rows: Table, d: KE.DeviceId, list: seq<KE.Slot>, c: KE.CircleId)
    requires KE.IsPendingList(rows, d, list)
    ensures KeyCatchUp.IsPendingList(OfCircle(rows, c), d, Restrict(list, c))
  {
    RestrictMembers(list, c);
    RestrictSorted(rows, list, c);
    var r := Restrict(list, c);
    forall at <- OfCircle(rows, c), i | KeyCatchUp.IsPending(OfCircle(rows, c), at, d) && at !in r && 0 <= i < |r|
      ensures OfCircle(rows, c)[r[i]].created <= OfCircle(rows, c)[at].created
    {
      assert KE.IsPending(rows, (c, at.0, at.1), d);
      assert r[i] in r && (c, r[i].0, r[i].1) in list;
    }
  }
}
