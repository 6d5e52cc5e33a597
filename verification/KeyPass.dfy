/** What a whole pass over the pending envelopes leaves behind (web/src/data/keyManager.ts). */
module KeyPass {
  import opened Prelude
  import opened KeyEnvelopes

  /** The pass opens letter i. */
  predicate Own<K>(me: DeviceId, pending: seq<Letter<K>>, i: int) { 0 <= i < |pending| && pending[i].box.to == me }

  /** Letter i is consumed at this slot: it is sealed to the device, its request goes through, and its row is there. */
  predicate Takes<K>(me: DeviceId, pending: seq<Letter<K>>, gaps: seq<Gap<K>>, reachable: nat -> bool, i: int, at: Slot)
    requires |gaps| == |pending|
  {
    && Own(me, pending, i) && reachable(pending[i].id)
    && at in gaps[i].rows && at.1 == me && gaps[i].rows[at].id == pending[i].id
  }

  /** Between letters i and j others delete no row, keep its id, and never disarm a consumed one. */
  ghost predicate NeverDisarmed<K>(me: DeviceId, pending: seq<Letter<K>>, gaps: seq<Gap<K>>, reachable: nat -> bool, i: int, j: int)
    requires |gaps| == |pending|
  {
    Own(me, pending, i) && Own(me, pending, j) && i < j ==>
      forall at <- gaps[i].rows ::
        && at in gaps[j].rows && gaps[j].rows[at].id == gaps[i].rows[at].id
        && (gaps[i].rows[at].consumed || Takes(me, pending, gaps, reachable, i, at) ==> gaps[j].rows[at].consumed)
  }

  /** The last letter of the device, or -1. */
  function LastOwn<K>(me: DeviceId, pending: seq<Letter<K>>): (n: int)
    ensures n == -1 || Own(me, pending, n)
    ensures forall i | n < i < |pending| :: !Own(me, pending, i)
  {
    if pending == [] then -1
    else if Last(pending).box.to == me then |pending| - 1
    else
      assert forall i | 0 <= i < |pending| - 1 :: Own(me, pending, i) == Own(me, pending[..|pending| - 1], i);
      LastOwn(me, pending[..|pending| - 1])
  }

  /** The pass leaves what others left before its last letter, with that letter consumed. */
  lemma {:induction false} LeftAtTheEnd<K>(rows: Table<K>, me: DeviceId, pending: seq<Letter<K>>, gaps: seq<Gap<K>>, reachable: nat -> bool)
    requires |gaps| == |pending|
    ensures var n, left := LastOwn(me, pending), ConsumeLetters(rows, me, pending, gaps, reachable);
      && (n == -1 ==> left == rows)
      && (n >= 0 ==> left.Keys == gaps[n].rows.Keys
                     && forall at <- left :: left[at] == if Takes(me, pending, gaps, reachable, n, at)
                                                         then gaps[n].rows[at].(consumed := true) else gaps[n].rows[at])
  {
    if pending != [] && Last(pending).box.to != me {
      var k := |pending| - 1;
      LeftAtTheEnd(rows, me, pending[..k], gaps[..k], reachable);
      var n := LastOwn(me, pending[..k]);
      assert LastOwn(me, pending) == n;
      assert n >= 0 ==> forall at :: Takes(me, pending[..k], gaps[..k], reachable, n, at) == Takes(me, pending, gaps, reachable, n, at);
    }
  }

  /**
    If others never disarm a consumed row, then at the end of the pass the row of every letter that is sealed
    to the device and whose request goes through is consumed; every row the last letter is not about is as
    the others left it.
  */
  lemma PassConsumesItsLetters<K>(rows: Table<K>, me: DeviceId, pending: seq<Letter<K>>, gaps: seq<Gap<K>>, reachable: nat -> bool)
    requires |gaps| == |pending|
    requires forall i, j :: NeverDisarmed(me, pending, gaps, reachable, i, j)
    ensures var left := ConsumeLetters(rows, me, pending, gaps, reachable);
      && (forall i, at | Takes(me, pending, gaps, reachable, i, at) :: at in left && left[at].id == pending[i].id && left[at].consumed)
      && (forall at <- left | LastOwn(me, pending) >= 0 && !Takes(me, pending, gaps, reachable, LastOwn(me, pending), at) ::
            at in gaps[LastOwn(me, pending)].rows && left[at] == gaps[LastOwn(me, pending)].rows[at])
  {
    var left, n := ConsumeLetters(rows, me, pending, gaps, reachable), LastOwn(me, pending);
    LeftAtTheEnd(rows, me, pending, gaps, reachable);
    forall i, at | Takes(me, pending, gaps, reachable, i, at)
      ensures at in left && left[at].id == pending[i].id && left[at].consumed
    {
      assert i <= n;
      assert NeverDisarmed(me, pending, gaps, reachable, i, n);
    }
  }

  // ---------------------------------------------------------------- nobody else acting

  /** Each of the pass's awaits finds the rows and rings as the pass itself left them. */
  ghost predicate Alone<K>(rings: map<CircleId, seq<K>>, rows: Table<K>, me: DeviceId, pending: seq<Letter<K>>, gaps: seq<Gap<K>>,
                           reachable: nat -> bool)
    requires |gaps| == |pending|
  {
    forall i | 0 <= i < |pending| ::
      && gaps[i].rows == ConsumeLetters(rows, me, pending[..i], gaps[..i], reachable)
      && gaps[i].read == gaps[i].between == SaveLetters(rings, me, pending[..i], gaps[..i])
  }

  predicate ConsumedBy<K>(me: DeviceId, pending: seq<Letter<K>>, reachable: nat -> bool, at: Slot, id: nat) {
    at.1 == me && exists i | 0 <= i < |pending| :: pending[i].box.to == me && pending[i].id == id && reachable(id)
  }

  lemma AlonePrefix<K>(rings: map<CircleId, seq<K>>, rows: Table<K>, me: DeviceId, pending: seq<Letter<K>>, gaps: seq<Gap<K>>,
                       reachable: nat -> bool, k: nat)
    requires |gaps| == |pending| && k <= |pending| && Alone(rings, rows, me, pending, gaps, reachable)
    ensures Alone(rings, rows, me, pending[..k], gaps[..k], reachable)
  {
    forall i | 0 <= i < k ensures pending[..k][..i] == pending[..i] && gaps[..k][..i] == gaps[..i] {
    }
  }

  /**
    Nobody else acting, a pass consumes exactly the rows of its letters whose request goes through, and
    changes nothing else.
  */
  lemma {:induction false} AlonePassConsumes<K>(rings: map<CircleId, seq<K>>, rows: Table<K>, me: DeviceId, pending: seq<Letter<K>>,
                                                gaps: seq<Gap<K>>, reachable: nat -> bool)
    requires |gaps| == |pending| && Alone(rings, rows, me, pending, gaps, reachable)
    ensures var left := ConsumeLetters(rows, me, pending, gaps, reachable);
      && left.Keys == rows.Keys
      && forall at <- rows :: left[at] == if ConsumedBy(me, pending, reachable, at, rows[at].id)
                                          then rows[at].(consumed := true) else rows[at]
  {
    if pending != [] {
      var k := |pending| - 1;
      AlonePrefix(rings, rows, me, pending, gaps, reachable, k);
      AlonePassConsumes(rings, rows, me, pending[..k], gaps[..k], reachable);
      forall at | at in rows
        ensures ConsumedBy(me, pending, reachable, at, rows[at].id)
           <==> ConsumedBy(me, pending[..k], reachable, at, rows[at].id)
                || (at.1 == me && pending[k].box.to == me && pending[k].id == rows[at].id && reachable(rows[at].id))
      {
        OneMoreLetter(me, pending, reachable, at, rows[at].id);
      }
    }
  }

  /** The letters of a fetched list of slots. */
  function LettersOf<K>(rows: Table<K>, list: seq<Slot>): seq<Letter<K>>
    requires forall at <- list :: at in rows
  {
    seq(|list|, i requires 0 <= i < |list| => Letter(rows[list[i]].id, list[i].0, rows[list[i]].box))
  }

  /**
    So a pass over a list shorter than the limit, of boxes the device can open and with every request going
    through, leaves nothing pending for the device.
  */
  lemma AlonePassDrains<K>(rings: map<CircleId, seq<K>>, rows: Table<K>, me: DeviceId, list: seq<Slot>, gaps: seq<Gap<K>>,
                           reachable: nat -> bool)
    requires IsPendingList(rows, me, list) && |list| < PENDING_LIMIT && |gaps| == |list|
    requires forall at <- list :: rows[at].box.to == me && reachable(rows[at].id)
    requires Alone(rings, rows, me, LettersOf(rows, list), gaps, reachable)
    ensures forall at :: !IsPending(ConsumeLetters(rows, me, LettersOf(rows, list), gaps, reachable), at, me)
  {
    var pending := LettersOf(rows, list);
    AlonePassConsumes(rings, rows, me, pending, gaps, reachable);
    forall at | IsPending(rows, at, me) ensures ConsumedBy(me, pending, reachable, at, rows[at].id) {
      assert at in list;
      var i :| 0 <= i < |list| && list[i] == at;
      assert pending[i].id == rows[at].id;
    }
  }

  lemma OneMoreLetter<K>(me: DeviceId, pending: seq<Letter<K>>, reachable: nat -> bool, at: Slot, id: nat)
    requires pending != []
    ensures var k := |pending| - 1;
      ConsumedBy(me, pending, reachable, at, id)
      <==> ConsumedBy(me, pending[..k], reachable, at, id)
           || (at.1 == me && pending[k].box.to == me && pending[k].id == id && reachable(id))
  {
    var k := |pending| - 1;
    assert forall i | 0 <= i < k :: pending[..k][i] == pending[i];
    if ConsumedBy(me, pending, reachable, at, id) {
      var i :| 0 <= i < |pending| && pending[i].box.to == me && pending[i].id == id && reachable(id);
      assert i < k ==> pending[..k][i] == pending[i];
    }
    if ConsumedBy(me, pending[..k], reachable, at, id) {
      var i :| 0 <= i < k && pending[..k][i].box.to == me && pending[..k][i].id == id && reachable(id);
      assert pending[i] == pending[..k][i];
    }
  }

  // ---------------------------------------------------------------- the keys

  /** The keys of a circle's letters that the pass opens. */
  ghost predicate Opened<K>(me: DeviceId, pending: seq<Letter<K>>, c: CircleId, key: K) {
    exists i :: Own(me, pending, i) && pending[i].circle == c && pending[i].box.key == key
  }

  /**
    Nobody else acting, a pass leaves in every ring exactly what was there, first and in its order, and the
    keys of the letters it opened, consumed or not.
  */
  lemma {:induction false} AlonePassSaves<K>(rings: map<CircleId, seq<K>>, rows: Table<K>, me: DeviceId, pending: seq<Letter<K>>,
                                             gaps: seq<Gap<K>>, reachable: nat -> bool, c: CircleId)
    requires |gaps| == |pending| && Alone(rings, rows, me, pending, gaps, reachable)
    ensures var ring := RingOf(SaveLetters(rings, me, pending, gaps), c);
      && IsPrefix(RingOf(rings, c), ring)
      && forall k :: k in ring <==> k in RingOf(rings, c) || Opened(me, pending, c, k)
  {
    if pending != [] {
      var n := |pending| - 1;
      AlonePrefix(rings, rows, me, pending, gaps, reachable, n);
      AlonePassSaves(rings, rows, me, pending[..n], gaps[..n], reachable, c);
      forall k ensures Opened(me, pending, c, k)
                  <==> Opened(me, pending[..n], c, k) || (Own(me, pending, n) && pending[n].circle == c && pending[n].box.key == k)
      {
        OneMoreOpened(me, pending, c, k);
      }
      AppendKeeps(RingOf(SaveLetters(rings, me, pending[..n], gaps[..n]), c), pending[n].box.key);
    }
  }

  lemma OneMoreOpened<K>(me: DeviceId, pending: seq<Letter<K>>, c: CircleId, key: K)
    requires pending != []
    ensures var n := |pending| - 1;
      Opened(me, pending, c, key)
      <==> Opened(me, pending[..n], c, key) || (Own(me, pending, n) && pending[n].circle == c && pending[n].box.key == key)
  {
    var n := |pending| - 1;
    if Opened(me, pending, c, key) {
      var i :| Own(me, pending, i) && pending[i].circle == c && pending[i].box.key == key;
      assert i < n ==> Own(me, pending[..n], i) && pending[..n][i] == pending[i];
    }
    if Opened(me, pending[..n], c, key) {
      var i :| Own(me, pending[..n], i) && pending[..n][i].circle == c && pending[..n][i].box.key == key;
      assert Own(me, pending, i) && pending[..n][i] == pending[i];
    }
  }

  // ---------------------------------------------------------------- the list a pass begins with

  /** An initial part of the pending rows, oldest first. */
  ghost predicate OldestPending<K>(rows: Table<K>, d: DeviceId, list: seq<Slot>) {
    && (forall i | 0 <= i < |list| :: IsPending(rows, list[i], d))
    && (forall i, j | 0 <= i < j < |list| :: list[i] != list[j] && rows[list[i]].created <= rows[list[j]].created)
    && (forall at <- rows, i | IsPending(rows, at, d) && at !in list && 0 <= i < |list| :: rows[list[i]].created <= rows[at].created)
  }

  lemma {:induction false} OldestOf<K>(rows: Table<K>, slots: set<Slot>) returns (oldest: Slot)
    requires slots != {} && slots <= rows.Keys
    ensures oldest in slots && forall at <- slots :: rows[oldest].created <= rows[at].created
    decreases |slots|
  {
    var first :| first in slots;
    oldest := first;
    if slots - {first} != {} {
      var next := OldestOf(rows, slots - {first});
      if rows[next].created < rows[first].created { oldest := next; }
    }
    forall at | at in slots ensures rows[oldest].created <= rows[at].created { assert at == first || at in slots - {first}; }
  }

  lemma {:induction false} ListUpTo<K>(rows: Table<K>, d: DeviceId, n: nat) returns (list: seq<Slot>)
    ensures OldestPending(rows, d, list) && |list| <= n
    ensures |list| < n ==> forall at | IsPending(rows, at, d) :: at in list
  {
    if n == 0 { return []; }
    list := ListUpTo(rows, d, n - 1);
    var left := set at | at in rows && IsPending(rows, at, d) && at !in list;
    if |list| == n - 1 && left != {} {
      var next := OldestOf(rows, left);
      list := list + [next];
    } else if |list| == n - 1 {
      assert forall at | IsPending(rows, at, d) && at !in list :: at in left;
    }
  }

  /** The pending query has an answer for every table: oldest first, at most 500, and all of them if there are fewer. */
  lemma PendingListExists<K>(rows: Table<K>, d: DeviceId) returns (list: seq<Slot>)
    ensures IsPendingList(rows, d, list)
  {
    list := ListUpTo(rows, d, 500);
  }

  lemma PendingListIs<K>(rows: Table<K>, d: DeviceId, list: seq<Slot>, at: Slot)
    requires IsPendingList(rows, d, list)
    ensures |list| <= 500 && (at in list ==> at in rows && at.1 == d && !rows[at].consumed)
    ensures |list| < 500 ==> (at in rows && at.1 == d && !rows[at].consumed ==> at in list)
    ensures at in rows && at.1 == d && !rows[at].consumed && at !in list ==>
      forall i | 0 <= i < |list| :: list[i] in rows && rows[list[i]].created <= rows[at].created
  {
  }
}
