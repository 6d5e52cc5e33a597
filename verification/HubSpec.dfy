/**
  The realtime hub as a state machine over values (server/internal/realtime/hub.go).

  `C` is the identity of a client connection (a *Client in the source). Every client keeps the
  whole log of frames ever put on its send channel; the channel's present contents are the part of
  the log that the transport goroutine has not taken yet.
*/
module HubSpec {
  import opened Prelude

  type UserId = nat
  type CircleId = nat

  /** `encodable` is false for an event whose payload json.Marshal rejects. */
  datatype Event = Event(kind: nat, circle: CircleId, payload: nat, encodable: bool)

  datatype Frame = EventFrame(event: Event) | Unsubscribed(circle: CircleId)

  datatype Conn = Conn(user: UserId, subs: set<CircleId>, cap: nat, log: seq<Frame>, taken: nat, open: bool)
  {
    function Pending(): int { |log| - taken }

    predicate Full() { Pending() >= cap }

    /** A non-blocking send: the frame is dropped when the buffer is full. */
    function Offer(f: Frame): Conn {
      if Full() then this else this.(log := log + [f])
    }

    /** The subscription is gone; the control frame is dropped when the buffer is full. */
    function Evicted(x: CircleId): Conn {
      this.(subs := subs - {x}).Offer(Unsubscribed(x))
    }
  }

  datatype State<C> = State(
    conns: map<C, Conn>,              // every client ever handed to the hub
    registered: set<C>,               // Hub.clients
    circles: map<CircleId, set<C>>,   // Hub.circles
    running: bool                     // the Run loop has not returned
  )

  const DEFAULT_BUFFER: nat := 64

  ghost function Init<C>(): State<C> { State(map[], {}, map[], true) }

  ghost function Members<C>(circles: map<CircleId, set<C>>, x: CircleId): set<C> {
    if x in circles then circles[x] else {}
  }

  /** The circle index without the clients `gone`, in the circles `on` only; a set this empties is dropped. */
  ghost function Minus<C>(circles: map<CircleId, set<C>>, on: set<CircleId>, gone: set<C>): map<CircleId, set<C>> {
    map x | x in circles && (x in on ==> circles[x] - gone != {}) :: if x in on then circles[x] - gone else circles[x]
  }

  /** The circle index with `c` added to the circles `subs`. */
  ghost function Joined<C>(circles: map<CircleId, set<C>>, subs: set<CircleId>, c: C): map<CircleId, set<C>> {
    map x | x in circles.Keys + subs :: if x in subs then Members(circles, x) + {c} else circles[x]
  }

  // ---------------------------------------------------------------- steps

  ghost function Register<C>(s: State<C>, c: C, user: UserId, subs: set<CircleId>, buffer: int): State<C> {
    var conn := Conn(user, subs, if buffer <= 0 then DEFAULT_BUFFER else buffer, [], 0, true);
    s.(conns := s.conns[c := conn],
       registered := s.registered + {c},
       circles := Joined(s.circles, subs, c))
  }

  ghost function Remove<C>(s: State<C>, c: C): State<C>
    requires s.registered <= s.conns.Keys
  {
    if c !in s.registered then s else RemoveAll(s, {c})
  }

  ghost function RemoveAll<C>(s: State<C>, gone: set<C>): State<C>
    requires gone <= s.conns.Keys
  {
    s.(conns := map c | c in s.conns :: if c in gone then s.conns[c].(open := false) else s.conns[c],
       registered := s.registered - gone,
       circles := Minus(s.circles, s.circles.Keys, gone))
  }

  /** Fan-out of a frame to the clients in `targets`: a client with a full buffer is removed instead. */
  ghost function Offering<C>(s: State<C>, f: Frame, targets: set<C>): State<C>
    requires targets <= s.conns.Keys
  {
    RemoveAll(s.(conns := Offered(s.conns, f, targets)), FullOf(s, targets))
  }

  ghost function FullOf<C>(s: State<C>, targets: set<C>): set<C>
    requires targets <= s.conns.Keys
  {
    set c | c in targets && s.conns[c].Full()
  }

  ghost function Offered<C>(conns: map<C, Conn>, f: Frame, targets: set<C>): map<C, Conn> {
    map c | c in conns :: if c in targets then conns[c].Offer(f) else conns[c]
  }

  ghost function Dispatch<C>(s: State<C>, ev: Event): State<C>
    requires Members(s.circles, ev.circle) <= s.conns.Keys
  {
    if !ev.encodable then s else Offering(s, EventFrame(ev), Members(s.circles, ev.circle))
  }

  ghost function Evicted<C>(s: State<C>, x: CircleId, user: UserId, allUsers: bool): set<C>
    requires Members(s.circles, x) <= s.conns.Keys
  {
    set c | c in Members(s.circles, x) && (allUsers || s.conns[c].user == user)
  }

  ghost function EvictFrom<C>(s: State<C>, x: CircleId, targets: set<C>): State<C> {
    s.(conns := map c | c in s.conns ::
         if c in targets then s.conns[c].Evicted(x) else s.conns[c],
       circles := Minus(s.circles, {x}, targets))
  }

  ghost function Evict<C>(s: State<C>, x: CircleId, user: UserId, allUsers: bool): State<C>
    requires Members(s.circles, x) <= s.conns.Keys
  {
    EvictFrom(s, x, Evicted(s, x, user, allUsers))
  }

  /** The transport goroutine receives the oldest frame of the channel. */
  ghost function Take<C>(s: State<C>, c: C): State<C>
    requires c in s.conns && s.conns[c].Pending() > 0
  {
    s.(conns := s.conns[c := s.conns[c].(taken := s.conns[c].taken + 1)])
  }

  /** The context is cancelled: every channel is closed and both indexes are replaced by empty ones. */
  ghost function Shutdown<C>(s: State<C>): State<C> {
    s.(conns := map c | c in s.conns :: if c in s.registered then s.conns[c].(open := false) else s.conns[c],
       registered := {}, circles := map[], running := false)
  }

  // ---------------------------------------------------------------- representation invariant

  ghost predicate Inv<C>(s: State<C>) {
    && s.registered <= s.conns.Keys
    && (forall x <- s.circles :: s.circles[x] != {})
    && (forall x <- s.circles, c <- s.circles[x] :: c in s.registered)
    && (forall c <- s.registered, x: CircleId :: x in s.conns[c].subs <==> c in Members(s.circles, x))
    && (forall c <- s.conns :: s.conns[c].open <==> c in s.registered)
    && (forall c <- s.conns :: s.conns[c].cap > 0 && 0 <= s.conns[c].Pending() <= s.conns[c].cap)
    && (!s.running ==> s.registered == {})
  }

  lemma MembersRegistered<C>(s: State<C>, x: CircleId)
    requires Inv(s)
    ensures Members(s.circles, x) <= s.registered <= s.conns.Keys
  {
  }

  lemma RegisterInv<C>(s: State<C>, c: C, user: UserId, subs: set<CircleId>, buffer: int)
    requires Inv(s) && c !in s.conns && s.running
    ensures Inv(Register(s, c, user, subs, buffer))
  {
    var t := Register(s, c, user, subs, buffer);
    forall d <- t.registered, x: CircleId
      ensures x in t.conns[d].subs <==> d in Members(t.circles, x)
    {
      if d != c { assert x in s.conns[d].subs <==> d in Members(s.circles, x); }
      else { assert c !in Members(s.circles, x); }
    }
  }

  lemma RemoveAllInv<C>(s: State<C>, gone: set<C>)
    requires Inv(s) && gone <= s.registered
    ensures Inv(RemoveAll(s, gone))
  {
    var t := RemoveAll(s, gone);
    forall d <- t.registered, x: CircleId
      ensures x in t.conns[d].subs <==> d in Members(t.circles, x)
    {
      assert x in s.conns[d].subs <==> d in Members(s.circles, x);
    }
  }

  lemma OfferedInv<C>(s: State<C>, f: Frame, targets: set<C>)
    requires Inv(s)
    ensures Inv(s.(conns := Offered(s.conns, f, targets)))
  {
  }

  lemma OfferingInv<C>(s: State<C>, f: Frame, targets: set<C>)
    requires Inv(s) && targets <= s.registered
    ensures Inv(Offering(s, f, targets))
  {
    OfferedInv(s, f, targets);
    RemoveAllInv(s.(conns := Offered(s.conns, f, targets)), FullOf(s, targets));
  }

  lemma EvictInv<C>(s: State<C>, x: CircleId, targets: set<C>)
    requires Inv(s) && targets <= Members(s.circles, x)
    ensures Inv(EvictFrom(s, x, targets))
  {
    var t := EvictFrom(s, x, targets);
    forall d <- t.registered, y: CircleId
      ensures y in t.conns[d].subs <==> d in Members(t.circles, y)
    {
      assert y in s.conns[d].subs <==> d in Members(s.circles, y);
    }
  }

  lemma ShutdownInv<C>(s: State<C>)
    requires Inv(s)
    ensures Inv(Shutdown(s))
  {
  }

  lemma TakeInv<C>(s: State<C>, c: C)
    requires Inv(s) && c in s.conns && s.conns[c].Pending() > 0
    ensures Inv(Take(s, c))
  {
  }
}
