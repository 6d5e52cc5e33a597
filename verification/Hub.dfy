/** The hub's mutable objects; every method is proved to make one step of HubSpec. */
module HubImpl {
  import opened Prelude
  import opened HubSpec

  class Client {
    const user: UserId
    const buffer: nat
    var circles: set<CircleId>
    var queue: seq<Frame>      // what the buffered send channel holds
    var closed: bool
    ghost var log: seq<Frame>  // everything ever sent on the channel

    ghost predicate Valid()
      reads this
    {
      buffer > 0 && |queue| <= buffer && |queue| <= |log| && queue == log[|log| - |queue|..]
    }

    ghost function View(): Conn
      requires Valid()
      reads this
    {
      Conn(user, circles, buffer, log, |log| - |queue|, !closed)
    }

    constructor (user: UserId, circles: set<CircleId>, buffer: int)
      ensures Valid()
      ensures View() == Conn(user, circles, if buffer <= 0 then DEFAULT_BUFFER else buffer, [], 0, true)
    {
      this.user := user;
      this.circles := circles;
      this.buffer := if buffer <= 0 then DEFAULT_BUFFER else buffer;
      this.queue := [];
      this.closed := false;
      this.log := [];
    }

    /** `select { case c.send <- f: default: }`; Go panics when the channel is closed. */
    method TrySend(f: Frame) returns (sent: bool)
      requires Valid() && !closed
      modifies this`queue, this`log
      ensures Valid() && View() == old(View()).Offer(f)
      ensures sent <==> !old(View()).Full()
    {
      sent := |queue| < buffer;
      if sent {
        queue := queue + [f];
        log := log + [f];
      }
    }

    /** `close(c.send)`; Go panics when the channel is closed already. */
    method Close()
      requires Valid() && !closed
      modifies this`closed
      ensures Valid() && View() == old(View()).(open := false)
    {
      closed := true;
    }

    /** `<-c.Send()` by the transport writer: frames come out in the order they went in. */
    method Receive() returns (f: Frame)
      requires Valid() && queue != []
      modifies this`queue
      ensures Valid() && f == old(log[View().taken])
      ensures View() == old(View().(taken := View().taken + 1))
    {
      f := queue[0];
      queue := queue[1..];
    }
  }

  class Hub {
    var clients: set<Client>
    var circles: map<CircleId, set<Client>>
    ghost var view: State<Client>  // the hub as a value, with every client ever registered

    ghost predicate Valid()
      reads this, view.conns.Keys
    {
      && Inv(view)
      && clients == view.registered && circles == view.circles
      && forall c <- view.conns :: c.Valid() && c.View() == view.conns[c]
    }

    constructor ()
      ensures Valid() && view == Init()
    {
      clients := {};
      circles := map[];
      view := Init();
    }

    method AddClient(c: Client)
      requires Valid() && view.running && c !in view.conns
      requires c.Valid() && c.log == [] && !c.closed
      modifies this
      ensures Valid()
      ensures view == Register(old(view), c, c.user, c.circles, c.buffer)
    {
      clients := clients + {c};
      AddToIndex(c);
      RegisterInv(view, c, c.user, c.circles, c.buffer);
      view := Register(view, c, c.user, c.circles, c.buffer);
    }

    method AddToIndex(c: Client)
      modifies this`circles
      ensures circles == Joined(old(circles), c.circles, c)
    {
      var todo := c.circles;
      ghost var done: set<CircleId> := {};
      while todo != {}
        invariant done + todo == c.circles
        invariant circles == Joined(old(circles), done, c)
      {
        var x :| x in todo;
        if x !in circles {
          circles := circles[x := {}];
        }
        circles := circles[x := circles[x] + {c}];
        todo := todo - {x};
        done := done + {x};
      }
      assert done == c.circles;
    }

    method RemoveClient(c: Client)
      requires Valid()
      modifies this, c
      ensures Valid()
      ensures view == Remove(old(view), c)
    {
      if c !in clients {
        return;
      }
      clients := clients - {c};
      assert forall x <- circles :: c in Members(circles, x) ==> x in view.conns[c].subs;
      DropFromIndex(c);
      c.Close();
      RemoveAllInv(view, {c});
      view := RemoveAll(view, {c});
    }

    method DropFromIndex(c: Client)
      requires forall x <- circles :: circles[x] != {} && (c in circles[x] ==> x in c.circles)
      modifies this`circles
      ensures circles == Minus(old(circles), old(circles).Keys, {c})
    {
      var todo := c.circles;
      ghost var done: set<CircleId> := {};
      while todo != {}
        invariant done + todo == c.circles && done !! todo
        invariant circles == Minus(old(circles), done, {c})
      {
        var x :| x in todo;
        if x in circles {
          if circles[x] - {c} == {} {
            circles := circles - {x};
          } else {
            circles := circles[x := circles[x] - {c}];
          }
        }
        todo := todo - {x};
        done := done + {x};
      }
      assert done == c.circles;
      assert forall x <- old(circles) :: x !in done ==> old(circles)[x] - {c} == old(circles)[x];
    }

    /** The body of the fan-out loop for one client. */
    method SendOrDrop(c: Client, f: Frame)
      requires Valid() && c in clients
      modifies this, c
      ensures Valid()
      ensures view == SentOrDropped(old(view), c, f)
    {
      assert view.conns[c].open;
      var sent := c.TrySend(f);
      if sent {
        OfferedInv(view, f, {c});
        view := view.(conns := Offered(view.conns, f, {c}));
      } else {
        RemoveClient(c);
      }
    }

    method Dispatch(ev: Event)
      requires Valid()
      modifies this, clients
      ensures Valid()
      ensures view == HubSpec.Dispatch(old(view), ev)
    {
      OfferToNobody(view, EventFrame(ev));
      if ev.circle !in circles || !ev.encodable {
        return;
      }
      MembersRegistered(view, ev.circle);
      FanOut(EventFrame(ev), circles[ev.circle]);
    }

    /** The set iterated over loses the client that is dropped, never one still to come. */
    method FanOut(f: Frame, targets: set<Client>)
      requires Valid() && targets <= clients
      modifies this, targets
      ensures Valid()
      ensures view == Offering(old(view), f, targets)
    {
      ghost var s := view;
      var todo := targets;
      OfferToNobody(s, f);
      assert targets - todo == {};
      while todo != {}
        invariant todo <= targets && Valid()
        invariant view == Offering(s, f, targets - todo)
      {
        var c :| c in todo;
        OfferNext(c, f, s, targets, todo);
        todo := todo - {c};
      }
      assert targets - todo == targets;
    }

    method OfferNext(c: Client, f: Frame, ghost s: State<Client>, ghost targets: set<Client>, ghost todo: set<Client>)
      requires Inv(s) && c in todo && todo <= targets <= s.registered
      requires Valid() && view == Offering(s, f, targets - todo)
      modifies this, c
      ensures Valid() && view == Offering(s, f, targets - (todo - {c}))
    {
      assert targets - (todo - {c}) == (targets - todo) + {c};
      OfferOneMore(s, f, targets - todo, c);
      SendOrDrop(c, f);
    }

    method DoEvict(x: CircleId, user: UserId, allUsers: bool)
      requires Valid()
      modifies this, clients
      ensures Valid()
      ensures view == HubSpec.Evict(old(view), x, user, allUsers)
    {
      MembersRegistered(view, x);
      ghost var all := HubSpec.Evicted(view, x, user, allUsers);
      EvictNobody(view, x);
      if x !in circles {
        assert all == {};
        return;
      }
      assert forall c <- circles[x] :: view.conns[c].open;
      EvictLoop(x, user, allUsers, all);
      CommitEviction(x, all);
    }

    method CommitEviction(x: CircleId, ghost all: set<Client>)
      requires Inv(view) && x in view.circles && all <= view.circles[x]
      requires clients == view.registered && circles == view.circles[x := view.circles[x] - all]
      requires forall c <- view.conns :: c.Valid() && c.View() == if c in all then view.conns[c].Evicted(x) else view.conns[c]
      modifies this
      ensures Valid()
      ensures view == EvictFrom(old(view), x, all)
    {
      if circles[x] == {} {
        circles := circles - {x};
      }
      assert circles == Minus(view.circles, {x}, all);
      EvictInv(view, x, all);
      view := EvictFrom(view, x, all);
    }

    /** The loop of doEvict; an emptied inner set stays in the index until the loop is over. */
    method EvictLoop(x: CircleId, user: UserId, allUsers: bool, ghost all: set<Client>)
      requires x in circles && circles[x] <= view.conns.Keys
      requires all == set c | c in circles[x] && (allUsers || c.user == user)
      requires forall c <- view.conns :: c.Valid() && c.View() == view.conns[c]
      requires forall c <- circles[x] :: view.conns[c].open
      modifies this`circles, circles[x]
      ensures circles == old(circles)[x := old(circles)[x] - all]
      ensures forall c <- view.conns :: c.Valid() && c.View() == if c in all then view.conns[c].Evicted(x) else view.conns[c]
    {
      var todo := circles[x];
      ghost var done: set<Client> := {};
      assert circles[x] - done == circles[x];
      while todo != {}
        invariant todo <= old(circles)[x] && done == all - todo
        invariant circles == old(circles)[x := old(circles)[x] - done]
        invariant forall c <- view.conns :: c.Valid() && c.View() == if c in done then view.conns[c].Evicted(x) else view.conns[c]
      {
        var c :| c in todo;
        todo := todo - {c};
        if allUsers || c.user == user {
          circles := circles[x := circles[x] - {c}];
          EvictClient(c, x);
          done := done + {c};
          assert old(circles)[x] - done == circles[x];
        }
      }
      assert done == all;
    }

    method EvictClient(c: Client, x: CircleId)
      requires c.Valid() && !c.closed
      modifies c
      ensures c.Valid() && c.View() == old(c.View()).Evicted(x)
    {
      c.circles := c.circles - {x};
      var _ := c.TrySend(Unsubscribed(x));
    }

    /** The branch of Run taken when its context is cancelled. */
    method Shutdown()
      requires Valid()
      modifies this, clients
      ensures Valid()
      ensures view == HubSpec.Shutdown(old(view))
    {
      ShutdownInv(view);
      CloseAll();
      clients := {};
      circles := map[];
      view := HubSpec.Shutdown(view);
    }

    method CloseAll()
      requires forall c <- view.conns :: c.Valid() && c.View() == view.conns[c]
      requires forall c <- clients :: c in view.conns && !c.closed
      modifies clients
      ensures forall c <- view.conns :: c.Valid() && c.View() == if c in clients then view.conns[c].(open := false) else view.conns[c]
    {
      var todo := clients;
      while todo != {}
        invariant todo <= clients
        invariant forall c <- view.conns ::
          c.Valid() && c.View() == if c in clients - todo then view.conns[c].(open := false) else view.conns[c]
      {
        var c :| c in todo;
        c.Close();
        todo := todo - {c};
      }
    }
  }

  // ---------------------------------------------------------------- the loops, one element at a time

  lemma RemoveNobody<C>(s: State<C>)
    requires Inv(s)
    ensures RemoveAll(s, {}) == s
  {
    assert forall x <- s.circles :: s.circles[x] - {} == s.circles[x];
    assert RemoveAll(s, {}).conns == s.conns;
  }

  lemma OfferToNobody<C>(s: State<C>, f: Frame)
    requires Inv(s)
    ensures Offering(s, f, {}) == s
  {
    assert Offered(s.conns, f, {}) == s.conns;
    assert FullOf(s, {}) == {};
    RemoveNobody(s);
  }

  lemma EvictNobody<C>(s: State<C>, x: CircleId)
    requires Inv(s)
    ensures EvictFrom(s, x, {}) == s
  {
    assert forall y <- s.circles :: s.circles[y] - {} == s.circles[y];
    assert EvictFrom(s, x, {}).conns == s.conns;
  }

  ghost function SentOrDropped<C>(s: State<C>, c: C, f: Frame): State<C>
    requires Inv(s) && c in s.registered
  {
    if s.conns[c].Full() then Remove(s, c) else s.(conns := Offered(s.conns, f, {c}))
  }

  lemma OfferOneMore<C>(s: State<C>, f: Frame, done: set<C>, c: C)
    requires Inv(s) && done <= s.registered && c in s.registered - done
    requires Inv(Offering(s, f, done))
    ensures c in Offering(s, f, done).registered
    ensures Offering(s, f, done + {c}) == SentOrDropped(Offering(s, f, done), c, f)
  {
    var full := FullOf(s, done);
    var mid := s.(conns := Offered(s.conns, f, done));
    var mid' := s.(conns := Offered(s.conns, f, done + {c}));
    if s.conns[c].Full() {
      assert FullOf(s, done + {c}) == full + {c};
      assert mid' == mid;
      RemoveOneMore(mid, full, c);
    } else {
      assert FullOf(s, done + {c}) == full;
      SendAfterRemoval(mid, full, c, f);
      assert mid'.conns == Offered(mid.conns, f, {c});
    }
  }

  lemma SendAfterRemoval<C>(s: State<C>, gone: set<C>, c: C, f: Frame)
    requires gone <= s.conns.Keys && c in s.conns && c !in gone
    ensures var now := RemoveAll(s, gone);
      RemoveAll(s.(conns := Offered(s.conns, f, {c})), gone) == now.(conns := Offered(now.conns, f, {c}))
  {
    var now := RemoveAll(s, gone);
    assert RemoveAll(s.(conns := Offered(s.conns, f, {c})), gone).conns == Offered(now.conns, f, {c});
  }

  lemma RemoveOneMore<C>(s: State<C>, gone: set<C>, c: C)
    requires gone <= s.conns.Keys && c in s.registered - gone && s.registered <= s.conns.Keys
    ensures RemoveAll(s, gone + {c}) == Remove(RemoveAll(s, gone), c)
  {
    var now := RemoveAll(s, gone);
    assert forall x <- s.circles :: s.circles[x] - (gone + {c}) == (s.circles[x] - gone) - {c};
    assert s.registered - (gone + {c}) == now.registered - {c};
    assert RemoveAll(s, gone + {c}).conns == Remove(now, c).conns;
    assert RemoveAll(s, gone + {c}).circles == Remove(now, c).circles;
  }
}
