/** Who listens to a circle, for how long, and what a client that leaves is told. */
module HubListeners {
  import opened Prelude
  import opened HubSpec
  import opened HubRuns

  /** The frames waiting on a client's channel fill its buffer. */
  ghost predicate Crammed<C>(s: State<C>, c: C)
    requires c in s.conns
  {
    |s.conns[c].log| - s.conns[c].taken >= s.conns[c].cap
  }

  /** A new client listens to exactly the circles it subscribes to, with an empty channel of 64 frames unless it asks for more or less. */
  lemma NewClientListens<C>(s: State<C>, c: C, user: UserId, subs: set<CircleId>, buffer: int, x: CircleId)
    requires Inv(s) && s.running && c !in s.conns
    ensures var t := Next(s, RegisterStep(c, user, subs, buffer));
      && (Listening(t, c, x) <==> x in subs)
      && c in t.conns && t.conns[c].log == [] && t.conns[c].taken == 0 && t.conns[c].open
      && t.conns[c].user == user && t.conns[c].cap == if buffer <= 0 then 64 else buffer
  {
  }

  /** The step makes the client stop listening to x. */
  ghost predicate Stops<C>(s: State<C>, step: Step<C>, c: C, x: CircleId)
    requires c in s.conns
  {
    match step
    case UnregisterStep(d) => d == c
    case DispatchStep(ev) => ev.encodable && ev.circle in s.conns[c].subs && Crammed(s, c)
    case EvictStep(y, user, allUsers) => y == x && (allUsers || user == s.conns[c].user)
    case ShutdownStep => true
    case _ => false
  }

  /**
    A listener keeps listening through a step unless it unregisters, a dispatch to one of its circles finds
    its buffer full, it is evicted from this very circle, or the hub shuts down.
  */
  lemma ListensUntil<C>(s: State<C>, step: Step<C>, c: C, x: CircleId)
    requires Inv(s) && Listening(s, c, x)
    ensures Listening(Next(s, step), c, x) <==> !Stops(s, step, c, x)
  {
    assert s.running;
    match step
    case DispatchStep(ev) => if ev.encodable { DispatchDropsExactlyFull(s, ev, c); }
    case EvictStep(y, user, allUsers) => EvictionIsExact(s, y, user, allUsers, c, x);
    case _ =>
  }

  /** A client is registered until it unregisters, a dispatch to it finds its buffer full, or the hub shuts down. */
  lemma StaysRegistered<C>(s: State<C>, step: Step<C>, c: C)
    requires Inv(s) && c in s.registered
    ensures c in Next(s, step).registered
       <==> !(step == UnregisterStep(c) || step == ShutdownStep
              || (step.DispatchStep? && step.ev.encodable && step.ev.circle in s.conns[c].subs && Crammed(s, c)))
  {
    match step
    case DispatchStep(ev) => if ev.encodable { DispatchDropsExactlyFull(s, ev, c); }
    case EvictStep(y, user, allUsers) => EvictionIsExact(s, y, user, allUsers, c, y);
    case _ =>
  }

  /** What a step adds to a client's channel. */
  ghost function Added<C>(s: State<C>, step: Step<C>, c: C): seq<Frame>
    requires c in s.conns
  {
    if c !in s.registered || Crammed(s, c) then [] else
    match step
    case DispatchStep(ev) => if ev.encodable && ev.circle in s.conns[c].subs then [EventFrame(ev)] else []
    case EvictStep(x, user, allUsers) =>
      if x in s.conns[c].subs && (allUsers || user == s.conns[c].user) then [Unsubscribed(x)] else []
    case _ => []
  }

  /**
    Every frame on every channel: a dispatch puts its event on the channels of the circle's subscribers, an
    eviction tells exactly the evicted clients which circle they lost, each unless the buffer is full, and
    nothing else is ever put on a channel.
  */
  lemma FramesAreExact<C>(s: State<C>, step: Step<C>, c: C)
    requires Inv(s) && s.running && c in s.conns
    ensures c in Next(s, step).conns && Next(s, step).conns[c].log == s.conns[c].log + Added(s, step, c)
  {
    match step
    case DispatchStep(ev) =>
      if c in s.registered && ev.encodable { DispatchDropsExactlyFull(s, ev, c); }
      else { assert c !in s.registered ==> c !in Members(s.circles, ev.circle); }
    case EvictStep(x, user, allUsers) =>
      assert c in Members(s.circles, x) <==> c in s.registered && x in s.conns[c].subs;
    case RegisterStep(d, _, _, _) =>
    case _ =>
  }

  /** A receive takes the oldest frame that is still on the channel. */
  lemma ReceivesInOrder<C>(s: State<C>, c: C, d: C)
    requires Inv(s) && c in s.conns && d in s.conns && s.conns[c].taken < |s.conns[c].log|
    ensures var t := Next(s, TakeStep(c));
      d in t.conns && t.conns[d] == if d == c then s.conns[c].(taken := s.conns[c].taken + 1) else s.conns[d]
  {
  }

  // ---------------------------------------------------------------- after a shutdown

  lemma StaysDown<C>(s: State<C>, step: Step<C>)
    requires Inv(s) && !s.running
    ensures var t := Next(s, step);
      !t.running && t.registered == {} && t.conns.Keys == s.conns.Keys && forall c <- s.conns :: t.conns[c].log == s.conns[c].log
  {
  }

  /** Once the loop has been cancelled nobody is registered any more, then or later, and no channel gets another frame. */
  lemma {:induction false} SilentAfterShutdown<C>(run: seq<Step<C>>, more: seq<Step<C>>)
    ensures var s, t := Exec(run), Exec(run + [ShutdownStep] + more);
      !t.running && t.registered == {} && t.conns.Keys == s.conns.Keys && forall c <- s.conns :: t.conns[c].log == s.conns[c].log
  {
    var down := run + [ShutdownStep];
    if more == [] {
      assert down[..|run|] == run && down + more == down;
    } else {
      var m := more[..|more| - 1];
      SilentAfterShutdown(run, m);
      assert (down + more)[..|down + more| - 1] == down + m;
      StaysDown(Exec(down + m), Last(more));
    }
  }
}
