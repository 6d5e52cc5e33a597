/** Whole runs of the hub loop: what reaches a client's channel, and in which order. */
module HubRuns {
  import opened Prelude
  import opened HubSpec

  /** One turn of the Run loop's select, or one receive by a client's transport goroutine. */
  datatype Step<C> =
    | RegisterStep(c: C, user: UserId, subs: set<CircleId>, buffer: int)
    | UnregisterStep(c: C)
    | DispatchStep(ev: Event)
    | EvictStep(circle: CircleId, user: UserId, allUsers: bool)
    | TakeStep(c: C)
    | ShutdownStep

  /** The step happens: the loop still runs, a registered client is new, a receive finds a frame. */
  ghost predicate Enabled<C>(s: State<C>, step: Step<C>) {
    match step
    case RegisterStep(c, _, _, _) => s.running && c !in s.conns
    case TakeStep(c) => c in s.conns && s.conns[c].Pending() > 0
    case _ => s.running
  }

  ghost function Next<C>(s: State<C>, step: Step<C>): (t: State<C>)
    requires Inv(s)
    ensures Inv(t)
  {
    if !Enabled(s, step) then s else
    match step
    case RegisterStep(c, user, subs, buffer) => RegisterInv(s, c, user, subs, buffer); Register(s, c, user, subs, buffer)
    case UnregisterStep(c) => if c in s.registered then RemoveAllInv(s, {c}); Remove(s, c) else s
    case DispatchStep(ev) => MembersRegistered(s, ev.circle); OfferingInv(s, EventFrame(ev), Members(s.circles, ev.circle)); Dispatch(s, ev)
    case EvictStep(x, user, all) => MembersRegistered(s, x); EvictInv(s, x, Evicted(s, x, user, all)); Evict(s, x, user, all)
    case TakeStep(c) => TakeInv(s, c); Take(s, c)
    case ShutdownStep => Shutdown(s)
  }

  /** The state after a run of steps from an empty hub. */
  ghost function Exec<C>(run: seq<Step<C>>): (s: State<C>)
    ensures Inv(s)
  {
    if run == [] then Init() else Next(Exec(run[..|run| - 1]), Last(run))
  }

  /** The part of the run after `c` was registered. */
  ghost function Since<C>(run: seq<Step<C>>, c: C): seq<Step<C>> {
    if run == [] then [] else
    var before := run[..|run| - 1];
    if c !in Exec(before).conns then [] else Since(before, c) + [Last(run)]
  }

  /** The events of circle `x` that the loop dispatched in these steps, in order. */
  ghost function Dispatched<C>(steps: seq<Step<C>>, x: CircleId): seq<Event> {
    if steps == [] then [] else
    Dispatched(steps[..|steps| - 1], x) + EventOf(Last(steps), x)
  }

  ghost function EventOf<C>(step: Step<C>, x: CircleId): seq<Event> {
    if step.DispatchStep? && step.ev.circle == x && step.ev.encodable then [step.ev] else []
  }

  /** The event frames of circle `x` in a channel's log. */
  ghost function Events(log: seq<Frame>, x: CircleId): seq<Event> {
    if log == [] then [] else
    Events(log[..|log| - 1], x) + FrameEvent(Last(log), x)
  }

  ghost function FrameEvent(f: Frame, x: CircleId): seq<Event> {
    if f.EventFrame? && f.event.circle == x then [f.event] else []
  }

  lemma EventsSnoc(log: seq<Frame>, f: Frame, x: CircleId)
    ensures Events(log + [f], x) == Events(log, x) + FrameEvent(f, x)
  {
    assert (log + [f])[..|log|] == log;
  }

  lemma DispatchedSnoc<C>(steps: seq<Step<C>>, step: Step<C>, x: CircleId)
    ensures Dispatched(steps + [step], x) == Dispatched(steps, x) + EventOf(step, x)
  {
    assert (steps + [step])[..|steps|] == steps;
  }

  ghost predicate Listening<C>(s: State<C>, c: C, x: CircleId) {
    c in s.registered && c in s.conns && x in s.conns[c].subs
  }

  /** Between s and t the client was told at most `event` about `x`, and exactly that if it listens throughout. */
  ghost predicate Told<C>(s: State<C>, t: State<C>, c: C, x: CircleId, event: seq<Event>)
    requires c in s.conns
  {
    && c in t.conns
    && (Listening(t, c, x) ==> Listening(s, c, x))
    && (Listening(t, c, x) ==> Events(t.conns[c].log, x) == Events(s.conns[c].log, x) + event)
    && (Events(t.conns[c].log, x) == Events(s.conns[c].log, x) ||
        Events(t.conns[c].log, x) == Events(s.conns[c].log, x) + event)
    && (!Listening(s, c, x) ==> Events(t.conns[c].log, x) == Events(s.conns[c].log, x))
  }

  lemma NothingTold<C>(s: State<C>, t: State<C>, c: C, x: CircleId)
    requires c in s.conns && c in t.conns && t.conns[c].log == s.conns[c].log
    requires Listening(t, c, x) ==> Listening(s, c, x)
    ensures Told(s, t, c, x, [])
  {
  }

  lemma DispatchTells<C>(s: State<C>, ev: Event, c: C, x: CircleId)
    requires Inv(s) && s.running && c in s.conns
    ensures Told(s, Next(s, DispatchStep(ev)), c, x, EventOf<C>(DispatchStep(ev), x))
  {
    var t := Next(s, DispatchStep(ev));
    assert c in s.registered ==> (ev.circle in s.conns[c].subs <==> c in Members(s.circles, ev.circle));
    EventsSnoc(s.conns[c].log, EventFrame(ev), x);
  }

  lemma EvictTells<C>(s: State<C>, y: CircleId, user: UserId, allUsers: bool, c: C, x: CircleId)
    requires Inv(s) && s.running && c in s.conns
    ensures Told(s, Next(s, EvictStep(y, user, allUsers)), c, x, [])
  {
    EventsSnoc(s.conns[c].log, Unsubscribed(y), x);
  }

  /**
    What one step does to one client that is already known: a client that listens to `x` before and
    after the step gets exactly the event dispatched; one that does not listen gets nothing; nobody
    starts to listen later.
  */
  lemma StepOnClient<C>(s: State<C>, step: Step<C>, c: C, x: CircleId)
    requires Inv(s) && c in s.conns
    ensures Told(s, Next(s, step), c, x, EventOf(step, x))
  {
    if !Enabled(s, step) {
      assert Next(s, step) == s;
      assert !s.running ==> !Listening(s, c, x);
    } else {
      match step
      case DispatchStep(ev) => DispatchTells(s, ev, c, x);
      case EvictStep(y, user, all) => EvictTells(s, y, user, all, c, x);
      case _ => NothingTold(s, Next(s, step), c, x);
    }
  }

  lemma NewClient<C>(s: State<C>, step: Step<C>, c: C)
    requires Inv(s) && c !in s.conns && c in Next(s, step).conns
    ensures Next(s, step).conns[c].log == []
  {
  }

  lemma StepOnClosed<C>(s: State<C>, step: Step<C>, c: C)
    requires Inv(s) && c in s.conns && !s.conns[c].open
    ensures var t := Next(s, step);
      c in t.conns && !t.conns[c].open && t.conns[c].log == s.conns[c].log
  {
    assert forall x :: c !in Members(s.circles, x);
  }

  /** Every client known to the hub once is known for the rest of the run. */
  lemma {:induction false} KnownStays<C>(run: seq<Step<C>>, more: seq<Step<C>>)
    ensures Exec(run).conns.Keys <= Exec(run + more).conns.Keys
  {
    if more == [] {
      assert run + more == run;
    } else {
      var m := more[..|more| - 1];
      KnownStays(run, m);
      assert (run + more)[..|run + more| - 1] == run + m;
      forall c <- Exec(run).conns ensures c in Exec(run + more).conns {
        StepOnClient(Exec(run + m), Last(more), c, 0);
      }
    }
  }

  /**
    Gap-free ordered delivery. For a client that is still registered and still subscribed to `x`, the
    event frames of `x` put on its channel are exactly the events of `x` dispatched since it
    registered, in dispatch order. For any client whatsoever they are an initial part of that.
  */
  lemma {:induction false} GapFreeDelivery<C>(run: seq<Step<C>>, c: C, x: CircleId)
    requires c in Exec(run).conns
    ensures Listening(Exec(run), c, x) ==>
              Events(Exec(run).conns[c].log, x) == Dispatched(Since(run, c), x)
    ensures IsPrefix(Events(Exec(run).conns[c].log, x), Dispatched(Since(run, c), x))
  {
    var before, step := run[..|run| - 1], Last(run);
    var s := Exec(before);
    if c in s.conns {
      GapFreeDelivery(before, c, x);
      StepOnClient(s, step, c, x);
      DispatchedSnoc(Since(before, c), step, x);
    } else {
      NewClient(s, step, c);
    }
  }

  /** One step is silent for a client that does not listen, and does not make it listen. */
  lemma SilentStep<C>(s: State<C>, step: Step<C>, c: C, x: CircleId)
    requires Inv(s) && c in s.conns && !Listening(s, c, x)
    ensures c in Next(s, step).conns && !Listening(Next(s, step), c, x)
    ensures Events(Next(s, step).conns[c].log, x) == Events(s.conns[c].log, x)
  {
    StepOnClient(s, step, c, x);
  }

  /**
    After a client was evicted from `x`, unsubscribed or removed, no frame of an event of `x` is ever
    put on its channel again, whatever the rest of the run does.
  */
  lemma {:induction false} SilentAfterLeaving<C>(run: seq<Step<C>>, more: seq<Step<C>>, c: C, x: CircleId)
    requires c in Exec(run).conns && !Listening(Exec(run), c, x)
    ensures c in Exec(run + more).conns && !Listening(Exec(run + more), c, x)
    ensures Events(Exec(run + more).conns[c].log, x) == Events(Exec(run).conns[c].log, x)
  {
    if more == [] {
      assert run + more == run;
    } else {
      var m := more[..|more| - 1];
      SilentAfterLeaving(run, m, c, x);
      var s := Exec(run + m);
      assert Exec(run + more) == Next(s, Last(more)) by {
        assert (run + more)[..|run + more| - 1] == run + m;
      }
      SilentStep(s, Last(more), c, x);
    }
  }

  /** An eviction takes the circle away from exactly the matching clients and from no one else. */
  lemma EvictionIsExact<C>(s: State<C>, x: CircleId, user: UserId, allUsers: bool, c: C, y: CircleId)
    requires Inv(s) && s.running && c in s.registered
    ensures Listening(Next(s, EvictStep(x, user, allUsers)), c, y) <==>
              y in s.conns[c].subs && !(y == x && (allUsers || s.conns[c].user == user))
    ensures c in Next(s, EvictStep(x, user, allUsers)).registered
  {
    assert x in s.conns[c].subs <==> c in Members(s.circles, x);
  }

  /**
    A dispatch removes exactly the subscribers whose buffer is full; a removed subscriber's channel is
    closed and gets no frame, every other subscriber gets the frame, and all other clients are untouched.
  */
  lemma DispatchDropsExactlyFull<C>(s: State<C>, ev: Event, c: C)
    requires Inv(s) && s.running && ev.encodable && c in s.registered
    ensures var t := Next(s, DispatchStep(ev));
      && (c in t.registered <==> !(ev.circle in s.conns[c].subs && s.conns[c].Full()))
      && t.conns[c] == if ev.circle !in s.conns[c].subs then s.conns[c]
                       else if s.conns[c].Full() then s.conns[c].(open := false)
                       else s.conns[c].(log := s.conns[c].log + [EventFrame(ev)])
  {
    assert ev.circle in s.conns[c].subs <==> c in Members(s.circles, ev.circle);
  }

  /**
    Channel safety over whole runs: a closed channel is never opened again, never gets another frame,
    and its client never comes back into either index.
  */
  lemma {:induction false} ClosedForGood<C>(run: seq<Step<C>>, more: seq<Step<C>>, c: C)
    requires c in Exec(run).conns && !Exec(run).conns[c].open
    ensures var t := Exec(run + more);
      && c in t.conns && !t.conns[c].open && c !in t.registered
      && t.conns[c].log == Exec(run).conns[c].log
      && (forall x <- t.circles :: c !in t.circles[x])
  {
    if more == [] {
      assert run + more == run;
    } else {
      var m := more[..|more| - 1];
      ClosedForGood(run, m, c);
      assert (run + more)[..|run + more| - 1] == run + m;
      assert Exec(run + more) == Next(Exec(run + m), Last(more));
      StepOnClosed(Exec(run + m), Last(more), c);
    }
  }

  /** The representation in every reachable state, in the source's terms. */
  lemma Reachable<C>(run: seq<Step<C>>, c: C, x: CircleId)
    ensures var s := Exec(run);
      && (c in Members(s.circles, x) <==> Listening(s, c, x))
      && (x in s.circles ==> s.circles[x] != {})
      && (c in s.conns ==> (s.conns[c].open <==> c in s.registered) && 0 <= s.conns[c].Pending() <= s.conns[c].cap)
  {
    var s := Exec(run);
    if c in Members(s.circles, x) { assert c in s.registered; }
  }
}
