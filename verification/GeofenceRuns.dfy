/** What a tracker says about one (device, place) pair over any run. */
module GeofenceRuns {
  import opened Prelude
  import opened Geofence

  predicate NulFree(s: string) { NUL !in s }

  /** Device ids are UUIDs: none contains the separator. Place ids may. */
  predicate PlainDevices(actions: seq<Action>) {
    forall a <- actions :: a.Look? ==> NulFree(a.pos.deviceId)
  }

  lemma {:induction false} FirstNul(d: Id, rest: string)
    requires NulFree(d)
    ensures IndexOf(d + [NUL] + rest, NUL) == |d|
  {
    var s := d + [NUL] + rest;
    var i := IndexOf(s, NUL);
    assert s[|d|] == NUL;
    assert forall j | 0 <= j < |d| :: s[j] == d[j] && d[j] in d;
    assert forall j | 0 <= j < i :: s[j] == s[..i][j] && s[..i][j] in s[..i];
  }

  /** The flattened key is unambiguous. */
  lemma KeyIsAPair(d: Id, p: Id, e: Id, q: Id)
    requires NulFree(d) && NulFree(e)
    ensures Key(d, p) == Key(e, q) <==> d == e && p == q
    ensures PlaceOf(Key(d, p)) == p
  {
    FirstNul(d, p);
    FirstNul(e, q);
    if Key(d, p) == Key(e, q) {
      assert Key(d, p)[..|d|] == d && Key(e, q)[..|e|] == e;
      assert Key(d, p)[|d| + 1..] == p && Key(e, q)[|e| + 1..] == q;
    }
  }

  // ---------------------------------------------------------------- one pair

  datatype Standing = Unknown | Outside | Inside

  function StandingOf(t: Keys, d: Id, p: Id): Standing {
    if Key(d, p) !in t.seen then Unknown else if Key(d, p) in t.inside then Inside else Outside
  }

  predicate Concerns(a: Action, d: Id, p: Id) { a.Look? && a.pos.deviceId == d && a.place.id == p }

  predicate Delists(a: Action, p: Id) { a.Prune? && p !in a.live }

  /** The automaton of one pair. */
  function PairApply(cfg: Config, st: Standing, d: Id, p: Id, a: Action): Standing {
    if Concerns(a, d, p) then if Within(cfg, st == Inside, a.pos, a.place) then Inside else Outside
    else if Delists(a, p) then Unknown
    else st
  }

  function PairEmits(cfg: Config, st: Standing, d: Id, p: Id, a: Action): seq<Event> {
    if Concerns(a, d, p) then Emitted(st == Unknown, st == Inside, Within(cfg, st == Inside, a.pos, a.place), a.pos, a.place, a.now)
    else []
  }

  function PairExec(cfg: Config, st: Standing, d: Id, p: Id, actions: seq<Action>): Standing {
    if actions == [] then st
    else PairApply(cfg, PairExec(cfg, st, d, p, actions[..|actions| - 1]), d, p, Last(actions))
  }

  function PairEvents(cfg: Config, st: Standing, d: Id, p: Id, actions: seq<Action>): seq<Event> {
    if actions == [] then []
    else PairEvents(cfg, st, d, p, actions[..|actions| - 1])
           + PairEmits(cfg, PairExec(cfg, st, d, p, actions[..|actions| - 1]), d, p, Last(actions))
  }

  function About(events: seq<Event>, d: Id, p: Id): seq<Event> {
    if events == [] then []
    else About(events[..|events| - 1], d, p)
           + if Last(events).deviceId == d && Last(events).placeId == p then [Last(events)] else []
  }

  lemma {:induction false} AboutParts(a: seq<Event>, b: seq<Event>, d: Id, p: Id)
    ensures About(a + b, d, p) == About(a, d, p) + About(b, d, p)
  {
    if b == [] {
      assert a + b == a;
    } else {
      AboutParts(a, b[..|b| - 1], d, p);
      assert (a + b)[..|a + b| - 1] == a + b[..|b| - 1];
    }
  }

  /** The inside set never outgrows the seen set. */
  predicate Sane(t: Keys) { t.inside <= t.seen }

  lemma {:induction false} StaysSane(cfg: Config, t: Keys, actions: seq<Action>)
    requires Sane(t)
    ensures Sane(Exec(cfg, t, actions))
  {
    if actions != [] { StaysSane(cfg, t, actions[..|actions| - 1]); }
  }

  lemma ApplyProjects(cfg: Config, t: Keys, d: Id, p: Id, a: Action)
    requires Sane(t) && NulFree(d) && (a.Look? ==> NulFree(a.pos.deviceId))
    ensures StandingOf(Apply(cfg, t, a), d, p) == PairApply(cfg, StandingOf(t, d, p), d, p, a)
    ensures About(Emits(cfg, t, a), d, p) == PairEmits(cfg, StandingOf(t, d, p), d, p, a)
  {
    if a.Look? {
      KeyIsAPair(d, p, a.pos.deviceId, a.place.id);
      var es := Emits(cfg, t, a);
      assert |es| <= 1;
      if |es| == 1 { assert es[..0] == []; }
    } else {
      KeyIsAPair(d, p, d, p);
    }
  }

  /**
    The string-keyed sets refine pairs: what the tracker holds and says about a pair is the run of that
    pair's own automaton, whatever else it is fed.
  */
  lemma {:induction false} Projects(cfg: Config, t: Keys, d: Id, p: Id, actions: seq<Action>)
    requires Sane(t) && NulFree(d) && PlainDevices(actions)
    ensures StandingOf(Exec(cfg, t, actions), d, p) == PairExec(cfg, StandingOf(t, d, p), d, p, actions)
    ensures About(Events(cfg, t, actions), d, p) == PairEvents(cfg, StandingOf(t, d, p), d, p, actions)
  {
    if actions != [] {
      var before := actions[..|actions| - 1];
      Projects(cfg, t, d, p, before);
      StaysSane(cfg, t, before);
      ApplyProjects(cfg, Exec(cfg, t, before), d, p, Last(actions));
      AboutParts(Events(cfg, t, before), Emits(cfg, Exec(cfg, t, before), Last(actions)), d, p);
    }
  }

  // ---------------------------------------------------------------- runs of one pair

  ghost predicate StaysListed(actions: seq<Action>, p: Id) { forall a <- actions :: !Delists(a, p) }

  /** Whether the first look at the pair found the device within the radius. */
  function FirstLook(cfg: Config, d: Id, p: Id, actions: seq<Action>): Option<bool> {
    if actions == [] then None else
    match FirstLook(cfg, d, p, actions[..|actions| - 1])
    case Some(b) => Some(b)
    case None => if Concerns(Last(actions), d, p) then Some(Within(cfg, false, Last(actions).pos, Last(actions).place)) else None
  }

  function Toggled(b: bool, n: nat): bool { if n % 2 == 0 then b else !b }

  /** Event i is an arrival exactly when the device was outside after i events. */
  ghost predicate Alternate(evs: seq<Event>, start: bool) {
    forall i | 0 <= i < |evs| :: evs[i].kind == if Toggled(start, i) then Exit else Enter
  }

  predicate Tells(st: Standing, evs: seq<Event>, first: Option<bool>) {
    match first
    case None => st == Unknown && evs == []
    case Some(b) => st == if Toggled(b, |evs|) then Inside else Outside
  }

  lemma {:induction false} PairRun(cfg: Config, d: Id, p: Id, actions: seq<Action>)
    requires StaysListed(actions, p)
    ensures Tells(PairExec(cfg, Unknown, d, p, actions), PairEvents(cfg, Unknown, d, p, actions), FirstLook(cfg, d, p, actions))
    ensures FirstLook(cfg, d, p, actions).Some? ==> Alternate(PairEvents(cfg, Unknown, d, p, actions), FirstLook(cfg, d, p, actions).value)
  {
    if actions != [] {
      PairRun(cfg, d, p, actions[..|actions| - 1]);
      assert !Delists(Last(actions), p);
    }
  }

  /**
    While a place stays listed, the events of each pair not seen before strictly alternate, the first look
    is silent, and the device is inside exactly when the first look's flag toggled once per event says so.
  */
  lemma TransitionsAlternate(cfg: Config, t: Keys, d: Id, p: Id, actions: seq<Action>)
    requires Sane(t) && NulFree(d) && PlainDevices(actions) && StaysListed(actions, p) && StandingOf(t, d, p) == Unknown
    ensures var evs := About(Events(cfg, t, actions), d, p);
      && Tells(StandingOf(Exec(cfg, t, actions), d, p), evs, FirstLook(cfg, d, p, actions))
      && (FirstLook(cfg, d, p, actions).Some? ==> Alternate(evs, FirstLook(cfg, d, p, actions).value))
      && forall i | 0 <= i < |evs| - 1 :: evs[i].kind != evs[i + 1].kind
  {
    Projects(cfg, t, d, p, actions);
    PairRun(cfg, d, p, actions);
  }

  /** An action of the run that gave rise to the event. */
  predicate Earned(cfg: Config, a: Action, e: Event) {
    a.Look? && e == Event(a.pos.deviceId, a.place.id, a.place.name, e.kind, a.now)
    && match e.kind
       case Enter => cfg.distance(a.pos.at, a.place.at) <= a.place.radius
       case Exit => cfg.distance(a.pos.at, a.place.at) > a.place.radius + cfg.hysteresisM
  }

  /** An exit is only ever emitted beyond radius + hysteresis, an arrival only within the radius. */
  lemma {:induction false} EventsAreEarned(cfg: Config, t: Keys, actions: seq<Action>)
    ensures forall e <- Events(cfg, t, actions) :: exists a <- actions :: Earned(cfg, a, e)
  {
    if actions != [] {
      var before, a := actions[..|actions| - 1], Last(actions);
      EventsAreEarned(cfg, t, before);
      forall e | e in Events(cfg, t, actions) ensures exists a <- actions :: Earned(cfg, a, e) {
        if e in Events(cfg, t, before) {
          var b :| b in before && Earned(cfg, b, e);
          assert b in actions;
        } else {
          assert e in Emits(cfg, Exec(cfg, t, before), a);
          assert Earned(cfg, a, e);
        }
      }
    }
  }

  // ---------------------------------------------------------------- whole updates

  lemma {:induction false} FedLooks(positions: seq<Position>, places: seq<Place>, now: int)
    ensures forall a <- Rows(positions, places, now) :: a.Look? && a.pos in positions && a.place in places
  {
    if positions != [] {
      FedLooks(positions[..|positions| - 1], places, now);
      RowLooks(Last(positions), places, now);
    }
  }

  lemma {:induction false} RowLooks(pos: Position, places: seq<Place>, now: int)
    ensures forall a <- Row(pos, places, now) :: a.Look? && a.pos == pos && a.place in places
  {
    if places != [] { RowLooks(pos, places[..|places| - 1], now); }
  }

  lemma {:induction false} Untouched(cfg: Config, st: Standing, d: Id, p: Id, actions: seq<Action>)
    requires forall a <- actions :: !Concerns(a, d, p) && !Delists(a, p)
    ensures PairExec(cfg, st, d, p, actions) == st && PairEvents(cfg, st, d, p, actions) == []
  {
    if actions != [] { Untouched(cfg, st, d, p, actions[..|actions| - 1]); }
  }

  /** An update without a device's position leaves the standing at every listed place, and says nothing of it. */
  lemma QuietDeviceKeepsItsStanding(cfg: Config, t: Keys, d: Id, p: Id, positions: seq<Position>, places: seq<Place>, now: int)
    requires Sane(t) && NulFree(d) && forall pos <- positions :: NulFree(pos.deviceId) && pos.deviceId != d
    requires p in Listed(places)
    ensures StandingOf(Exec(cfg, t, Fed(positions, places, now)), d, p) == StandingOf(t, d, p)
    ensures About(Events(cfg, t, Fed(positions, places, now)), d, p) == []
  {
    FedLooks(positions, places, now);
    Projects(cfg, t, d, p, Fed(positions, places, now));
    Untouched(cfg, StandingOf(t, d, p), d, p, Fed(positions, places, now));
  }

  /** An update that no longer lists a place forgets every pair of that place, with no event about it. */
  lemma DelistingErases(cfg: Config, t: Keys, d: Id, p: Id, positions: seq<Position>, places: seq<Place>, now: int)
    requires Sane(t) && NulFree(d) && forall pos <- positions :: NulFree(pos.deviceId)
    requires p !in Listed(places)
    ensures StandingOf(Exec(cfg, t, Fed(positions, places, now)), d, p) == Unknown
    ensures About(Events(cfg, t, Fed(positions, places, now)), d, p) == []
  {
    var rows := Rows(positions, places, now);
    FedLooks(positions, places, now);
    Projects(cfg, t, d, p, Fed(positions, places, now));
    Untouched(cfg, StandingOf(t, d, p), d, p, rows);
    assert Fed(positions, places, now)[..|rows|] == rows;
  }

  /** Pairs of listed places outlive the pruning: it erases exactly the delisted ones. */
  lemma PruningErasesExactly(cfg: Config, t: Keys, d: Id, p: Id, live: set<Id>)
    requires Sane(t) && NulFree(d)
    ensures StandingOf(Apply(cfg, t, Prune(live)), d, p) == if p in live then StandingOf(t, d, p) else Unknown
  {
    ApplyProjects(cfg, t, d, p, Prune(live));
  }
}
