/** What one look and one update decide, by the distance, the radius and the hysteresis. */
module GeofenceLooks {
  import opened Prelude
  import opened Geofence
  import opened GeofenceRuns

  /** The device is inside after a look: to stay inside it may be further away than to come in. */
  predicate StaysOrComesIn(cfg: Config, st: Standing, at: Point, place: Place) {
    if st == Inside then cfg.distance(at, place.at) <= place.radius + cfg.hysteresisM
    else cfg.distance(at, place.at) <= place.radius
  }

  /** What a look has to report: an inside device that is beyond both, an outside one that is within the radius. */
  function Report(cfg: Config, st: Standing, pos: Position, place: Place, now: int): seq<Event> {
    if st == Inside && cfg.distance(pos.at, place.at) > place.radius + cfg.hysteresisM
      then [Event(pos.deviceId, place.id, place.name, Exit, now)]
    else if st == Outside && cfg.distance(pos.at, place.at) <= place.radius
      then [Event(pos.deviceId, place.id, place.name, Enter, now)]
    else []
  }

  lemma OneLook(cfg: Config, st: Standing, pos: Position, place: Place, now: int)
    ensures var look := Look(pos, place, now);
      && PairApply(cfg, st, pos.deviceId, place.id, look) == (if StaysOrComesIn(cfg, st, pos.at, place) then Inside else Outside)
      && PairEmits(cfg, st, pos.deviceId, place.id, look) == Report(cfg, st, pos, place, now)
  {
  }

  /**
    After any run, a look at a pair leaves it inside exactly when the distance is at most the radius, or the
    radius and the hysteresis if it was inside; it reports an exit exactly when an inside device is beyond
    both, an arrival exactly when an outside one is within the radius, and nothing else or on a first look.
  */
  lemma LookDecides(cfg: Config, t: Keys, actions: seq<Action>, pos: Position, place: Place, now: int)
    requires Sane(t) && NulFree(pos.deviceId) && PlainDevices(actions)
    ensures var d, p, run := pos.deviceId, place.id, actions + [Look(pos, place, now)];
      var st := StandingOf(Exec(cfg, t, actions), d, p);
      && StandingOf(Exec(cfg, t, run), d, p) == (if StaysOrComesIn(cfg, st, pos.at, place) then Inside else Outside)
      && About(Events(cfg, t, run), d, p) == About(Events(cfg, t, actions), d, p) + Report(cfg, st, pos, place, now)
  {
    var d, p, look := pos.deviceId, place.id, Look(pos, place, now);
    assert (actions + [look])[..|actions|] == actions;
    Projects(cfg, t, d, p, actions);
    Projects(cfg, t, d, p, actions + [look]);
    OneLook(cfg, StandingOf(Exec(cfg, t, actions), d, p), pos, place, now);
  }

  // ---------------------------------------------------------------- one update

  /** Only place j has id p. */
  predicate OnlyPlace(places: seq<Place>, p: Id, j: nat) { forall i | 0 <= i < |places| :: places[i].id == p <==> i == j }

  predicate OnlyPosition(positions: seq<Position>, d: Id, i: nat) {
    forall k | 0 <= k < |positions| :: positions[k].deviceId == d <==> k == i
  }

  ghost predicate Leaves(cfg: Config, st: Standing, d: Id, p: Id, actions: seq<Action>, after: Standing, evs: seq<Event>) {
    PairExec(cfg, st, d, p, actions) == after && PairEvents(cfg, st, d, p, actions) == evs
  }

  lemma PairOneMore(cfg: Config, st: Standing, d: Id, p: Id, a: seq<Action>, x: Action)
    ensures PairExec(cfg, st, d, p, a + [x]) == PairApply(cfg, PairExec(cfg, st, d, p, a), d, p, x)
    ensures PairEvents(cfg, st, d, p, a + [x]) == PairEvents(cfg, st, d, p, a) + PairEmits(cfg, PairExec(cfg, st, d, p, a), d, p, x)
  {
    assert (a + [x])[..|a|] == a;
  }

  lemma Regroup(a: seq<Event>, b: seq<Event>, c: seq<Event>)
    ensures a + b + c == a + (b + c)
  {
  }

  lemma {:induction false} PairParts(cfg: Config, st: Standing, d: Id, p: Id, a: seq<Action>, b: seq<Action>)
    ensures PairExec(cfg, st, d, p, a + b) == PairExec(cfg, PairExec(cfg, st, d, p, a), d, p, b)
    ensures PairEvents(cfg, st, d, p, a + b) == PairEvents(cfg, st, d, p, a) + PairEvents(cfg, PairExec(cfg, st, d, p, a), d, p, b)
  {
    var mid := PairExec(cfg, st, d, p, a);
    if b == [] {
      assert a + b == a;
    } else {
      var init, x := b[..|b| - 1], Last(b);
      PairParts(cfg, st, d, p, a, init);
      PairOneMore(cfg, st, d, p, a + init, x);
      PairOneMore(cfg, mid, d, p, init, x);
      assert a + b == a + init + [x] && b == init + [x];
      Regroup(PairEvents(cfg, st, d, p, a), PairEvents(cfg, mid, d, p, init), PairEmits(cfg, PairExec(cfg, mid, d, p, init), d, p, x));
    }
  }

  lemma {:induction false} RowOnce(cfg: Config, st: Standing, pos: Position, p: Id, places: seq<Place>, now: int, j: nat)
    requires OnlyPlace(places, p, j)
    ensures j < |places| ==>
      Leaves(cfg, st, pos.deviceId, p, Row(pos, places, now), if StaysOrComesIn(cfg, st, pos.at, places[j]) then Inside else Outside,
             Report(cfg, st, pos, places[j], now))
    ensures j >= |places| ==> Leaves(cfg, st, pos.deviceId, p, Row(pos, places, now), st, [])
  {
    if places != [] {
      var k := |places| - 1;
      RowOnce(cfg, st, pos, p, places[..k], now, j);
      if j == k { OneLook(cfg, st, pos, places[k], now); }
      assert Row(pos, places, now)[..|Row(pos, places, now)| - 1] == Row(pos, places[..k], now);
    }
  }

  lemma OtherRow(cfg: Config, st: Standing, d: Id, p: Id, pos: Position, places: seq<Place>, now: int)
    requires pos.deviceId != d
    ensures Leaves(cfg, st, d, p, Row(pos, places, now), st, [])
  {
    RowLooks(pos, places, now);
    Untouched(cfg, st, d, p, Row(pos, places, now));
  }

  lemma {:induction false} RowsOnce(cfg: Config, st: Standing, d: Id, p: Id, positions: seq<Position>, places: seq<Place>, now: int,
                                    i: nat, j: nat)
    requires OnlyPosition(positions, d, i) && OnlyPlace(places, p, j) && j < |places|
    ensures i < |positions| ==>
      Leaves(cfg, st, d, p, Rows(positions, places, now), if StaysOrComesIn(cfg, st, positions[i].at, places[j]) then Inside else Outside,
             Report(cfg, st, positions[i], places[j], now))
    ensures i >= |positions| ==> Leaves(cfg, st, d, p, Rows(positions, places, now), st, [])
  {
    if positions != [] {
      var k := |positions| - 1;
      var before := Rows(positions[..k], places, now);
      RowsOnce(cfg, st, d, p, positions[..k], places, now, i, j);
      PairParts(cfg, st, d, p, before, Row(positions[k], places, now));
      LastRow(cfg, PairExec(cfg, st, d, p, before), d, p, positions, places, now, i, j);
    }
  }

  lemma LastRow(cfg: Config, st: Standing, d: Id, p: Id, positions: seq<Position>, places: seq<Place>, now: int, i: nat, j: nat)
    requires OnlyPosition(positions, d, i) && OnlyPlace(places, p, j) && j < |places| && positions != []
    ensures i == |positions| - 1 ==>
      Leaves(cfg, st, d, p, Row(Last(positions), places, now),
             if StaysOrComesIn(cfg, st, Last(positions).at, places[j]) then Inside else Outside,
             Report(cfg, st, Last(positions), places[j], now))
    ensures i != |positions| - 1 ==> Leaves(cfg, st, d, p, Row(Last(positions), places, now), st, [])
  {
    if i == |positions| - 1 {
      RowOnce(cfg, st, Last(positions), p, places, now, j);
    } else {
      OtherRow(cfg, st, d, p, Last(positions), places, now);
    }
  }

  /**
    A whole update with one position of a device and a place listed once decides the pair by that position
    and that place alone, and reports it once at most, whoever else is in the update.
  */
  lemma UpdateDecides(cfg: Config, t: Keys, positions: seq<Position>, places: seq<Place>, now: int, i: nat, j: nat)
    requires Sane(t) && forall pos <- positions :: NulFree(pos.deviceId)
    requires i < |positions| && j < |places| && OnlyPosition(positions, positions[i].deviceId, i) && OnlyPlace(places, places[j].id, j)
    ensures var d, p, fed := positions[i].deviceId, places[j].id, Fed(positions, places, now);
      var st := StandingOf(t, d, p);
      && StandingOf(Exec(cfg, t, fed), d, p) == (if StaysOrComesIn(cfg, st, positions[i].at, places[j]) then Inside else Outside)
      && About(Events(cfg, t, fed), d, p) == Report(cfg, st, positions[i], places[j], now)
  {
    var d, p, rows := positions[i].deviceId, places[j].id, Rows(positions, places, now);
    FedLooks(positions, places, now);
    Projects(cfg, t, d, p, Fed(positions, places, now));
    RowsOnce(cfg, StandingOf(t, d, p), d, p, positions, places, now, i, j);
    assert Fed(positions, places, now)[..|rows|] == rows;
    assert places[j] in places && p in Listed(places);
  }

  /** The device at 50 m and then at 500 m of a radius of 100 m with 30 m of hysteresis leaves once. */
  lemma WalkingAwayIsSeen(cfg: Config, d: Id, place: Place, near: Point, far: Point, now: int)
    requires NulFree(d) && place.radius == 100.0 && cfg.hysteresisM == 30.0
    requires cfg.distance(near, place.at) == 50.0 && cfg.distance(far, place.at) == 500.0
    ensures About(Events(cfg, Keys({}, {}), [Look(Position(d, near), place, now)] + [Look(Position(d, far), place, now + 1)]), d, place.id)
         == [Event(d, place.id, place.name, Exit, now + 1)]
  {
    var first := Look(Position(d, near), place, now);
    assert [] + [first] == [first];
    LookDecides(cfg, Keys({}, {}), [], Position(d, near), place, now);
    LookDecides(cfg, Keys({}, {}), [first], Position(d, far), place, now + 1);
  }
}
