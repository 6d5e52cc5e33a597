/**
  The geofence tracker of the web client (web/src/data/geofence.ts).

  The distance is any function of two points; ids are strings. The tracker keeps flattened keys, and what
  it means is a standing for each (device, place) pair.
*/
module Geofence {
  import opened Prelude

  type Id = string

  datatype Point = Point(lat: real, lng: real)

  datatype Position = Position(deviceId: Id, at: Point)

  datatype Place = Place(id: Id, name: string, at: Point, radius: real)

  datatype Kind = Enter | Exit

  datatype Event = Event(deviceId: Id, placeId: Id, placeName: string, kind: Kind, at: int)

  datatype Config = Config(hysteresisM: real, distance: (Point, Point) -> real)

  const NUL: char := 0 as char

  function Key(deviceId: Id, placeId: Id): string { deviceId + [NUL] + placeId }

  /** The first position of c, or -1. */
  function IndexOf(s: string, c: char): (i: int)
    ensures -1 <= i < |s|
    ensures i >= 0 ==> s[i] == c && c !in s[..i]
    ensures i == -1 ==> c !in s
  {
    if s == "" then -1
    else if s[0] == c then 0
    else
      var j := IndexOf(s[1..], c);
      assert j >= 0 ==> s[..j + 1] == [s[0]] + s[1..][..j];
      assert s == [s[0]] + s[1..];
      if j == -1 then -1 else j + 1
  }

  function PlaceOf(key: string): Id { key[IndexOf(key, NUL) + 1..] }

  // ---------------------------------------------------------------- the keyed sets

  datatype Keys = Keys(inside: set<string>, seen: set<string>)

  /** What a tracker is fed, in order: one look at a pair, or the list of the places that are left. */
  datatype Action = Look(pos: Position, place: Place, now: int) | Prune(live: set<Id>)

  predicate Within(cfg: Config, wasInside: bool, pos: Position, place: Place) {
    cfg.distance(pos.at, place.at) <= if wasInside then place.radius + cfg.hysteresisM else place.radius
  }

  function Emitted(firstLook: bool, wasInside: bool, isInside: bool, pos: Position, place: Place, now: int): seq<Event> {
    if firstLook || isInside == wasInside then []
    else [Event(pos.deviceId, place.id, place.name, if isInside then Enter else Exit, now)]
  }

  function Apply(cfg: Config, t: Keys, a: Action): Keys {
    match a
    case Look(pos, place, _) =>
      var key := Key(pos.deviceId, place.id);
      Keys(if Within(cfg, key in t.inside, pos, place) then t.inside + {key} else t.inside - {key}, t.seen + {key})
    case Prune(live) =>
      Keys(set k | k in t.inside && PlaceOf(k) in live, set k | k in t.seen && PlaceOf(k) in live)
  }

  function Emits(cfg: Config, t: Keys, a: Action): seq<Event> {
    match a
    case Look(pos, place, now) =>
      var key := Key(pos.deviceId, place.id);
      Emitted(key !in t.seen, key in t.inside, Within(cfg, key in t.inside, pos, place), pos, place, now)
    case Prune(_) => []
  }

  function Exec(cfg: Config, t: Keys, actions: seq<Action>): Keys {
    if actions == [] then t else Apply(cfg, Exec(cfg, t, actions[..|actions| - 1]), Last(actions))
  }

  function Events(cfg: Config, t: Keys, actions: seq<Action>): seq<Event> {
    if actions == [] then []
    else Events(cfg, t, actions[..|actions| - 1]) + Emits(cfg, Exec(cfg, t, actions[..|actions| - 1]), Last(actions))
  }

  lemma OneMore(cfg: Config, t: Keys, actions: seq<Action>, a: Action)
    ensures Exec(cfg, t, actions + [a]) == Apply(cfg, Exec(cfg, t, actions), a)
    ensures Events(cfg, t, actions + [a]) == Events(cfg, t, actions) + Emits(cfg, Exec(cfg, t, actions), a)
  {
    assert (actions + [a])[..|actions|] == actions;
  }

  // ---------------------------------------------------------------- the tracker

  function Row(pos: Position, places: seq<Place>, now: int): seq<Action> {
    if places == [] then [] else Row(pos, places[..|places| - 1], now) + [Look(pos, Last(places), now)]
  }

  function Rows(positions: seq<Position>, places: seq<Place>, now: int): seq<Action> {
    if positions == [] then [] else Rows(positions[..|positions| - 1], places, now) + Row(Last(positions), places, now)
  }

  function Listed(places: seq<Place>): set<Id> { set p | p in places :: p.id }

  function Fed(positions: seq<Position>, places: seq<Place>, now: int): seq<Action> {
    Rows(positions, places, now) + [Prune(Listed(places))]
  }

  class GeofenceTracker {
    const cfg: Config
    var inside: set<string>
    var seen: set<string>

    constructor (hysteresisM: real, distance: (Point, Point) -> real)
      ensures cfg == Config(hysteresisM, distance) && State() == Keys({}, {})
    {
      cfg := Config(hysteresisM, distance);
      inside, seen := {}, {};
    }

    ghost function State(): Keys
      reads this
    {
      Keys(inside, seen)
    }

    method LookAt(pos: Position, place: Place, now: int) returns (events: seq<Event>)
      modifies this`inside, this`seen
      ensures State() == Apply(cfg, old(State()), Look(pos, place, now))
      ensures events == Emits(cfg, old(State()), Look(pos, place, now))
    {
      var key := Key(pos.deviceId, place.id);
      var d := cfg.distance(pos.at, place.at);
      var wasInside := key in inside;
      var isInside := if wasInside then d <= place.radius + cfg.hysteresisM else d <= place.radius;
      var firstLook := key !in seen;
      seen := seen + {key};
      if isInside {
        inside := inside + {key};
      } else {
        inside := inside - {key};
      }
      events := [];
      if firstLook { return; }
      if isInside && !wasInside {
        events := [Event(pos.deviceId, place.id, place.name, Enter, now)];
      } else if !isInside && wasInside {
        events := [Event(pos.deviceId, place.id, place.name, Exit, now)];
      }
    }

    method LookAround(pos: Position, places: seq<Place>, now: int) returns (events: seq<Event>)
      modifies this`inside, this`seen
      ensures State() == Exec(cfg, old(State()), Row(pos, places, now))
      ensures events == Events(cfg, old(State()), Row(pos, places, now))
    {
      events := [];
      for j := 0 to |places|
        invariant State() == Exec(cfg, old(State()), Row(pos, places[..j], now))
        invariant events == Events(cfg, old(State()), Row(pos, places[..j], now))
      {
        assert places[..j + 1][..j] == places[..j];
        OneMore(cfg, old(State()), Row(pos, places[..j], now), Look(pos, places[j], now));
        var more := LookAt(pos, places[j], now);
        events := events + more;
      }
      assert places[..|places|] == places;
    }

    method Update(positions: seq<Position>, places: seq<Place>, now: int) returns (events: seq<Event>)
      modifies this`inside, this`seen
      ensures State() == Exec(cfg, old(State()), Fed(positions, places, now))
      ensures events == Events(cfg, old(State()), Fed(positions, places, now))
    {
      events := [];
      for i := 0 to |positions|
        invariant State() == Exec(cfg, old(State()), Rows(positions[..i], places, now))
        invariant events == Events(cfg, old(State()), Rows(positions[..i], places, now))
      {
        assert positions[..i + 1][..i] == positions[..i];
        InTwoParts(cfg, old(State()), Rows(positions[..i], places, now), Row(positions[i], places, now));
        var more := LookAround(positions[i], places, now);
        events := events + more;
      }
      assert positions[..|positions|] == positions;
      OneMore(cfg, old(State()), Rows(positions, places, now), Prune(Listed(places)));
      PruneKeys(Listed(places));
    }

    method PruneKeys(livePlaces: set<Id>)
      modifies this`inside, this`seen
      ensures State() == Apply(cfg, old(State()), Prune(livePlaces))
    {
      var todo := inside;
      while todo != {}
        invariant todo <= inside <= old(inside) && seen == old(seen)
        invariant forall k :: k in inside <==> k in old(inside) && (k in todo || PlaceOf(k) in livePlaces)
      {
        var key :| key in todo;
        if PlaceOf(key) !in livePlaces { inside := inside - {key}; }
        todo := todo - {key};
      }
      todo := seen;
      while todo != {}
        invariant todo <= seen <= old(seen)
        invariant forall k :: k in inside <==> k in old(inside) && PlaceOf(k) in livePlaces
        invariant forall k :: k in seen <==> k in old(seen) && (k in todo || PlaceOf(k) in livePlaces)
      {
        var key :| key in todo;
        if PlaceOf(key) !in livePlaces { seen := seen - {key}; }
        todo := todo - {key};
      }
    }

    /** Exactly the places the device is inside of, each once. */
    method InsidePlaceIds(deviceId: Id) returns (out: seq<Id>)
      ensures forall p :: p in out <==> Key(deviceId, p) in inside
      ensures forall i, j | 0 <= i < j < |out| :: out[i] != out[j]
    {
      out := [];
      var prefix := deviceId + [NUL];
      var todo := inside;
      while todo != {}
        invariant todo <= inside
        invariant forall p :: p in out <==> Key(deviceId, p) in inside - todo
        invariant forall i, j | 0 <= i < j < |out| :: out[i] != out[j]
      {
        var key :| key in todo;
        if prefix <= key {
          var p := key[|prefix|..];
          assert key == Key(deviceId, p);
          assert forall q :: Key(deviceId, q) == key ==> q == p by {
            forall q | Key(deviceId, q) == key ensures q == p { assert Key(deviceId, q)[|prefix|..] == q; }
          }
          out := out + [p];
        } else {
          assert forall q :: Key(deviceId, q) != key by {
            forall q ensures Key(deviceId, q) != key { assert prefix <= Key(deviceId, q); }
          }
        }
        todo := todo - {key};
      }
    }
  }

  lemma {:induction false} InTwoParts(cfg: Config, t: Keys, a: seq<Action>, b: seq<Action>)
    ensures Exec(cfg, t, a + b) == Exec(cfg, Exec(cfg, t, a), b)
    ensures Events(cfg, t, a + b) == Events(cfg, t, a) + Events(cfg, Exec(cfg, t, a), b)
  {
    if b == [] {
      assert a + b == a;
    } else {
      InTwoParts(cfg, t, a, b[..|b| - 1]);
      assert (a + b)[..|a + b| - 1] == a + b[..|b| - 1];
    }
  }
}
