/**
  The store of latest member positions (web/src/store/positions.ts): only newer captures overwrite.
*/
module Positions {
  import opened Prelude

  type Device = string

  /** `reading` is everything decrypted from the fix; `updatedAt` is stamped locally on arrival. */
  datatype Fix = Fix(deviceId: Device, capturedAt: int, reading: int, updatedAt: int)

  type Latest = map<Device, Fix>

  function Offer(m: Latest, p: Fix): Latest {
    if p.deviceId in m && m[p.deviceId].capturedAt >= p.capturedAt then m else m[p.deviceId := p]
  }

  function OfferAll(m: Latest, ps: seq<Fix>): Latest {
    if ps == [] then m else Offer(OfferAll(m, ps[..|ps| - 1]), Last(ps))
  }

  class Store {
    var positions: Latest

    constructor ()
      ensures positions == map[]
    {
      positions := map[];
    }

    method Upsert(p: Fix)
      modifies this
      ensures positions == Offer(old(positions), p)
    {
      if p.deviceId in positions && positions[p.deviceId].capturedAt >= p.capturedAt { return; }
      positions := positions[p.deviceId := p];
    }

    method Bulk(ps: seq<Fix>)
      modifies this
      ensures positions == OfferAll(old(positions), ps)
    {
      var next := positions;
      for i := 0 to |ps|
        invariant next == OfferAll(old(positions), ps[..i])
        invariant positions == old(positions)
      {
        var p := ps[i];
        if p.deviceId !in next || next[p.deviceId].capturedAt < p.capturedAt {
          next := next[p.deviceId := p];
        }
        assert ps[..i + 1][..i] == ps[..i];
      }
      assert ps[..|ps|] == ps;
      positions := next;
    }

    method Reset()
      modifies this
      ensures positions == map[]
    {
      positions := map[];
    }
  }

  // ---------------------------------------------------------------- runs

  datatype Call = UpsertCall(p: Fix) | BulkCall(ps: seq<Fix>) | ResetCall

  function Apply(m: Latest, c: Call): Latest {
    match c
    case UpsertCall(p) => Offer(m, p)
    case BulkCall(ps) => OfferAll(m, ps)
    case ResetCall => map[]
  }

  function Exec(calls: seq<Call>): Latest {
    if calls == [] then map[] else Apply(Exec(calls[..|calls| - 1]), Last(calls))
  }

  /** The fixes delivered since the last reset, in order, whatever calls carried them. */
  function Delivered(calls: seq<Call>): seq<Fix> {
    if calls == [] then [] else
    match Last(calls)
    case UpsertCall(p) => Delivered(calls[..|calls| - 1]) + [p]
    case BulkCall(ps) => Delivered(calls[..|calls| - 1]) + ps
    case ResetCall => []
  }

  lemma {:induction false} OfferParts(m: Latest, a: seq<Fix>, b: seq<Fix>)
    ensures OfferAll(m, a + b) == OfferAll(OfferAll(m, a), b)
  {
    if b == [] {
      assert a + b == a;
    } else {
      OfferParts(m, a, b[..|b| - 1]);
      assert (a + b)[..|a + b| - 1] == a + b[..|b| - 1];
    }
  }

  /** How fixes are grouped into calls does not matter. */
  lemma {:induction false} GroupingIsInvisible(calls: seq<Call>)
    ensures Exec(calls) == OfferAll(map[], Delivered(calls))
  {
    if calls != [] {
      var before := calls[..|calls| - 1];
      GroupingIsInvisible(before);
      match Last(calls)
      case UpsertCall(p) =>
        OfferParts(map[], Delivered(before), [p]);
        assert [p][..0] == [];
      case BulkCall(ps) => OfferParts(map[], Delivered(before), ps);
      case ResetCall =>
    }
  }

  /** Newest of its device in s. */
  predicate Newest(s: seq<Fix>, f: Fix) {
    f in s && forall g <- s :: g.deviceId == f.deviceId ==> g.capturedAt <= f.capturedAt
  }

  /** f is delivered at i, newest of its device, and no fix of the same time came earlier. */
  predicate FirstNewest(s: seq<Fix>, i: nat) {
    i < |s|
    && (forall j | 0 <= j < |s| && s[j].deviceId == s[i].deviceId :: s[j].capturedAt <= s[i].capturedAt)
    && (forall j | 0 <= j < i && s[j].deviceId == s[i].deviceId :: s[j].capturedAt < s[i].capturedAt)
  }

  /** The store keeps, for each device heard of, the first delivered of its newest fixes. */
  lemma {:induction false} KeepsFirstNewest(s: seq<Fix>, d: Device) returns (i: nat)
    ensures d in OfferAll(map[], s) <==> exists f <- s :: f.deviceId == d
    ensures d in OfferAll(map[], s) ==> FirstNewest(s, i) && s[i].deviceId == d && OfferAll(map[], s)[d] == s[i]
  {
    i := 0;
    if s != [] {
      var before, p := s[..|s| - 1], Last(s);
      i := KeepsFirstNewest(before, d);
      assert s == before + [p];
      if p.deviceId == d && (d !in OfferAll(map[], before) || before[i].capturedAt < p.capturedAt) {
        i := |s| - 1;
        assert d !in OfferAll(map[], before) ==> forall j | 0 <= j < |before| :: before[j] in before;
      }
    }
  }

  // ---------------------------------------------------------------- delivery order

  function Bare(f: Fix): Fix { f.(updatedAt := 0) }

  predicate Same(f: Fix, g: Fix) { Bare(f) == Bare(g) }

  function Bares(s: seq<Fix>): set<Fix> { set f | f in s :: Bare(f) }

  /** The same fixes, in any order and number, stamped at whatever times. */
  predicate SameFixes(s: seq<Fix>, t: seq<Fix>) { Bares(s) == Bares(t) }

  ghost predicate SameMap(m: Latest, n: Latest) {
    m.Keys == n.Keys && forall d <- m :: Same(m[d], n[d])
  }

  /** No device has two different fixes at its greatest capture time. */
  ghost predicate Unambiguous(s: seq<Fix>) {
    forall f, g | Newest(s, f) && Newest(s, g) && f.deviceId == g.deviceId :: Same(f, g)
  }

  lemma NewestCarriesOver(s: seq<Fix>, t: seq<Fix>, f: Fix) returns (g: Fix)
    requires SameFixes(s, t) && Newest(t, f)
    ensures Newest(s, g) && Same(g, f)
  {
    assert Bare(f) in Bares(s);
    g :| g in s && Bare(g) == Bare(f);
    forall h | h in s && h.deviceId == g.deviceId ensures h.capturedAt <= g.capturedAt {
      assert Bare(h) in Bares(t);
      var k :| k in t && Bare(k) == Bare(h);
    }
  }

  lemma {:induction false} KeepsANewest(s: seq<Fix>, d: Device)
    requires d in OfferAll(map[], s)
    ensures Newest(s, OfferAll(map[], s)[d]) && OfferAll(map[], s)[d].deviceId == d
  {
    var i := KeepsFirstNewest(s, d);
  }

  lemma HeardOfToo(s: seq<Fix>, t: seq<Fix>, d: Device)
    requires SameFixes(s, t) && d in OfferAll(map[], s)
    ensures d in OfferAll(map[], t)
  {
    KeepsANewest(s, d);
    assert Bare(OfferAll(map[], s)[d]) in Bares(t);
    var i := KeepsFirstNewest(t, d);
  }

  lemma SameOutcome(s: seq<Fix>, t: seq<Fix>, d: Device)
    requires SameFixes(s, t) && Unambiguous(s) && d in OfferAll(map[], s) && d in OfferAll(map[], t)
    ensures Same(OfferAll(map[], s)[d], OfferAll(map[], t)[d])
  {
    var f, h := OfferAll(map[], s)[d], OfferAll(map[], t)[d];
    KeepsANewest(s, d);
    KeepsANewest(t, d);
    var g := NewestCarriesOver(s, t, h);
    assert Same(f, g);
  }

  lemma Reordered(s: seq<Fix>, t: seq<Fix>)
    requires SameFixes(s, t) && Unambiguous(s)
    ensures SameMap(OfferAll(map[], s), OfferAll(map[], t))
  {
    var m, n := OfferAll(map[], s), OfferAll(map[], t);
    forall d | d in m ensures d in n && Same(m[d], n[d]) {
      HeardOfToo(s, t, d);
      SameOutcome(s, t, d);
    }
    forall d | d in n ensures d in m {
      HeardOfToo(t, s, d);
    }
  }

  lemma FrontWins(s: seq<Fix>, f: Fix)
    requires Newest(s, f)
    ensures SameFixes([f] + s, s)
    ensures f.deviceId in OfferAll(map[], [f] + s) && OfferAll(map[], [f] + s)[f.deviceId] == f
  {
    var t := [f] + s;
    var i := KeepsFirstNewest(t, f.deviceId);
    assert t[0] == f && f in t;
    assert Bares(t) == Bares(s) + {Bare(f)};
    assert Bare(f) in Bares(s);
  }

  ghost predicate OrderInvisible(s: seq<Fix>) {
    forall t, u | SameFixes(s, t) && SameFixes(s, u) :: SameMap(OfferAll(map[], t), OfferAll(map[], u))
  }

  lemma AmbiguityShows(s: seq<Fix>, f: Fix, g: Fix)
    requires Newest(s, f) && Newest(s, g) && f.deviceId == g.deviceId && !Same(f, g)
    ensures !OrderInvisible(s)
  {
    FrontWins(s, f);
    FrontWins(s, g);
    var t, u := [f] + s, [g] + s;
    assert SameFixes(s, t) && SameFixes(s, u);
    assert !SameMap(OfferAll(map[], t), OfferAll(map[], u));
  }

  /**
    Every delivery of the same fixes ends in the same map exactly when no device has two different fixes at
    its greatest capture time.
  */
  lemma DeliveryOrderIsInvisibleIff(s: seq<Fix>)
    ensures OrderInvisible(s) <==> Unambiguous(s)
  {
    if Unambiguous(s) {
      forall t, u | SameFixes(s, t) && SameFixes(s, u) ensures SameMap(OfferAll(map[], t), OfferAll(map[], u)) {
        Reordered(s, t);
        Reordered(s, u);
      }
    }
    forall f, g | Newest(s, f) && Newest(s, g) && f.deviceId == g.deviceId && !Same(f, g) ensures !OrderInvisible(s) {
      AmbiguityShows(s, f, g);
    }
  }

  /** So two sequences of calls that deliver the same fixes end in the same store. */
  lemma CallsCommute(a: seq<Call>, b: seq<Call>)
    requires SameFixes(Delivered(a), Delivered(b)) && Unambiguous(Delivered(a))
    ensures SameMap(Exec(a), Exec(b))
  {
    GroupingIsInvisible(a);
    GroupingIsInvisible(b);
    Reordered(Delivered(a), Delivered(b));
  }
}
