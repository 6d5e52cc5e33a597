/**
  The ping table, the deletions that keep it short, and its one remaining reader
  (server/internal/store/misc.sql.go, pings.sql.go, sqlite_queries.go, store.go).

  Instants are whole numbers of an arbitrary fixed unit. A row carries what the statements look at; its
  ciphertext and nonce travel with its id.
*/
module RetentionSpec {
  import opened Prelude

  type Id = nat
  type Circle = nat
  type Device = nat
  type Client = nat
  type Time = int

  datatype Ping = Ping(circle: Circle, device: Device, client: Client, captured: Time)

  type Table = map<Id, Ping>

  predicate SameDevice(p: Ping, q: Ping) { p.circle == q.circle && p.device == q.device }

  predicate Newer(q: Ping, p: Ping) { SameDevice(p, q) && q.captured > p.captured }

  /** The EXISTS clause of both deletions: some ping of the same circle and device is newer. */
  predicate Superseded(t: Table, p: Ping) { exists n <- t :: Newer(t[n], p) }

  /** One deletion's bound, over all circles or over one. */
  datatype Rule = Rule(scope: Option<Circle>, cutoff: Time)

  predicate Covers(r: Rule, p: Ping) {
    (r.scope.Some? ==> r.scope.value == p.circle) && p.captured < r.cutoff
  }

  predicate Hit(rules: seq<Rule>, p: Ping) { exists r <- rules :: Covers(r, p) }

  /** What is left when the rows hit by some rule and superseded in `t` itself are gone. */
  function Pruned(t: Table, rules: seq<Rule>): Table {
    map id | id in t && !(Hit(rules, t[id]) && Superseded(t, t[id])) :: t[id]
  }

  /** The horizon deletion, which has no EXISTS clause. */
  function Since(t: Table, horizon: Time): Table {
    map id | id in t && t[id].captured >= horizon :: t[id]
  }

  // ---------------------------------------------------------------- the reader

  /** The rows the latest-ping query may pick for a device. */
  predicate IsNewest(t: Table, c: Circle, d: Device, id: Id) {
    id in t && t[id].circle == c && t[id].device == d && !Superseded(t, t[id])
  }

  predicate Present(t: Table, c: Circle, d: Device) { exists id <- t :: t[id].circle == c && t[id].device == d }

  /** A possible answer of the latest-ping query for a circle: one newest row per device that has a ping. */
  ghost predicate IsLatest(t: Table, c: Circle, answer: map<Device, Id>) {
    && (forall d :: d in answer <==> Present(t, c, d))
    && (forall d <- answer :: IsNewest(t, c, d, answer[d]))
  }

  // ---------------------------------------------------------------- the newest row

  lemma {:induction false} GreatestOf(t: Table, ids: set<Id>) returns (g: Id)
    requires ids != {} && ids <= t.Keys
    ensures g in ids && forall i <- ids :: t[i].captured <= t[g].captured
    decreases |ids|
  {
    var first :| first in ids;
    var rest := ids - {first};
    g := first;
    if rest != {} {
      var h := GreatestOf(t, rest);
      if t[h].captured > t[first].captured { g := h; }
    }
    forall i | i in ids ensures t[i].captured <= t[g].captured {
      assert i == first || i in rest;
    }
  }

  /** Whatever is superseded is superseded by a newest row. */
  lemma NewestAbove(t: Table, p: Ping) returns (n: Id)
    requires Superseded(t, p)
    ensures n in t && Newer(t[n], p) && !Superseded(t, t[n])
  {
    var above := set i | i in t && Newer(t[i], p);
    var w :| w in t && Newer(t[w], p);
    assert w in above;
    n := GreatestOf(t, above);
    forall m <- t ensures !Newer(t[m], t[n]) {
      assert m in above ==> t[m].captured <= t[n].captured;
    }
  }

  lemma NewestExists(t: Table, c: Circle, d: Device) returns (n: Id)
    requires Present(t, c, d)
    ensures IsNewest(t, c, d, n)
  {
    var id :| id in t && t[id].circle == c && t[id].device == d;
    n := id;
    if Superseded(t, t[id]) { n := NewestAbove(t, t[id]); }
  }

  /** Some superseded rows of t are missing from u, and nothing else differs. */
  ghost predicate Thinned(t: Table, u: Table) {
    && (forall id <- u :: id in t && u[id] == t[id])
    && (forall id <- t :: id in u || Superseded(t, t[id]))
  }

  lemma PrunedThins(t: Table, rules: seq<Rule>)
    ensures Thinned(t, Pruned(t, rules))
  {
  }

  function DevicesOf(t: Table, c: Circle): set<Device> { set id | id in t && t[id].circle == c :: t[id].device }

  /** The latest-ping query has an answer for every table and circle. */
  lemma {:induction false} LatestFor(t: Table, c: Circle, devices: set<Device>) returns (answer: map<Device, Id>)
    requires devices <= DevicesOf(t, c)
    ensures answer.Keys == devices && forall d <- devices :: IsNewest(t, c, d, answer[d])
    decreases |devices|
  {
    if devices == {} { return map[]; }
    var d :| d in devices;
    answer := LatestFor(t, c, devices - {d});
    var n := NewestExists(t, c, d);
    answer := answer[d := n];
  }

  lemma LatestExists(t: Table, c: Circle) returns (answer: map<Device, Id>)
    ensures IsLatest(t, c, answer)
  {
    answer := LatestFor(t, c, DevicesOf(t, c));
  }

  /** And it shows, for exactly the devices with a ping in the circle, one of their pings captured last. */
  lemma LatestIs(t: Table, c: Circle, answer: map<Device, Id>)
    requires IsLatest(t, c, answer)
    ensures forall d :: d in answer <==> exists id <- t :: t[id].circle == c && t[id].device == d
    ensures forall d <- answer, id <- t :: t[id].circle == c && t[id].device == d ==>
      answer[d] in t && t[answer[d]].circle == c && t[answer[d]].device == d && t[id].captured <= t[answer[d]].captured
  {
    forall d <- answer, id <- t | t[id].circle == c && t[id].device == d ensures t[id].captured <= t[answer[d]].captured {
      assert !Newer(t[id], t[answer[d]]);
    }
  }

  /** Thinning a table changes no EXISTS clause. */
  lemma ThinnedKeepsOrder(t: Table, u: Table, p: Ping)
    requires Thinned(t, u)
    ensures Superseded(t, p) <==> Superseded(u, p)
  {
    if Superseded(t, p) {
      var n := NewestAbove(t, p);
      assert n in u;
    }
    if Superseded(u, p) {
      var n :| n in u && Newer(u[n], p);
      assert n in t && Newer(t[n], p);
    }
  }

  /** The newest rows of every device are the same before and after, and so are the devices on the map. */
  lemma ThinnedKeepsNewest(t: Table, u: Table, c: Circle, d: Device)
    requires Thinned(t, u)
    ensures forall id :: IsNewest(t, c, d, id) <==> IsNewest(u, c, d, id)
    ensures Present(t, c, d) <==> Present(u, c, d)
  {
    forall id ensures IsNewest(t, c, d, id) <==> IsNewest(u, c, d, id) {
      if id in t { ThinnedKeepsOrder(t, u, t[id]); }
    }
    if Present(t, c, d) {
      var n := NewestExists(t, c, d);
      assert IsNewest(u, c, d, n);
    }
  }

  /** The two prunes leave every possible answer of the reader possible, and make no new one possible. */
  lemma PruningKeepsTheReader(t: Table, rules: seq<Rule>, c: Circle, answer: map<Device, Id>)
    ensures IsLatest(t, c, answer) <==> IsLatest(Pruned(t, rules), c, answer)
    ensures IsLatest(t, c, answer) ==> forall d <- answer :: answer[d] in Pruned(t, rules) && Pruned(t, rules)[answer[d]] == t[answer[d]]
  {
    forall d {
      ThinnedKeepsNewest(t, Pruned(t, rules), c, d);
    }
  }

  // ---------------------------------------------------------------- the prunes together

  /** Deletions one after the other delete exactly what one deletion with all their rules deletes. */
  lemma PruneThenPrune(t: Table, a: seq<Rule>, b: seq<Rule>)
    ensures Pruned(Pruned(t, a), b) == Pruned(t, a + b)
  {
    var u := Pruned(t, a);
    forall id | id in t ensures id in Pruned(u, b) <==> id in Pruned(t, a + b) {
      ThinnedKeepsOrder(t, u, t[id]);
      assert Hit(a + b, t[id]) <==> Hit(a, t[id]) || Hit(b, t[id]);
    }
  }

  lemma SameRulesSamePrune(t: Table, a: seq<Rule>, b: seq<Rule>)
    requires forall r :: r in a <==> r in b
    ensures Pruned(t, a) == Pruned(t, b)
  {
    forall id | id in t ensures Hit(a, t[id]) <==> Hit(b, t[id]) {
    }
  }

  /** The steps commute. */
  lemma PrunesCommute(t: Table, a: seq<Rule>, b: seq<Rule>)
    ensures Pruned(Pruned(t, a), b) == Pruned(Pruned(t, b), a)
  {
    PruneThenPrune(t, a, b);
    PruneThenPrune(t, b, a);
    SameRulesSamePrune(t, a + b, b + a);
  }

  /** Running a step again deletes nothing more. */
  lemma PruneIsIdempotent(t: Table, a: seq<Rule>)
    ensures Pruned(Pruned(t, a), a) == Pruned(t, a)
  {
    PruneThenPrune(t, a, a);
    SameRulesSamePrune(t, a + a, a);
  }

  function Later(stale: Time, cuts: map<Circle, Time>, c: Circle): Time {
    if c in cuts && cuts[c] > stale then cuts[c] else stale
  }

  ghost predicate RulesFor(cuts: map<Circle, Time>, rules: seq<Rule>) {
    && (forall r <- rules :: r.scope.Some? && r.scope.value in cuts && cuts[r.scope.value] == r.cutoff)
    && (forall c <- cuts :: Rule(Some(c), cuts[c]) in rules)
  }

  /** The global prune followed by the per-circle loop is one deletion at the later of the two cutoffs. */
  lemma WhicheverDeletesMore(t: Table, stale: Time, cuts: map<Circle, Time>, rules: seq<Rule>, id: Id)
    requires RulesFor(cuts, rules)
    ensures id in Pruned(Pruned(t, [Rule(None, stale)]), rules)
       <==> id in t && !(t[id].captured < Later(stale, cuts, t[id].circle) && Superseded(t, t[id]))
  {
    var global := Rule(None, stale);
    PruneThenPrune(t, [global], rules);
    if id in t {
      var p := t[id];
      if p.captured < stale { assert Covers(global, p) && global in [global] + rules; }
      if p.circle in cuts && p.captured < cuts[p.circle] {
        var r := Rule(Some(p.circle), cuts[p.circle]);
        assert Covers(r, p) && r in [global] + rules;
      }
    }
  }

  // ---------------------------------------------------------------- row by row

  /** One row visited by a deletion that looks at the table as it is now. */
  function Visit(t: Table, rules: seq<Rule>, id: Id): Table {
    if id in t && Hit(rules, t[id]) && Superseded(t, t[id]) then t - {id} else t
  }

  function VisitAll(t: Table, rules: seq<Rule>, order: seq<Id>): Table {
    if order == [] then t else Visit(VisitAll(t, rules, order[..|order| - 1]), rules, Last(order))
  }

  function Without(t: Table, rules: seq<Rule>, visited: set<Id>): Table {
    map id | id in t && !(id in visited && Hit(rules, t[id]) && Superseded(t, t[id])) :: t[id]
  }

  lemma VisitIs(t: Table, rules: seq<Rule>, visited: set<Id>, id: Id)
    ensures Visit(Without(t, rules, visited), rules, id) == Without(t, rules, visited + {id})
  {
    var u := Without(t, rules, visited);
    if id in u { ThinnedKeepsOrder(t, u, t[id]); }
  }

  lemma {:induction false} VisitAllIs(t: Table, rules: seq<Rule>, order: seq<Id>)
    ensures VisitAll(t, rules, order) == Without(t, rules, set id | id in order)
  {
    if order != [] {
      var before := order[..|order| - 1];
      VisitAllIs(t, rules, before);
      VisitIs(t, rules, (set id | id in before), Last(order));
      assert (set id | id in before) + {Last(order)} == set id | id in order by {
        forall id | id in order ensures id in before || id == Last(order) { assert order == before + [Last(order)]; }
      }
    }
  }

  /** A deletion that visits every row once, or more often, in any order, deletes what the snapshot deletes. */
  lemma AnyOrderIsTheSnapshot(t: Table, rules: seq<Rule>, order: seq<Id>)
    requires forall id <- t :: id in order
    ensures VisitAll(t, rules, order) == Pruned(t, rules)
  {
    VisitAllIs(t, rules, order);
  }

  // ---------------------------------------------------------------- the horizon

  /** Past the horizon a device leaves the map exactly when its newest ping is that old; otherwise nothing changes for it. */
  lemma HorizonForTheReader(t: Table, horizon: Time, c: Circle, d: Device, n: Id)
    requires IsNewest(t, c, d, n)
    ensures Present(Since(t, horizon), c, d) <==> t[n].captured >= horizon
    ensures t[n].captured >= horizon ==> forall id :: IsNewest(t, c, d, id) <==> IsNewest(Since(t, horizon), c, d, id)
  {
    var u := Since(t, horizon);
    assert forall m <- t :: SameDevice(t[n], t[m]) ==> t[m].captured <= t[n].captured;
    if t[n].captured >= horizon {
      assert n in u;
      forall id ensures IsNewest(t, c, d, id) <==> IsNewest(u, c, d, id) {
        assert IsNewest(u, c, d, id) ==> !Newer(u[n], u[id]);
      }
    }
  }
}
