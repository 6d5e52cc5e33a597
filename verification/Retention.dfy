/** The maintenance worker's ping steps (server/internal/retention/retention.go). */
module Retention {
  import opened Prelude
  import opened RetentionSpec

  const HOUR: int := 3_600_000_000_000
  const DAY: int := 24 * HOUR

  const DEFAULT_PING_RETENTION_HOURS := 6

  datatype StoreError = Unavailable

  /** The outcome of a deletion statement: the rows affected. */
  type Deleted = Result<nat, StoreError>

  datatype CircleRetention = CircleRetention(id: Circle, retentionDays: int)

  /** What the world does to one pass: the clock each statement reads, and the statements that fail. */
  datatype Pass = Pass(
    now: Time, horizonFails: bool,
    staleNow: Time, staleFails: bool,
    circles: seq<CircleRetention>, listFails: bool,
    circleNow: seq<Time>, circleFails: seq<bool>)
  {
    ghost predicate Complete() { |circleNow| == |circleFails| == |circles| }
  }

  function RuleOf(pass: Pass, i: nat): Rule
    requires pass.Complete() && i < |pass.circles|
  {
    Rule(Some(pass.circles[i].id), pass.circleNow[i] - pass.circles[i].retentionDays * DAY)
  }

  /** The rules of the circle deletions that went through, among the first n. */
  function CircleRules(pass: Pass, n: nat): seq<Rule>
    requires pass.Complete() && n <= |pass.circles|
  {
    if n == 0 then [] else
    CircleRules(pass, n - 1)
      + if pass.circleFails[n - 1] then [] else [RuleOf(pass, n - 1)]
  }

  /** The table after the first n circles, one statement after the other. */
  function AfterCircles(t: Table, pass: Pass, n: nat): Table
    requires pass.Complete() && n <= |pass.circles|
  {
    if n == 0 then t
    else if pass.circleFails[n - 1] then AfterCircles(t, pass, n - 1)
    else Pruned(AfterCircles(t, pass, n - 1), [RuleOf(pass, n - 1)])
  }

  lemma PruneByNothing(t: Table)
    ensures Pruned(t, []) == t
  {
  }

  lemma {:induction false} CirclesTogether(t: Table, pass: Pass, n: nat)
    requires pass.Complete() && n <= |pass.circles|
    ensures AfterCircles(t, pass, n) == Pruned(t, CircleRules(pass, n))
  {
    if n == 0 {
      PruneByNothing(t);
    } else {
      CirclesTogether(t, pass, n - 1);
      if pass.circleFails[n - 1] {
        assert CircleRules(pass, n) == CircleRules(pass, n - 1);
      } else {
        PruneThenPrune(t, CircleRules(pass, n - 1), [RuleOf(pass, n - 1)]);
      }
    }
  }

  function PruneRules(pass: Pass, pingHours: int): seq<Rule>
    requires pass.Complete()
  {
    (if pass.staleFails then [] else [Rule(None, pass.staleNow - pingHours * HOUR)])
      + if pass.listFails then [] else CircleRules(pass, |pass.circles|)
  }

  function AfterHorizon(t: Table, pass: Pass, maxDays: int): Table {
    if pass.horizonFails then t else Since(t, pass.now - maxDays * DAY)
  }

  /** The table after one pass: the horizon, then one deletion with every rule that went through. */
  function AfterPass(t: Table, pass: Pass, maxDays: int, pingHours: int): Table
    requires pass.Complete()
  {
    Pruned(AfterHorizon(t, pass, maxDays), PruneRules(pass, pingHours))
  }

  function AfterPasses(t: Table, passes: seq<Pass>, maxDays: int, pingHours: int): Table
    requires forall p <- passes :: p.Complete()
  {
    if passes == [] then t
    else AfterPass(AfterPasses(t, passes[..|passes| - 1], maxDays, pingHours), Last(passes), maxDays, pingHours)
  }

  function AfterStale(t: Table, pass: Pass, pingHours: int): Table {
    if pass.staleFails then t else Pruned(t, [Rule(None, pass.staleNow - pingHours * HOUR)])
  }

  lemma StepsTogether(t: Table, pass: Pass, pingHours: int)
    requires pass.Complete()
    ensures var u := AfterStale(t, pass, pingHours);
      Pruned(t, PruneRules(pass, pingHours)) == if pass.listFails then u else AfterCircles(u, pass, |pass.circles|)
  {
    var u := AfterStale(t, pass, pingHours);
    var a := if pass.staleFails then [] else [Rule(None, pass.staleNow - pingHours * HOUR)];
    var b := if pass.listFails then [] else CircleRules(pass, |pass.circles|);
    assert u == Pruned(t, a) by { PruneByNothing(t); }
    assert Pruned(u, b) == if pass.listFails then u else AfterCircles(u, pass, |pass.circles|) by {
      PruneByNothing(u);
      CirclesTogether(u, pass, |pass.circles|);
    }
    PruneThenPrune(t, a, b);
  }

  class Store {
    var pings: Table

    constructor (rows: Table)
      ensures pings == rows
    {
      pings := rows;
    }

    /** One row judged against what is left. */
    method DeleteIfSuperseded(rule: Rule, id: Id) returns (n: nat)
      modifies this`pings
      ensures pings == Visit(old(pings), [rule], id) && n == |old(pings)| - |pings|
    {
      n := 0;
      if id in pings && Covers(rule, pings[id]) && Superseded(pings, pings[id]) {
        assert Hit([rule], pings[id]) by { assert rule in [rule]; }
        assert pings.Keys - {id} == (pings - {id}).Keys;
        pings := pings - {id};
        n := 1;
      }
    }

    /** Rows go one at a time, in no particular order, each judged against what is left. */
    method DeleteSuperseded(rule: Rule) returns (n: nat)
      modifies this`pings
      ensures pings == Pruned(old(pings), [rule])
      ensures n == |old(pings)| - |pings|
    {
      n := 0;
      var todo := pings.Keys;
      ghost var visited: set<Id> := {};
      while todo != {}
        invariant visited + todo == old(pings).Keys
        invariant pings == Without(old(pings), [rule], visited)
        invariant n == |old(pings)| - |pings|
      {
        var id :| id in todo;
        VisitIs(old(pings), [rule], visited, id);
        var deleted := DeleteIfSuperseded(rule, id);
        n := n + deleted;
        visited, todo := visited + {id}, todo - {id};
      }
    }

    method PruneAllPingsBefore(cutoff: Time, fails: bool) returns (r: Deleted)
      modifies this`pings
      ensures fails ==> r == Err(Unavailable) && pings == old(pings)
      ensures !fails ==> r == Ok(|old(pings)| - |pings|) && pings == Since(old(pings), cutoff)
    {
      if fails { return Err(Unavailable); }
      var n, todo := 0, pings.Keys;
      while todo != {}
        invariant todo <= pings.Keys && todo <= old(pings).Keys
        invariant pings == map id | id in old(pings) && (id in todo || old(pings)[id].captured >= cutoff) :: old(pings)[id]
        invariant n == |old(pings)| - |pings|
      {
        var id :| id in todo;
        if pings[id].captured < cutoff {
          assert pings.Keys - {id} == (pings - {id}).Keys;
          pings := pings - {id};
          n := n + 1;
        }
        todo := todo - {id};
      }
      r := Ok(n);
    }

    method PruneStalePings(keepHours: int, now: Time, fails: bool) returns (r: Deleted)
      modifies this`pings
      ensures fails ==> r == Err(Unavailable) && pings == old(pings)
      ensures !fails ==> r == Ok(|old(pings)| - |pings|) && pings == Pruned(old(pings), [Rule(None, now - keepHours * HOUR)])
    {
      if fails { return Err(Unavailable); }
      var n := DeleteSuperseded(Rule(None, now - keepHours * HOUR));
      r := Ok(n);
    }

    method DeleteExpiredPingsForCircle(c: CircleRetention, now: Time, fails: bool) returns (r: Deleted)
      modifies this`pings
      ensures fails ==> r == Err(Unavailable) && pings == old(pings)
      ensures !fails ==> r == Ok(|old(pings)| - |pings|)
                         && pings == Pruned(old(pings), [Rule(Some(c.id), now - c.retentionDays * DAY)])
    {
      if fails { return Err(Unavailable); }
      var n := DeleteSuperseded(Rule(Some(c.id), now - c.retentionDays * DAY));
      r := Ok(n);
    }
  }

  class Worker {
    const store: Store
    const maxRetentionDays: int
    const pingRetentionHours: int

    constructor (store: Store, maxRetentionDays: int, pingHours: int)
      ensures this.store == store && this.maxRetentionDays == maxRetentionDays
      ensures pingRetentionHours == if pingHours <= 0 then DEFAULT_PING_RETENTION_HOURS else pingHours
    {
      this.store := store;
      this.maxRetentionDays := maxRetentionDays;
      pingRetentionHours := if pingHours <= 0 then DEFAULT_PING_RETENTION_HOURS else pingHours;
    }

    /** A circle whose deletion fails is skipped; the others go on. */
    method DeleteExpiredPings(pass: Pass) returns (total: Deleted)
      requires pass.Complete()
      modifies store`pings
      ensures total.Err? <==> pass.listFails
      ensures total.Ok? ==> total.value == |old(store.pings)| - |store.pings|
      ensures store.pings == if pass.listFails then old(store.pings) else AfterCircles(old(store.pings), pass, |pass.circles|)
    {
      if pass.listFails { return Err(Unavailable); }
      var sum := 0;
      for i := 0 to |pass.circles|
        invariant store.pings == AfterCircles(old(store.pings), pass, i)
        invariant sum == |old(store.pings)| - |store.pings|
      {
        var r := store.DeleteExpiredPingsForCircle(pass.circles[i], pass.circleNow[i], pass.circleFails[i]);
        match r
        case Ok(n) => sum := sum + n;
        case Err(_) =>
      }
      total := Ok(sum);
    }

    /** Steps 1 to 4 of a pass on SQLite; a failing step does not stop the following ones. */
    method RunOnce(pass: Pass)
      requires pass.Complete()
      modifies store`pings
      ensures store.pings == AfterPass(old(store.pings), pass, maxRetentionDays, pingRetentionHours)
    {
      var horizon := pass.now - maxRetentionDays * DAY;
      var _ := store.PruneAllPingsBefore(horizon, pass.horizonFails);
      ghost var t := store.pings;
      assert t == AfterHorizon(old(store.pings), pass, maxRetentionDays);
      var _ := store.PruneStalePings(pingRetentionHours, pass.staleNow, pass.staleFails);
      var _ := DeleteExpiredPings(pass);
      StepsTogether(t, pass, pingRetentionHours);
    }
  }

  // ---------------------------------------------------------------- what many passes do to the map

  lemma PassKeepsNewest(t: Table, pass: Pass, maxDays: int, pingHours: int, c: Circle, d: Device, n: Id)
    requires pass.Complete() && IsNewest(t, c, d, n)
    ensures Present(AfterPass(t, pass, maxDays, pingHours), c, d)
       <==> pass.horizonFails || t[n].captured >= pass.now - maxDays * DAY
    ensures (pass.horizonFails || t[n].captured >= pass.now - maxDays * DAY) ==>
      forall id :: IsNewest(t, c, d, id) <==> IsNewest(AfterPass(t, pass, maxDays, pingHours), c, d, id)
  {
    var u := AfterHorizon(t, pass, maxDays);
    if !pass.horizonFails { HorizonForTheReader(t, pass.now - maxDays * DAY, c, d, n); }
    PrunedThins(u, PruneRules(pass, pingHours));
    ThinnedKeepsNewest(u, Pruned(u, PruneRules(pass, pingHours)), c, d);
  }

  /**
    However many passes run, with whatever failures, a device whose newest ping is inside the horizon each
    time keeps exactly its newest rows, however old they are against the shorter windows.
  */
  lemma {:induction false} PassesKeepNewest(t: Table, passes: seq<Pass>, maxDays: int, pingHours: int, c: Circle, d: Device, n: Id)
    requires (forall p <- passes :: p.Complete()) && IsNewest(t, c, d, n)
    requires forall p <- passes :: t[n].captured >= p.now - maxDays * DAY
    ensures forall id :: IsNewest(t, c, d, id) <==> IsNewest(AfterPasses(t, passes, maxDays, pingHours), c, d, id)
    ensures n in AfterPasses(t, passes, maxDays, pingHours) && AfterPasses(t, passes, maxDays, pingHours)[n] == t[n]
  {
    if passes != [] {
      var before := passes[..|passes| - 1];
      PassesKeepNewest(t, before, maxDays, pingHours, c, d, n);
      PassKeepsNewest(AfterPasses(t, before, maxDays, pingHours), Last(passes), maxDays, pingHours, c, d, n);
    }
  }

  /** A device that leaves the map leaves it at a pass whose horizon is past its newest ping, and only then. */
  lemma LeavesOnlyPastTheHorizon(t: Table, pass: Pass, maxDays: int, pingHours: int, c: Circle, d: Device)
    requires pass.Complete() && Present(t, c, d)
    ensures !Present(AfterPass(t, pass, maxDays, pingHours), c, d)
       <==> !pass.horizonFails
            && forall id <- t :: t[id].circle == c && t[id].device == d ==> t[id].captured < pass.now - maxDays * DAY
  {
    var n := NewestExists(t, c, d);
    PassKeepsNewest(t, pass, maxDays, pingHours, c, d, n);
    assert forall id <- t :: SameDevice(t[n], t[id]) ==> t[id].captured <= t[n].captured by {
      assert forall id <- t :: !Newer(t[id], t[n]);
    }
  }

  // ---------------------------------------------------------------- which row a pass leaves

  predicate NoFailure(pass: Pass)
    requires pass.Complete()
  {
    !pass.horizonFails && !pass.staleFails && !pass.listFails && forall i | 0 <= i < |pass.circles| :: !pass.circleFails[i]
  }

  /** No other ping of the same circle and device is newer. */
  ghost predicate NewestOfItsDevice(t: Table, p: Ping) {
    forall n <- t :: t[n].circle == p.circle && t[n].device == p.device ==> t[n].captured <= p.captured
  }

  /** The ping is older than the ping window, or than the retention of its circle. */
  ghost predicate PastItsTime(pass: Pass, pingHours: int, p: Ping)
    requires pass.Complete()
  {
    || p.captured < pass.staleNow - pingHours * 3_600_000_000_000
    || exists i | 0 <= i < |pass.circles| ::
         pass.circles[i].id == p.circle && p.captured < pass.circleNow[i] - pass.circles[i].retentionDays * 86_400_000_000_000
  }

  lemma {:induction false} CircleRulesAre(pass: Pass, n: nat, r: Rule)
    requires pass.Complete() && n <= |pass.circles| && forall i | 0 <= i < n :: !pass.circleFails[i]
    ensures r in CircleRules(pass, n) <==> exists i | 0 <= i < n :: r == RuleOf(pass, i)
  {
    if n > 0 { CircleRulesAre(pass, n - 1, r); }
  }

  lemma HitIs(pass: Pass, pingHours: int, p: Ping)
    requires pass.Complete() && NoFailure(pass)
    ensures Hit(PruneRules(pass, pingHours), p) <==> PastItsTime(pass, pingHours, p)
  {
    var rules, stale := PruneRules(pass, pingHours), Rule(None, pass.staleNow - pingHours * HOUR);
    assert forall r :: r in rules <==> r == stale || r in CircleRules(pass, |pass.circles|);
    if Hit(rules, p) {
      var r :| r in rules && Covers(r, p);
      if r != stale {
        CircleRulesAre(pass, |pass.circles|, r);
        var i :| 0 <= i < |pass.circles| && r == RuleOf(pass, i);
      }
    }
    if PastItsTime(pass, pingHours, p) && !(p.captured < stale.cutoff) {
      var i :| 0 <= i < |pass.circles| && pass.circles[i].id == p.circle
        && p.captured < pass.circleNow[i] - pass.circles[i].retentionDays * 86_400_000_000_000;
      CircleRulesAre(pass, |pass.circles|, RuleOf(pass, i));
      assert Covers(RuleOf(pass, i), p) && RuleOf(pass, i) in rules;
    }
    if p.captured < stale.cutoff { assert Covers(stale, p) && stale in rules; }
  }

  /**
    After a pass without failures exactly these rows are left: those inside the horizon that are the newest
    of their device in their circle, or neither older than the ping window nor than their circle's retention.
  */
  lemma RowLeft(t: Table, pass: Pass, maxDays: int, pingHours: int, id: Id)
    requires pass.Complete() && NoFailure(pass)
    ensures id in AfterPass(t, pass, maxDays, pingHours)
       <==> id in t && t[id].captured >= pass.now - maxDays * 86_400_000_000_000
            && (NewestOfItsDevice(t, t[id]) || !PastItsTime(pass, pingHours, t[id]))
    ensures id in AfterPass(t, pass, maxDays, pingHours) ==> AfterPass(t, pass, maxDays, pingHours)[id] == t[id]
  {
    if id in t {
      var horizon := pass.now - maxDays * DAY;
      var u := Since(t, horizon);
      HitIs(pass, pingHours, t[id]);
      if t[id].captured >= horizon {
        assert Superseded(u, t[id]) <==> !NewestOfItsDevice(t, t[id]) by {
          if !NewestOfItsDevice(t, t[id]) {
            var n :| n in t && t[n].circle == t[id].circle && t[n].device == t[id].device && t[n].captured > t[id].captured;
            assert n in u && Newer(u[n], t[id]);
          }
        }
      }
    }
  }
}
