/** Admission control of the hub: connection counts guarded by a mutex (server/internal/realtime/hub.go). */
module HubAdmission {
  import opened Prelude

  type UserId = nat

  const DEFAULT_MAX_PER_USER := 10
  const DEFAULT_MAX_TOTAL := 10000

  /** A missing key of `perUser` reads as zero, as in Go. */
  datatype Counts = Counts(total: int, perUser: map<UserId, int>, maxPerUser: int, maxTotal: int)
  {
    function Of(u: UserId): int { if u in perUser then perUser[u] else 0 }
  }

  class ConnLimits {
    var totalConns: int
    var perUser: map<UserId, int>
    var maxPerUser: int
    var maxTotal: int

    function View(): Counts
      reads this
    {
      Counts(totalConns, perUser, maxPerUser, maxTotal)
    }

    constructor ()
      ensures View() == Counts(0, map[], DEFAULT_MAX_PER_USER, DEFAULT_MAX_TOTAL)
    {
      totalConns, perUser, maxPerUser, maxTotal := 0, map[], DEFAULT_MAX_PER_USER, DEFAULT_MAX_TOTAL;
    }

    method SetConnLimits(forUser: int, total: int)
      modifies this`maxPerUser, this`maxTotal
      ensures maxPerUser == if forUser > 0 then forUser else old(maxPerUser)
      ensures maxTotal == if total > 0 then total else old(maxTotal)
    {
      if forUser > 0 {
        maxPerUser := forUser;
      }
      if total > 0 {
        maxTotal := total;
      }
    }

    method Admit(u: UserId) returns (ok: bool)
      modifies this`totalConns, this`perUser
      ensures ok <==> View() != old(View())
      ensures View() == Next(old(View()), AdmitStep(u))
    {
      if totalConns >= maxTotal || (if u in perUser then perUser[u] else 0) >= maxPerUser {
        return false;
      }
      totalConns := totalConns + 1;
      perUser := perUser[u := (if u in perUser then perUser[u] else 0) + 1];
      return true;
    }

    method Release(u: UserId)
      modifies this`totalConns, this`perUser
      ensures View() == Next(old(View()), ReleaseStep(u))
    {
      if totalConns > 0 {
        totalConns := totalConns - 1;
      }
      if u in perUser && perUser[u] > 0 {
        perUser := perUser[u := perUser[u] - 1];
        if perUser[u] == 0 {
          perUser := perUser - {u};
        }
      }
    }
  }

  datatype Step = AdmitStep(u: UserId) | ReleaseStep(u: UserId)

  predicate CanAdmit(s: Counts, u: UserId) {
    s.total < s.maxTotal && s.Of(u) < s.maxPerUser
  }

  function Next(s: Counts, step: Step): Counts {
    match step
    case AdmitStep(u) =>
      if CanAdmit(s, u) then s.(total := s.total + 1, perUser := s.perUser[u := s.Of(u) + 1]) else s
    case ReleaseStep(u) =>
      s.(total := if s.total > 0 then s.total - 1 else s.total,
         perUser := if s.Of(u) <= 0 then s.perUser
                    else if s.Of(u) == 1 then s.perUser - {u}
                    else s.perUser[u := s.Of(u) - 1])
  }

  function Exec(start: Counts, run: seq<Step>): Counts {
    if run == [] then start else Next(Exec(start, run[..|run| - 1]), Last(run))
  }

  /** Slots of `u` taken in the run, by admits that changed the counts, and not given back yet. */
  function Held(start: Counts, run: seq<Step>, u: UserId): int {
    if run == [] then 0 else
    var before := run[..|run| - 1];
    Held(start, before, u) +
      match Last(run)
      case AdmitStep(v) => if u == v && Next(Exec(start, before), Last(run)) != Exec(start, before) then 1 else 0
      case ReleaseStep(v) => if u == v then -1 else 0
  }

  /** The slots of all users together. */
  function HeldByAll(start: Counts, run: seq<Step>): int {
    if run == [] then 0 else
    var before := run[..|run| - 1];
    HeldByAll(start, before) + if Last(run).ReleaseStep? then -1 else if Exec(start, run) != Exec(start, before) then 1 else 0
  }

  /** Every Release gives back a slot that an earlier successful Admit of the same user took. */
  ghost predicate Matched(start: Counts, run: seq<Step>) {
    run != [] ==>
      var before := run[..|run| - 1];
      Matched(start, before) && (Last(run).ReleaseStep? ==> Held(start, before, Last(run).u) > 0)
  }

  ghost function Sum(m: map<UserId, int>): int
    decreases |m|
  {
    if m == map[] then 0 else
    var u :| u in m;
    m[u] + Sum(m - {u})
  }

  lemma {:induction false} SumWithout(m: map<UserId, int>, u: UserId)
    requires u in m
    ensures Sum(m) == m[u] + Sum(m - {u})
    decreases |m|
  {
    var v :| v in m && Sum(m) == m[v] + Sum(m - {v});
    if v != u {
      SumWithout(m - {v}, u);
      SumWithout(m - {u}, v);
      assert (m - {v}) - {u} == (m - {u}) - {v};
    }
  }

  lemma SumUpdate(m: map<UserId, int>, u: UserId, n: int)
    ensures Sum(m[u := n]) == Sum(m) - (if u in m then m[u] else 0) + n
  {
    SumWithout(m[u := n], u);
    if u in m {
      SumWithout(m, u);
      assert m[u := n] - {u} == m - {u};
    } else {
      assert m[u := n] - {u} == m;
    }
  }

  ghost predicate Consistent(s: Counts) {
    s.total == Sum(s.perUser) && forall u <- s.perUser :: s.perUser[u] > 0
  }

  lemma {:induction false} SumBound(m: map<UserId, int>)
    requires forall u <- m :: m[u] > 0
    ensures Sum(m) >= 0
    ensures forall u <- m :: m[u] <= Sum(m)
    decreases |m|
  {
    if m != map[] {
      forall u <- m ensures m[u] <= Sum(m) && Sum(m) >= 0 {
        SumWithout(m, u);
        SumBound(m - {u});
      }
      var u :| u in m;
      assert m[u] <= Sum(m);
    }
  }

  /** One release keeps "total is the sum of the counts" exactly when the user holds a slot or none are held. */
  lemma ReleaseKeepsSum(s: Counts, u: UserId)
    requires Consistent(s)
    ensures Consistent(Next(s, ReleaseStep(u))) <==> s.Of(u) > 0 || s.total == 0
  {
    SumBound(s.perUser);
    if u in s.perUser {
      SumUpdate(s.perUser, u, s.Of(u) - 1);
      SumWithout(s.perUser, u);
    }
  }

  /**
    In every run of matched Admit and Release under fixed limits: each user's count is the number of
    slots that user holds, the total is their sum, and neither ceiling is ever exceeded.
  */
  lemma {:induction false} CeilingsHold(start: Counts, run: seq<Step>, u: UserId)
    requires start.total == 0 && start.perUser == map[] && start.maxPerUser >= 0 && start.maxTotal >= 0
    requires Matched(start, run)
    ensures var s := Exec(start, run);
      && Consistent(s)
      && s.Of(u) == Held(start, run, u)
      && 0 <= s.Of(u) <= s.maxPerUser == start.maxPerUser
      && 0 <= s.total <= s.maxTotal == start.maxTotal
  {
    if run != [] {
      var before, step := run[..|run| - 1], Last(run);
      var s := Exec(start, before);
      CeilingsHold(start, before, u);
      CeilingsHold(start, before, step.u);
      SumUpdate(s.perUser, step.u, s.Of(step.u) + 1);
      SumBound(s.perUser);
      if step.ReleaseStep? {
        ReleaseKeepsSum(s, step.u);
      }
    }
  }

  lemma {:induction false} TotalIsHeld(start: Counts, run: seq<Step>, u: UserId)
    requires start.total == 0 && start.perUser == map[] && start.maxPerUser >= 0 && start.maxTotal >= 0
    requires Matched(start, run)
    ensures Exec(start, run).total == HeldByAll(start, run)
  {
    if run != [] {
      var before := run[..|run| - 1];
      TotalIsHeld(start, before, u);
      CeilingsHold(start, before, Last(run).u);
      SumBound(Exec(start, before).perUser);
    }
  }

  /**
    After every matched run, an Admit gives a slot exactly when its user holds fewer than the limit per user
    and all users together fewer than the limit in total.
  */
  lemma AdmitsExactly(start: Counts, run: seq<Step>, u: UserId)
    requires start.total == 0 && start.perUser == map[] && start.maxPerUser >= 0 && start.maxTotal >= 0
    requires Matched(start, run)
    ensures var s := Exec(start, run);
      Next(s, AdmitStep(u)) != s <==> Held(start, run, u) < start.maxPerUser && HeldByAll(start, run) < start.maxTotal
  {
    CeilingsHold(start, run, u);
    TotalIsHeld(start, run, u);
  }
}
