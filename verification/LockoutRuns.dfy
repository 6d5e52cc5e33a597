/** What the lockout guarantees over whole runs of logins and prunes. */
module LockoutRuns {
  import opened Arithmetic
  import opened Prelude
  import opened Lockout

  // ---------------------------------------------------------------- counting facts

  lemma {:induction false} LaterBoundCountsLess(t: Attempts, email: string, ip: string, a: int, b: int)
    requires a <= b
    ensures EmailFailures(t, email, b) <= EmailFailures(t, email, a)
    ensures IpFailures(t, ip, b) <= IpFailures(t, ip, a)
  {
    if t != [] { LaterBoundCountsLess(t[..|t| - 1], email, ip, a, b); }
  }

  /** A table on which time goes by counts no more. */
  lemma TimeOnlyForgets(t: Attempts, email: string, ip: string, window: int, now: int, later: int)
    requires now <= later
    ensures EmailCount(t, email, window, later) <= EmailCount(t, email, window, now)
    ensures IpCount(t, ip, window, later) <= IpCount(t, ip, window, now)
  {
    LaterBoundCountsLess(t, email, ip, Max(now - window, LastSuccess(t, email)), Max(later - window, LastSuccess(t, email)));
    LaterBoundCountsLess(t, email, ip, now - window, later - window);
  }

  /** One row more counts for its own failures only; a success only takes away. */
  lemma OneRowMore(t: Attempts, a: Attempt, email: string, ip: string, window: int, now: int)
    ensures EmailCount(t + [a], email, window, now)
         <= EmailCount(t, email, window, now) + if a.email == email && !a.success then 1 else 0
    ensures IpCount(t + [a], ip, window, now)
         <= IpCount(t, ip, window, now) + if a.ip == Some(ip) && !a.success then 1 else 0
  {
    assert (t + [a])[..|t|] == t;
    LaterBoundCountsLess(t, email, ip, Max(now - window, LastSuccess(t, email)), Max(now - window, LastSuccess(t + [a], email)));
  }

  // ---------------------------------------------------------------- thresholds

  predicate Under(p: Policy, t: Attempts, email: string, ip: string, now: int) {
    EmailCount(t, email, p.window, now) <= Max(p.emailThreshold, 0) && IpCount(t, ip, p.window, now) <= Max(p.ipThreshold, 0)
  }

  ghost predicate UnderThresholds(p: Policy, t: Attempts, from: int) {
    forall email, ip, now: int | now >= from :: Under(p, t, email, ip, now)
  }

  lemma LoginStaysUnder(p: Policy, storeIP: bool, t: Attempts, l: Login, from: int)
    requires UnderThresholds(p, t, from) && from <= l.checkAt <= l.recordAt
    ensures UnderThresholds(p, AfterLogin(p, storeIP, t, l), l.recordAt)
  {
    var u := AfterLogin(p, storeIP, t, l);
    forall email, ip, now: int | now >= l.recordAt ensures Under(p, u, email, ip, now) {
      assert Under(p, t, email, ip, now);
      if u != t {
        TimeOnlyForgets(t, email, ip, p.window, l.checkAt, now);
        OneRowMore(t, Last(u), email, ip, p.window, now);
        assert u == t + [Last(u)];
      }
    }
  }

  datatype Op = LoginOp(l: Login) | PruneOp(at: Time)

  function Starts(op: Op): Time { match op case LoginOp(l) => l.checkAt case PruneOp(at) => at }

  function Ends(op: Op): Time { match op case LoginOp(l) => l.recordAt case PruneOp(at) => at }

  /** One login after the other, with prunes in between. */
  ghost predicate Sequential(ops: seq<Op>) {
    && (forall op <- ops :: Starts(op) <= Ends(op))
    && (forall i, j | 0 <= i < j < |ops| :: Ends(ops[i]) <= Starts(ops[j]))
  }

  function Apply(p: Policy, storeIP: bool, t: Attempts, op: Op, pruning: bool): Attempts {
    match op
    case LoginOp(l) => AfterLogin(p, storeIP, t, l)
    case PruneOp(at) => if pruning then Kept(t, at - DAY) else t
  }

  /** The table after a run; without pruning, prunes do nothing. */
  function Exec(p: Policy, storeIP: bool, ops: seq<Op>, pruning: bool): Attempts {
    if ops == [] then [] else Apply(p, storeIP, Exec(p, storeIP, ops[..|ops| - 1], pruning), Last(ops), pruning)
  }

  function End(ops: seq<Op>): int { if ops == [] then 1 else Ends(Last(ops)) }

  lemma EndsInOrder(ops: seq<Op>)
    requires Sequential(ops) && ops != []
    ensures Sequential(ops[..|ops| - 1]) && End(ops[..|ops| - 1]) <= Starts(Last(ops)) <= End(ops)
  {
    if |ops| > 1 { assert Ends(ops[|ops| - 2]) <= Starts(ops[|ops| - 1]); }
    assert Last(ops) in ops;
    assert forall op <- ops[..|ops| - 1] :: op in ops;
  }

  lemma {:induction false} CountsStayUnder(p: Policy, storeIP: bool, ops: seq<Op>)
    requires Sequential(ops)
    ensures UnderThresholds(p, Exec(p, storeIP, ops, false), End(ops))
  {
    if ops != [] {
      var before := ops[..|ops| - 1];
      EndsInOrder(ops);
      CountsStayUnder(p, storeIP, before);
      match Last(ops)
      case LoginOp(l) => LoginStaysUnder(p, storeIP, Exec(p, storeIP, before, false), l, End(before));
      case PruneOp(_) =>
    }
  }

  // ---------------------------------------------------------------- pruning is invisible

  lemma {:induction false} KeptCounts(t: Attempts, email: string, ip: string, from: int, since: int)
    requires since >= from - 1
    ensures EmailFailures(Kept(t, from), email, since) == EmailFailures(t, email, since)
    ensures IpFailures(Kept(t, from), ip, since) == IpFailures(t, ip, since)
  {
    if t != [] {
      var before := t[..|t| - 1];
      KeptCounts(before, email, ip, from, since);
      assert (Kept(before, from) + [Last(t)])[..|Kept(before, from)|] == Kept(before, from);
    }
  }

  /** Pruning can lose a success only if it is older than everything that could still count. */
  lemma {:induction false} KeptSuccess(t: Attempts, email: string, from: int)
    ensures LastSuccess(Kept(t, from), email) <= LastSuccess(t, email)
    ensures LastSuccess(t, email) >= from ==> LastSuccess(Kept(t, from), email) == LastSuccess(t, email)
  {
    if t != [] {
      var before := t[..|t| - 1];
      KeptSuccess(before, email, from);
      assert (Kept(before, from) + [Last(t)])[..|Kept(before, from)|] == Kept(before, from);
    }
  }

  lemma PruneKeepsCounts(t: Attempts, email: string, ip: string, window: int, from: int, now: int)
    requires now - window >= from - 1
    ensures EmailCount(Kept(t, from), email, window, now) == EmailCount(t, email, window, now)
    ensures IpCount(Kept(t, from), ip, window, now) == IpCount(t, ip, window, now)
  {
    KeptSuccess(t, email, from);
    KeptCounts(t, email, ip, from, Max(now - window, LastSuccess(t, email)));
    KeptCounts(t, email, ip, from, now - window);
  }

  function PrunedAt(t: Attempts, at: Time): Attempts { Kept(t, at - DAY) }

  ghost predicate PruneInvisible(window: int) {
    forall t: Attempts, email, ip, at: Time, now: Time | now >= at :: SameCounts(t, PrunedAt(t, at), email, ip, window, now)
  }

  predicate SameCounts(t: Attempts, u: Attempts, email: string, ip: string, window: int, now: Time) {
    EmailCount(u, email, window, now) == EmailCount(t, email, window, now) && IpCount(u, ip, window, now) == IpCount(t, ip, window, now)
  }

  lemma LongWindowShows(window: int)
    requires window > DAY + 1
    ensures !PruneInvisible(window)
  {
    var at: Time := DAY + 2;
    var row := Attempt("a", None, false, at - DAY - 1);
    var t := [row];
    assert t[..|t| - 1] == [];
    assert LastSuccess(t, "a") == 0;
    assert EmailFailures(t, "a", Max(at - window, 0)) == 1;
    assert Kept(t, at - DAY) == [];
    assert !SameCounts(t, PrunedAt(t, at), "a", "", window, at);
  }

  /** A one-day prune changes no later count, of any table, exactly when the window is at most a day (and a tick). */
  lemma PruneInvisibleIff(window: int)
    ensures PruneInvisible(window) <==> window <= DAY + 1
  {
    if window <= DAY + 1 {
      forall t: Attempts, email, ip, at: Time, now: Time | now >= at ensures SameCounts(t, PrunedAt(t, at), email, ip, window, now) {
        PruneKeepsCounts(t, email, ip, window, at - DAY, now);
      }
    } else {
      LongWindowShows(window);
    }
  }

  lemma {:induction false} KeptTwice(t: Attempts, a: int, b: int)
    requires a <= b
    ensures Kept(Kept(t, a), b) == Kept(t, b)
  {
    if t != [] {
      var before := t[..|t| - 1];
      KeptTwice(before, a, b);
      assert (Kept(before, a) + [Last(t)])[..|Kept(before, a)|] == Kept(before, a);
    }
  }

  lemma KeptRecorded(t: Attempts, a: Attempt, from: int)
    requires a.at >= from
    ensures Kept(t + [a], from) == Kept(t, from) + [a]
  {
    assert (t + [a])[..|t|] == t;
  }

  lemma {:induction false} KeptAll(t: Attempts, from: int)
    requires from <= 0
    ensures Kept(t, from) == t
  {
    if t != [] { KeptAll(t[..|t| - 1], from); }
  }

  lemma SameCheck(p: Policy, t: Attempts, from: int, email: string, ip: string, now: Time)
    requires now - p.window >= from - 1
    ensures Check(p, Kept(t, from), email, ip, now) == Check(p, t, email, ip, now)
  {
    PruneKeepsCounts(t, email, ip, p.window, from, now);
  }

  /** A bound for the cut that no check from `now` on can see across. */
  predicate Behind(from: int, now: int) { from <= 0 || from <= now - DAY }

  lemma CutIsUnseen(p: Policy, t: Attempts, from: int, email: string, ip: string, now: Time)
    requires p.window <= DAY && Behind(from, now)
    ensures Check(p, Kept(t, from), email, ip, now) == Check(p, t, email, ip, now)
    ensures EmailCount(Kept(t, from), email, p.window, now) == EmailCount(t, email, p.window, now)
    ensures IpCount(Kept(t, from), ip, p.window, now) == IpCount(t, ip, p.window, now)
  {
    if from <= 0 { KeptAll(t, from); } else {
      SameCheck(p, t, from, email, ip, now);
      PruneKeepsCounts(t, email, ip, p.window, from, now);
    }
  }

  lemma CutOnce(t: Attempts, a: int, b: int)
    ensures Kept(Kept(t, a), b) == Kept(t, Max(a, b))
  {
    if a <= b { KeptTwice(t, a, b); } else { KeptAgain(t, a, b); }
  }

  lemma {:induction false} KeptAgain(t: Attempts, a: int, b: int)
    requires b <= a
    ensures Kept(Kept(t, a), b) == Kept(t, a)
  {
    if t != [] {
      var before := t[..|t| - 1];
      KeptAgain(before, a, b);
      assert (Kept(before, a) + [Last(t)])[..|Kept(before, a)|] == Kept(before, a);
    }
  }

  lemma OneOpCut(p: Policy, storeIP: bool, t: Attempts, from: int, op: Op) returns (cut: int)
    requires p.window <= DAY && Starts(op) <= Ends(op) && Behind(from, Starts(op))
    ensures Behind(cut, Ends(op))
    ensures Apply(p, storeIP, Kept(t, from), op, true) == Kept(Apply(p, storeIP, t, op, false), cut)
  {
    match op
    case LoginOp(l) =>
      cut := from;
      CutIsUnseen(p, t, from, l.email, l.ip, l.checkAt);
      LoginCut(p, storeIP, t, l, from);
    case PruneOp(at) =>
      cut := Max(from, at - DAY);
      CutOnce(t, from, at - DAY);
  }

  /** The pruned table is the full one cut at some bound that no later check can see across. */
  lemma {:induction false} PrunedIsCut(p: Policy, storeIP: bool, ops: seq<Op>) returns (from: int)
    requires Sequential(ops) && p.window <= DAY
    ensures Behind(from, End(ops))
    ensures Exec(p, storeIP, ops, true) == Kept(Exec(p, storeIP, ops, false), from)
  {
    from := 0;
    if ops != [] {
      var before := ops[..|ops| - 1];
      EndsInOrder(ops);
      from := PrunedIsCut(p, storeIP, before);
      from := OneOpCut(p, storeIP, Exec(p, storeIP, before, false), from, Last(ops));
    }
  }

  lemma LoginCut(p: Policy, storeIP: bool, t: Attempts, l: Login, from: int)
    requires Check(p, Kept(t, from), l.email, l.ip, l.checkAt) == Check(p, t, l.email, l.ip, l.checkAt) && l.recordAt >= from
    requires EmailCount(Kept(t, from), l.email, p.window, l.checkAt) == EmailCount(t, l.email, p.window, l.checkAt)
    ensures AfterLogin(p, storeIP, Kept(t, from), l) == Kept(AfterLogin(p, storeIP, t, l), from)
  {
    var u := AfterLogin(p, storeIP, t, l);
    if u != t { KeptRecorded(t, Last(u), from); }
  }

  /** Pruning never changes a lockout decision: every later check answers as if nothing had been deleted. */
  lemma PruningChangesNoDecision(p: Policy, storeIP: bool, ops: seq<Op>, email: string, ip: string, now: Time)
    requires Sequential(ops) && p.window <= DAY && now >= End(ops)
    ensures Check(p, Exec(p, storeIP, ops, true), email, ip, now) == Check(p, Exec(p, storeIP, ops, false), email, ip, now)
  {
    var from := PrunedIsCut(p, storeIP, ops);
    var t := Exec(p, storeIP, ops, false);
    CutIsUnseen(p, t, from, email, ip, now);
  }

  /**
    Over sequential logins, at every instant an email's counted failures and an address's counted failures
    are at most their thresholds, pruning or not; so a lock for the account always asks for the first backoff.
  */
  lemma ThresholdsHold(p: Policy, storeIP: bool, ops: seq<Op>, email: string, ip: string, now: Time)
    requires Sequential(ops) && p.window <= DAY && now >= End(ops)
    ensures EmailCount(Exec(p, storeIP, ops, true), email, p.window, now) <= Max(p.emailThreshold, 0)
    ensures IpCount(Exec(p, storeIP, ops, true), ip, p.window, now) <= Max(p.ipThreshold, 0)
  {
    var from := PrunedIsCut(p, storeIP, ops);
    CountsStayUnder(p, storeIP, ops);
    assert Under(p, Exec(p, storeIP, ops, false), email, ip, now);
    var t := Exec(p, storeIP, ops, false);
    CutIsUnseen(p, t, from, email, ip, now);
  }

  /** With positive thresholds, Retry-After never escalates in sequential runs: every lock asks for the first backoff. */
  lemma RetryAfterNeverEscalates(p: Policy, storeIP: bool, ops: seq<Op>, email: string, ip: string, now: Time)
    requires Sequential(ops) && p.window <= DAY && now >= End(ops) && p.emailThreshold >= 0 && p.ipThreshold >= 0
    ensures var s := Check(p, Exec(p, storeIP, ops, true), email, ip, now);
      s.Locked? ==> s.retryAfter == Backoff(p, 1)
  {
    ThresholdsHold(p, storeIP, ops, email, ip, now);
  }
}
