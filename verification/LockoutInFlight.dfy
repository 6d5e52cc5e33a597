/**
  Logins whose check and record other logins come between: the exact bound on the counts by the number of
  logins in flight.
*/
module LockoutInFlight {
  import opened Arithmetic
  import opened Prelude
  import opened Lockout
  import opened LockoutRuns

  type LoginId = nat

  /** A login that was not locked out and has not recorded its attempt yet. */
  datatype Checked = Checked(email: string, ip: string)

  datatype State = State(rows: Attempts, clock: Time, waiting: map<LoginId, Checked>)

  datatype Step =
    | Tick(n: nat)
    | CheckFirst(id: LoginId, email: string, ip: string)
    | Record(id: LoginId, success: bool, fails: bool)
    | Abort(id: LoginId)                                   // a store error, or the process ends
    | Prune

  const INIT := State([], 1, map[])

  /** A step that is not enabled changes nothing. */
  function Next(p: Policy, storeIP: bool, s: State, step: Step): State {
    match step
    case Tick(n) => s.(clock := s.clock + n)
    case CheckFirst(id, email, ip) =>
      if id in s.waiting || Check(p, s.rows, email, ip, s.clock).Locked? then s
      else s.(waiting := s.waiting[id := Checked(email, ip)])
    case Record(id, success, fails) =>
      if id !in s.waiting then s else
      s.(waiting := s.waiting - {id},
         rows := if fails then s.rows else Recorded(s.rows, storeIP, s.waiting[id].email, s.waiting[id].ip, success, s.clock))
    case Abort(id) => s.(waiting := s.waiting - {id})
    case Prune => s.(rows := PrunedAt(s.rows, s.clock))
  }

  function Exec(p: Policy, storeIP: bool, run: seq<Step>): State {
    if run == [] then INIT else Next(p, storeIP, Exec(p, storeIP, run[..|run| - 1]), Last(run))
  }

  /** Checking and recording with nothing in between is a whole login. */
  lemma LoginIsTwoSteps(p: Policy, storeIP: bool, s: State, id: LoginId, l: Login)
    requires id !in s.waiting && l.checkAt == s.clock == l.recordAt && l.outcome != StoreError && l.queryFails.None?
    ensures Next(p, storeIP, Next(p, storeIP, s, CheckFirst(id, l.email, l.ip)), Record(id, l.outcome == RightPassword, l.recordFails))
         == s.(rows := AfterLogin(p, storeIP, s.rows, l))
  {
    var u := Next(p, storeIP, s, CheckFirst(id, l.email, l.ip));
    assert u.waiting - {id} == s.waiting;
  }

  // ---------------------------------------------------------------- the bound

  function ForEmail(s: State, email: string): set<LoginId> { set id | id in s.waiting && s.waiting[id].email == email }

  function ForIp(s: State, ip: string): set<LoginId> { set id | id in s.waiting && s.waiting[id].ip == ip }

  /** At no time are more than k logins of the email, and more than k from the address, in flight. */
  ghost predicate AtMostInFlight(p: Policy, storeIP: bool, run: seq<Step>, email: string, ip: string, k: nat) {
    && |ForEmail(Exec(p, storeIP, run), email)| <= k && |ForIp(Exec(p, storeIP, run), ip)| <= k
    && (run == [] || AtMostInFlight(p, storeIP, run[..|run| - 1], email, ip, k))
  }

  function Bound(threshold: int, k: nat): int { if threshold <= 0 then 0 else threshold - 1 + k }

  predicate EmailBounded(p: Policy, s: State, email: string, k: nat) {
    EmailCount(s.rows, email, p.window, s.clock) + |ForEmail(s, email)| <= Bound(p.emailThreshold, k)
  }

  predicate IpBounded(p: Policy, s: State, ip: string, k: nat) {
    IpCount(s.rows, ip, p.window, s.clock) + |ForIp(s, ip)| <= Bound(p.ipThreshold, k)
  }

  /** Removing a login from those in flight. */
  lemma Leaves(s: State, u: State, id: LoginId, email: string, ip: string)
    requires id in s.waiting && u.waiting == s.waiting - {id}
    ensures |ForEmail(u, email)| == |ForEmail(s, email)| - if s.waiting[id].email == email then 1 else 0
    ensures |ForIp(u, ip)| == |ForIp(s, ip)| - if s.waiting[id].ip == ip then 1 else 0
  {
    assert ForEmail(u, email) == ForEmail(s, email) - {id};
    assert ForIp(u, ip) == ForIp(s, ip) - {id};
  }

  lemma RecordBounded(p: Policy, storeIP: bool, s: State, id: LoginId, success: bool, fails: bool, email: string, ip: string, k: nat)
    requires EmailBounded(p, s, email, k) && (ip != "" ==> IpBounded(p, s, ip, k)) && id in s.waiting
    ensures var u := Next(p, storeIP, s, Record(id, success, fails));
      EmailBounded(p, u, email, k) && (ip != "" ==> IpBounded(p, u, ip, k))
  {
    var u := Next(p, storeIP, s, Record(id, success, fails));
    Leaves(s, u, id, email, ip);
    if !fails { OneRowMore(s.rows, Last(u.rows), email, ip, p.window, s.clock); }
  }

  lemma AbortBounded(p: Policy, storeIP: bool, s: State, id: LoginId, email: string, ip: string, k: nat)
    requires EmailBounded(p, s, email, k) && (ip != "" ==> IpBounded(p, s, ip, k))
    ensures var u := Next(p, storeIP, s, Abort(id)); EmailBounded(p, u, email, k) && (ip != "" ==> IpBounded(p, u, ip, k))
  {
    var u := Next(p, storeIP, s, Abort(id));
    if id in s.waiting { Leaves(s, u, id, email, ip); } else { assert u.waiting == s.waiting; }
  }

  /** A login passes its check only below both thresholds. */
  lemma CheckBounded(p: Policy, storeIP: bool, s: State, id: LoginId, e: string, a: string, email: string, ip: string, k: nat)
    requires EmailBounded(p, s, email, k) && (ip != "" ==> IpBounded(p, s, ip, k))
    requires var u := Next(p, storeIP, s, CheckFirst(id, e, a)); |ForEmail(u, email)| <= k && |ForIp(u, ip)| <= k
    ensures var u := Next(p, storeIP, s, CheckFirst(id, e, a));
      EmailBounded(p, u, email, k) && (ip != "" ==> IpBounded(p, u, ip, k))
  {
    var u := Next(p, storeIP, s, CheckFirst(id, e, a));
    if u != s {
      assert e != email ==> ForEmail(u, email) == ForEmail(s, email);
      assert a != ip ==> ForIp(u, ip) == ForIp(s, ip);
    }
  }

  lemma NextBounded(p: Policy, storeIP: bool, s: State, step: Step, email: string, ip: string, k: nat)
    requires p.window <= DAY && EmailBounded(p, s, email, k) && (ip != "" ==> IpBounded(p, s, ip, k))
    requires var u := Next(p, storeIP, s, step); |ForEmail(u, email)| <= k && |ForIp(u, ip)| <= k
    ensures var u := Next(p, storeIP, s, step); EmailBounded(p, u, email, k) && (ip != "" ==> IpBounded(p, u, ip, k))
  {
    match step
    case Tick(n) => TimeOnlyForgets(s.rows, email, ip, p.window, s.clock, s.clock + n);
    case CheckFirst(id, e, a) => CheckBounded(p, storeIP, s, id, e, a, email, ip, k);
    case Record(id, success, fails) => if id in s.waiting { RecordBounded(p, storeIP, s, id, success, fails, email, ip, k); }
    case Abort(id) => AbortBounded(p, storeIP, s, id, email, ip, k);
    case Prune => PruneKeepsCounts(s.rows, email, ip, p.window, s.clock - DAY, s.clock);
  }

  /**
    In every run with at most k logins of an email, and from an address, in flight at once, their counted
    failures and the logins in flight together never exceed the threshold by more than k - 1.
  */
  lemma {:induction false} CountsBoundedInFlight(p: Policy, storeIP: bool, run: seq<Step>, email: string, ip: string, k: nat)
    requires p.window <= DAY && AtMostInFlight(p, storeIP, run, email, ip, k)
    ensures EmailBounded(p, Exec(p, storeIP, run), email, k)
    ensures ip != "" ==> IpBounded(p, Exec(p, storeIP, run), ip, k)
  {
    if run == [] {
      assert ForEmail(INIT, email) == {} && ForIp(INIT, ip) == {};
    } else {
      CountsBoundedInFlight(p, storeIP, run[..|run| - 1], email, ip, k);
      NextBounded(p, storeIP, Exec(p, storeIP, run[..|run| - 1]), Last(run), email, ip, k);
    }
  }

  // ---------------------------------------------------------------- the bound is reached

  function Failures(email: string, n: nat): Attempts { seq(n, _ => Attempt(email, None, false, 1)) }

  lemma {:induction false} FailuresCount(email: string, window: int, n: nat)
    requires window > 0
    ensures LastSuccess(Failures(email, n), email) == 0 && EmailCount(Failures(email, n), email, window, 1) == n
  {
    if n > 0 {
      FailuresCount(email, window, n - 1);
      assert Failures(email, n)[..n - 1] == Failures(email, n - 1);
    }
  }

  /** n failures one after the other, then j logins past their checks, then i of them recorded. */
  function Rush(email: string, n: nat, j: nat, i: nat): seq<Step> {
    if i > 0 then Rush(email, n, j, i - 1) + [Record(i - 1, false, false)]
    else if j > 0 then Rush(email, n, j - 1, 0) + [CheckFirst(j - 1, email, "")]
    else if n > 0 then Rush(email, n - 1, 1, 1)
    else []
  }

  function Ids(i: nat, j: nat): (ids: set<LoginId>)
    ensures forall id :: id in ids <==> i <= id < j
    ensures i <= j ==> |ids| == j - i
  {
    if j <= i then {} else Ids(i, j - 1) + {j - 1}
  }

  function Waiting(email: string, i: nat, j: nat): map<LoginId, Checked> { map id | id in Ids(i, j) :: Checked(email, "") }

  function Rushed(email: string, n: nat, j: nat, i: nat): State { State(Failures(email, n + i), 1, Waiting(email, i, j)) }

  lemma RushedInFlight(email: string, n: nat, j: nat, i: nat)
    requires i <= j
    ensures |ForEmail(Rushed(email, n, j, i), email)| <= j && |ForIp(Rushed(email, n, j, i), "")| <= j
  {
    SubsetSize(ForEmail(Rushed(email, n, j, i), email), Ids(0, j));
    SubsetSize(ForIp(Rushed(email, n, j, i), ""), Ids(0, j));
  }

  lemma {:induction false} SubsetSize(a: set<LoginId>, b: set<LoginId>)
    requires a <= b
    ensures |a| <= |b|
  {
    if a != {} {
      var x :| x in a;
      SubsetSize(a - {x}, b - {x});
    }
  }

  lemma ExecSnoc(p: Policy, storeIP: bool, run: seq<Step>, step: Step)
    ensures Exec(p, storeIP, run + [step]) == Next(p, storeIP, Exec(p, storeIP, run), step)
  {
    assert (run + [step])[..|run|] == run;
  }

  lemma AtMostSnoc(p: Policy, storeIP: bool, run: seq<Step>, step: Step, email: string, ip: string, k: nat)
    requires AtMostInFlight(p, storeIP, run, email, ip, k)
    requires var u := Next(p, storeIP, Exec(p, storeIP, run), step); |ForEmail(u, email)| <= k && |ForIp(u, ip)| <= k
    ensures AtMostInFlight(p, storeIP, run + [step], email, ip, k)
  {
    ExecSnoc(p, storeIP, run, step);
    assert (run + [step])[..|run|] == run;
  }

  lemma RecordRushed(p: Policy, storeIP: bool, email: string, n: nat, j: nat, i: nat)
    requires i < j
    ensures Next(p, storeIP, Rushed(email, n, j, i), Record(i, false, false)) == Rushed(email, n, j, i + 1)
  {
    assert Waiting(email, i, j) - {i} == Waiting(email, i + 1, j);
    assert Failures(email, n + i + 1) == Failures(email, n + i) + [Attempt(email, None, false, 1)];
  }

  lemma CheckRushed(p: Policy, storeIP: bool, email: string, n: nat, j: nat)
    requires p.window > 0 && n < p.emailThreshold
    ensures Next(p, storeIP, Rushed(email, n, j, 0), CheckFirst(j, email, "")) == Rushed(email, n, j + 1, 0)
  {
    FailuresCount(email, p.window, n);
    assert Waiting(email, 0, j)[j := Checked(email, "")] == Waiting(email, 0, j + 1);
  }

  lemma {:induction false} Rushes(p: Policy, storeIP: bool, email: string, n: nat, j: nat, i: nat, k: nat)
    requires p.window > 0 && n < p.emailThreshold && i <= j <= k && k >= 1
    ensures Exec(p, storeIP, Rush(email, n, j, i)) == Rushed(email, n, j, i)
    ensures AtMostInFlight(p, storeIP, Rush(email, n, j, i), email, "", k)
  {
    RushedInFlight(email, n, j, i);
    if i > 0 {
      Rushes(p, storeIP, email, n, j, i - 1, k);
      RecordRushed(p, storeIP, email, n, j, i - 1);
      ExecSnoc(p, storeIP, Rush(email, n, j, i - 1), Record(i - 1, false, false));
      AtMostSnoc(p, storeIP, Rush(email, n, j, i - 1), Record(i - 1, false, false), email, "", k);
    } else if j > 0 {
      Rushes(p, storeIP, email, n, j - 1, 0, k);
      CheckRushed(p, storeIP, email, n, j - 1);
      ExecSnoc(p, storeIP, Rush(email, n, j - 1, 0), CheckFirst(j - 1, email, ""));
      AtMostSnoc(p, storeIP, Rush(email, n, j - 1, 0), CheckFirst(j - 1, email, ""), email, "", k);
    } else if n > 0 {
      Rushes(p, storeIP, email, n - 1, 1, 1, k);
      assert Waiting(email, 1, 1) == Waiting(email, 0, 0);
    } else {
      assert Waiting(email, 0, 0) == map[] && Failures(email, 0) == [];
    }
  }

  /** Some run with k logins of an email in flight reaches the bound. */
  lemma BoundIsReached(p: Policy, storeIP: bool, email: string, k: nat)
    requires p.window > 0 && p.emailThreshold >= 1 && k >= 1
    ensures exists run ::
      AtMostInFlight(p, storeIP, run, email, "", k)
      && EmailCount(Exec(p, storeIP, run).rows, email, p.window, Exec(p, storeIP, run).clock) == Bound(p.emailThreshold, k)
  {
    var run := Rush(email, p.emailThreshold - 1, k, k);
    Rushes(p, storeIP, email, p.emailThreshold - 1, k, k, k);
    FailuresCount(email, p.window, p.emailThreshold - 1 + k);
  }
}
