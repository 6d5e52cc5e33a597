/**
  Login lockout (server/internal/auth/lockout.go, the order of steps in Login of service.go, and the
  failure counts of server/internal/store/misc.sql.go).

  Durations and instants are nanoseconds, instants counted from the epoch. Emails are already normalised.
*/
module Lockout {
  import opened Arithmetic
  import opened Prelude

  type Time = x: int | 0 < x witness 1

  const SECOND: int := 1_000_000_000
  const MINUTE: int := 60 * SECOND
  const DAY: int := 24 * 60 * MINUTE

  datatype Policy = Policy(window: int, emailThreshold: int, ipThreshold: int, baseBackoff: int, maxBackoff: int)

  const DEFAULT_LOCKOUT := Policy(15 * MINUTE, 5, 50, 30 * SECOND, 15 * MINUTE)

  datatype Attempt = Attempt(email: string, ip: Option<string>, success: bool, at: Time)

  type Attempts = seq<Attempt>

  // ---------------------------------------------------------------- counting

  /** The latest success for an email, or the epoch. */
  function LastSuccess(t: Attempts, email: string): int {
    if t == [] then 0
    else if Last(t).email == email && Last(t).success then Max(Last(t).at, LastSuccess(t[..|t| - 1], email))
    else LastSuccess(t[..|t| - 1], email)
  }

  function EmailFailures(t: Attempts, email: string, since: int): nat {
    if t == [] then 0 else
    EmailFailures(t[..|t| - 1], email, since)
      + if Last(t).email == email && !Last(t).success && Last(t).at > since then 1 else 0
  }

  function IpFailures(t: Attempts, ip: string, since: int): nat {
    if t == [] then 0 else
    IpFailures(t[..|t| - 1], ip, since)
      + if Last(t).ip == Some(ip) && !Last(t).success && Last(t).at > since then 1 else 0
  }

  /** Failures for an email within the window and since its last success. */
  function EmailCount(t: Attempts, email: string, window: int, now: int): nat {
    EmailFailures(t, email, Max(now - window, LastSuccess(t, email)))
  }

  function IpCount(t: Attempts, ip: string, window: int, now: int): nat { IpFailures(t, ip, now - window) }

  // ---------------------------------------------------------------- backoff

  function Backoff(p: Policy, over: int): int {
    var n := if over < 1 then 1 else over;
    if n > 20 then p.maxBackoff else
    var d := Wrapped(p.baseBackoff * Pow2(n - 1));
    if d > p.maxBackoff || d <= 0 then p.maxBackoff else d
  }

  lemma Pow2Of19And20()
    ensures Pow2(19) == 524288 && Pow2(20) == 1048576
  {
    assert Pow2(5) == 32;
    assert Pow2(10) == 1024;
    assert Pow2(15) == 32768;
  }

  /**
    The doubling capped at the maximum, whenever the base is positive, the last doubling does not overflow
    64 bits, and twenty doublings reach the cap.
  */
  lemma BackoffIsCappedDoubling(p: Policy, n: nat)
    requires 0 < p.baseBackoff && p.baseBackoff * 524288 < 0x8000_0000_0000_0000 && p.maxBackoff <= p.baseBackoff * 1048576
    requires n >= 1
    ensures Backoff(p, n) == Min(p.baseBackoff * Pow2(n - 1), p.maxBackoff)
  {
    Pow2Of19And20();
    if n > 20 {
      Pow2Grows(20, n - 1);
      TimesGrow(Pow2(20), Pow2(n - 1), p.baseBackoff);
    } else {
      Pow2Grows(n - 1, 19);
      TimesGrow(Pow2(n - 1), Pow2(19), p.baseBackoff);
      TimesGrow(1, Pow2(n - 1), p.baseBackoff);
    }
  }

  lemma DoublingGrows(base: nat, m: nat, n: nat)
    requires m <= n
    ensures base * Pow2(m) <= base * Pow2(n)
  {
    Pow2Grows(m, n);
    TimesGrow(Pow2(m), Pow2(n), base);
  }

  /** The default policy: 30 s doubling up to 15 min, never shrinking and never overflowing. */
  lemma DefaultBackoff(m: nat, n: nat)
    requires 1 <= m <= n
    ensures Backoff(DEFAULT_LOCKOUT, n) == Min(30 * SECOND * Pow2(n - 1), 15 * MINUTE)
    ensures Backoff(DEFAULT_LOCKOUT, m) <= Backoff(DEFAULT_LOCKOUT, n)
  {
    BackoffIsCappedDoubling(DEFAULT_LOCKOUT, m);
    BackoffIsCappedDoubling(DEFAULT_LOCKOUT, n);
    DoublingGrows(30 * SECOND, m - 1, n - 1);
  }

  // ---------------------------------------------------------------- the service

  datatype Reason = ThisAccount | ThisNetwork

  datatype LockStatus = Open | Locked(retryAfter: int, reason: Reason)

  function Check(p: Policy, t: Attempts, email: string, ip: string, now: Time): LockStatus {
    var emailFails := EmailCount(t, email, p.window, now);
    if emailFails >= p.emailThreshold then Locked(Backoff(p, emailFails - p.emailThreshold + 1), ThisAccount)
    else if ip != "" && IpCount(t, ip, p.window, now) >= p.ipThreshold then
      Locked(Backoff(p, IpCount(t, ip, p.window, now) - p.ipThreshold + 1), ThisNetwork)
    else Open
  }

  function Recorded(t: Attempts, storeIP: bool, email: string, ip: string, success: bool, at: Time): Attempts {
    t + [Attempt(email, if storeIP && ip != "" then Some(ip) else None, success, at)]
  }

  /** What the rest of a login finds once it is not locked out; a store error ends it before it records anything. */
  datatype Outcome = UnknownUser | WrongPassword | RightPassword | StoreError

  /** The two count queries of the check. */
  datatype Query = ByEmail | ByIp

  datatype Login = Login(
    email: string, ip: string, checkAt: Time, recordAt: Time, queryFails: Option<Query>, outcome: Outcome, recordFails: bool)

  /** The failing count query is reached: addresses are counted only for an open account and a known address. */
  predicate CheckFails(p: Policy, t: Attempts, email: string, ip: string, now: Time, queryFails: Option<Query>) {
    || queryFails == Some(ByEmail)
    || (queryFails == Some(ByIp) && EmailCount(t, email, p.window, now) < p.emailThreshold && ip != "")
  }

  function AfterLogin(p: Policy, storeIP: bool, t: Attempts, l: Login): Attempts {
    if CheckFails(p, t, l.email, l.ip, l.checkAt, l.queryFails) then t
    else if Check(p, t, l.email, l.ip, l.checkAt).Locked? || l.outcome == StoreError || l.recordFails then t
    else Recorded(t, storeIP, l.email, l.ip, l.outcome == RightPassword, l.recordAt)
  }

  datatype LoginError = LockedOut(retryAfter: int, reason: Reason) | InvalidCredentials | Internal

  class Service {
    const lockout: Policy
    const storeIP: bool
    var attempts: Attempts

    constructor (lockout: Policy, storeIP: bool)
      ensures this.lockout == lockout && this.storeIP == storeIP && attempts == []
    {
      this.lockout, this.storeIP := lockout, storeIP;
      attempts := [];
    }

    method CheckLockout(email: string, ip: string, now: Time, queryFails: Option<Query>) returns (s: Result<LockStatus, LoginError>)
      ensures s == if CheckFails(lockout, attempts, email, ip, now, queryFails) then Err(Internal)
                   else Ok(Check(lockout, attempts, email, ip, now))
    {
      if queryFails == Some(ByEmail) { return Err(Internal); }
      var emailFails: int := EmailCount(attempts, email, lockout.window, now);
      if emailFails >= lockout.emailThreshold {
        var over := emailFails - lockout.emailThreshold + 1;
        return Ok(Locked(Backoff(lockout, over), ThisAccount));
      }
      if ip != "" {
        if queryFails == Some(ByIp) { return Err(Internal); }
        var ipFails: int := IpCount(attempts, ip, lockout.window, now);
        if ipFails >= lockout.ipThreshold {
          var over := ipFails - lockout.ipThreshold + 1;
          return Ok(Locked(Backoff(lockout, over), ThisNetwork));
        }
      }
      return Ok(Open);
    }

    /** A failing insert is ignored. The address is kept only when the operator logs addresses. */
    method RecordAttempt(email: string, ip: string, success: bool, at: Time, fails: bool)
      modifies this`attempts
      ensures attempts == if fails then old(attempts) else Recorded(old(attempts), storeIP, email, ip, success, at)
    {
      var kept := if storeIP then ip else "";
      if !fails {
        attempts := attempts + [Attempt(email, if kept == "" then None else Some(kept), success, at)];
      }
    }

    /** Check, verify, record. A locked attempt is not recorded, nor one whose check fails. */
    method TryLogin(l: Login) returns (r: Result<(), LoginError>)
      modifies this`attempts
      ensures attempts == AfterLogin(lockout, storeIP, old(attempts), l)
      ensures var s := Check(lockout, old(attempts), l.email, l.ip, l.checkAt);
        r == if CheckFails(lockout, old(attempts), l.email, l.ip, l.checkAt, l.queryFails) then Err(Internal)
             else if s.Locked? then Err(LockedOut(s.retryAfter, s.reason))
             else if l.outcome == StoreError then Err(Internal)
             else if l.outcome == RightPassword then Ok(()) else Err(InvalidCredentials)
    {
      var checked := CheckLockout(l.email, l.ip, l.checkAt, l.queryFails);
      if checked.Err? { return Err(checked.error); }
      var lock := checked.value;
      if lock.Locked? { return Err(LockedOut(lock.retryAfter, lock.reason)); }
      match l.outcome
      case StoreError =>
        return Err(Internal);
      case UnknownUser =>
        RecordAttempt(l.email, l.ip, false, l.recordAt, l.recordFails);
        return Err(InvalidCredentials);
      case WrongPassword =>
        RecordAttempt(l.email, l.ip, false, l.recordAt, l.recordFails);
        return Err(InvalidCredentials);
      case RightPassword =>
        RecordAttempt(l.email, l.ip, true, l.recordAt, l.recordFails);
        return Ok(());
    }

    /** The maintenance worker's one-day cap. */
    method PruneLoginAttempts(now: Time)
      modifies this`attempts
      ensures attempts == Kept(old(attempts), now - DAY)
    {
      var rows := [];
      for i := 0 to |attempts|
        invariant attempts == old(attempts) && rows == Kept(attempts[..i], now - DAY)
      {
        assert attempts[..i + 1][..i] == attempts[..i];
        if !(attempts[i].at < now - DAY) { rows := rows + [attempts[i]]; }
      }
      assert attempts[..|attempts|] == attempts;
      attempts := rows;
    }
  }

  function Kept(t: Attempts, from: int): Attempts {
    if t == [] then []
    else if Last(t).at >= from then Kept(t[..|t| - 1], from) + [Last(t)]
    else Kept(t[..|t| - 1], from)
  }
}
