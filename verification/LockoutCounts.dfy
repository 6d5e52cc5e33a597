/** What the lockout counts, row by row, and what a success forgets. */
module LockoutCounts {
  import opened Arithmetic
  import opened Prelude
  import opened Lockout

  /** Row i is a failed login of the email, inside the window and later than every success of the email. */
  ghost predicate CountsForEmail(t: Attempts, email: string, window: int, now: int, i: int) {
    && 0 <= i < |t| && t[i].email == email && !t[i].success && t[i].at > now - window
    && forall j | 0 <= j < |t| && t[j].email == email && t[j].success :: t[i].at > t[j].at
  }

  /** Row i is a failed login from the address, inside the window. */
  predicate CountsForIp(t: Attempts, ip: string, window: int, now: int, i: int) {
    0 <= i < |t| && t[i].ip == Some(ip) && !t[i].success && t[i].at > now - window
  }

  ghost function EmailRows(t: Attempts, email: string, window: int, now: int): set<int> {
    set i | 0 <= i < |t| && CountsForEmail(t, email, window, now, i)
  }

  function IpRows(t: Attempts, ip: string, window: int, now: int): set<int> {
    set i | 0 <= i < |t| && CountsForIp(t, ip, window, now, i)
  }

  lemma {:induction false} LastSuccessIs(t: Attempts, email: string)
    ensures LastSuccess(t, email) >= 0
    ensures forall j | 0 <= j < |t| && t[j].email == email && t[j].success :: t[j].at <= LastSuccess(t, email)
    ensures LastSuccess(t, email) == 0
         || exists j :: 0 <= j < |t| && t[j].email == email && t[j].success && t[j].at == LastSuccess(t, email)
  {
    if t != [] {
      var k := |t| - 1;
      LastSuccessIs(t[..k], email);
      if LastSuccess(t, email) == LastSuccess(t[..k], email) != 0 {
        var j :| 0 <= j < k && t[..k][j].email == email && t[..k][j].success && t[..k][j].at == LastSuccess(t[..k], email);
        assert t[j] == t[..k][j];
      }
      forall j | 0 <= j < |t| && t[j].email == email && t[j].success ensures t[j].at <= LastSuccess(t, email) {
        if j < k { assert t[..k][j] == t[j]; }
      }
    }
  }

  function FailedAfter(t: Attempts, email: string, since: int): set<int> {
    set i | 0 <= i < |t| && t[i].email == email && !t[i].success && t[i].at > since
  }

  lemma {:induction false} FailuresAreRows(t: Attempts, email: string, since: int)
    ensures EmailFailures(t, email, since) == |FailedAfter(t, email, since)|
  {
    if t != [] {
      var k := |t| - 1;
      FailuresAreRows(t[..k], email, since);
      var now := if t[k].email == email && !t[k].success && t[k].at > since then {k} else {};
      assert FailedAfter(t, email, since) == FailedAfter(t[..k], email, since) + now by {
        assert forall i | 0 <= i < k :: t[..k][i] == t[i];
      }
    }
  }

  lemma {:induction false} IpFailuresAreRows(t: Attempts, ip: string, window: int, now: int)
    ensures IpFailures(t, ip, now - window) == |IpRows(t, ip, window, now)|
  {
    if t != [] {
      var k := |t| - 1;
      IpFailuresAreRows(t[..k], ip, window, now);
      assert forall i | 0 <= i < k :: CountsForIp(t[..k], ip, window, now, i) == CountsForIp(t, ip, window, now, i);
      assert IpRows(t, ip, window, now) == IpRows(t[..k], ip, window, now) + if CountsForIp(t, ip, window, now, k) then {k} else {};
    } else {
      assert IpRows(t, ip, window, now) == {};
    }
  }

  /** The counts are numbers of rows. */
  lemma CountsAreRows(t: Attempts, email: string, ip: string, window: int, now: int)
    ensures EmailCount(t, email, window, now) == |EmailRows(t, email, window, now)|
    ensures IpCount(t, ip, window, now) == |IpRows(t, ip, window, now)|
  {
    var since := Max(now - window, LastSuccess(t, email));
    FailuresAreRows(t, email, since);
    LastSuccessIs(t, email);
    IpFailuresAreRows(t, ip, window, now);
    assert FailedAfter(t, email, since) == EmailRows(t, email, window, now);
  }

  /**
    A check locks for the account exactly when at least the threshold of rows counts for the email, and
    otherwise for the network exactly when the address is known and at least its threshold counts for it.
  */
  lemma LocksExactly(p: Policy, t: Attempts, email: string, ip: string, now: Time)
    ensures var s, e, a := Check(p, t, email, ip, now), |EmailRows(t, email, p.window, now)|, |IpRows(t, ip, p.window, now)|;
      && (s.Locked? && s.reason == ThisAccount <==> e >= p.emailThreshold)
      && (s.Locked? && s.reason == ThisNetwork <==> e < p.emailThreshold && ip != "" && a >= p.ipThreshold)
  {
    CountsAreRows(t, email, ip, p.window, now);
  }

  /** A recorded success forgets every failure of its email that is not later than it. */
  lemma SuccessClears(t: Attempts, email: string, kept: Option<string>, at: Time, window: int, now: int, i: int)
    ensures var u := t + [Attempt(email, kept, true, at)];
      CountsForEmail(u, email, window, now, i) <==> CountsForEmail(t, email, window, now, i) && t[i].at > at
  {
    var u := t + [Attempt(email, kept, true, at)];
    assert u[|t|].success && u[|t|].email == email;
    if CountsForEmail(t, email, window, now, i) && t[i].at > at {
      forall j | 0 <= j < |u| && u[j].email == email && u[j].success ensures u[i].at > u[j].at {
        assert j < |t| ==> u[j] == t[j];
      }
    }
    if CountsForEmail(u, email, window, now, i) {
      assert i < |t| && u[i] == t[i];
      forall j | 0 <= j < |t| && t[j].email == email && t[j].success ensures t[i].at > t[j].at { assert u[j] == t[j]; }
    }
  }

  /** So right after a success, with a positive threshold, the account is not locked at any time from then on until it fails again. */
  lemma SuccessUnlocks(p: Policy, t: Attempts, email: string, ip: string, kept: Option<string>, at: Time, now: Time)
    requires p.emailThreshold >= 1 && forall i | 0 <= i < |t| && t[i].email == email :: t[i].at <= at
    ensures var s := Check(p, t + [Attempt(email, kept, true, at)], email, ip, now); s.Locked? ==> s.reason == ThisNetwork
  {
    var u := t + [Attempt(email, kept, true, at)];
    forall i ensures i !in EmailRows(u, email, p.window, now) { SuccessClears(t, email, kept, at, p.window, now, i); }
    assert EmailRows(u, email, p.window, now) == {};
    LocksExactly(p, u, email, ip, now);
  }
}
