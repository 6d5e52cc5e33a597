/** How long the tokens that were handed out work: until they are replaced, revoked, or their time is up. */
module TokenLifetimes {
  import opened Prelude
  import opened Sessions
  import opened RefreshRuns

  /** The session's row is live and nothing was issued to it since `s`. */
  predicate Unchanged(s: Sys, u: Sys, sid: SessionId) {
    !Dead(u, sid) && u.refreshes.Of(sid) == s.refreshes.Of(sid)
  }

  /** A step that leaves a session live and gives it no token leaves its row. */
  lemma RowStays(s: Sys, step: Step, sid: SessionId)
    requires Inv(s) && sid in s.refreshes.chains && Unchanged(s, Next(s, step), sid)
    ensures sid in s.rows && Next(s, step).rows[sid] == s.rows[sid]
  {
    if Dead(s, sid) { DeadStays(s, step, sid); }
  }

  lemma ChainGrows(s: Sys, step: Step, sid: SessionId)
    ensures s.refreshes.Of(sid) <= Next(s, step).refreshes.Of(sid)
    ensures sid in s.refreshes.chains ==> sid in Next(s, step).refreshes.chains
  {
    KnownStays(s, step, sid, 0);
  }

  lemma {:induction false} ChainGrowsOn(s: Sys, more: seq<Step>, sid: SessionId)
    ensures s.refreshes.Of(sid) <= ExecFrom(s, more).refreshes.Of(sid)
    ensures sid in s.refreshes.chains ==> sid in ExecFrom(s, more).refreshes.chains
  {
    if more != [] {
      ChainGrowsOn(s, more[..|more| - 1], sid);
      ChainGrows(ExecFrom(s, more[..|more| - 1]), Last(more), sid);
    }
  }

  lemma {:induction false} RowStaysOn(s: Sys, more: seq<Step>, sid: SessionId)
    requires Inv(s) && sid in s.refreshes.chains && Unchanged(s, ExecFrom(s, more), sid)
    ensures sid in s.rows && ExecFrom(s, more).rows[sid] == s.rows[sid]
  {
    if more != [] {
      var before := more[..|more| - 1];
      var u := ExecFrom(s, before);
      ExecFromInv(s, before);
      ChainGrowsOn(s, before, sid);
      ChainGrows(u, Last(more), sid);
      RowStays(u, Last(more), sid);
      RowStaysOn(s, before, sid);
    }
  }

  /** The two tokens find their session exactly until their own instants. */
  ghost predicate WorkUntil(s: Sys, sid: SessionId, a: Token, r: Token, accessEnd: Time, refreshEnd: Time) {
    && (forall t: Time :: ByAccess(s.rows, a, t) == if t < accessEnd then Some(sid) else None)
    && (forall t: Time :: ByRefresh(s.rows, r, t) == if t < refreshEnd then Some(sid) else None)
  }

  lemma RowDecides(s: Sys, sid: SessionId, a: Token, r: Token)
    requires Inv(s) && sid in s.rows && s.rows[sid].revokedAt.None? && s.rows[sid].access == a && s.rows[sid].refresh == r
    ensures WorkUntil(s, sid, a, r, s.rows[sid].accessExp, s.rows[sid].refreshExp)
  {
    forall id | id in s.rows && s.rows[id].access == a ensures id == sid { AccessIdentifies(s, id, sid); }
    forall id | id in s.rows && s.rows[id].refresh == r ensures id == sid {
      TokensIdentifyRows(s, id, r);
      TokensIdentifyRows(s, sid, r);
    }
  }

  lemma AccessIdentifies(s: Sys, id: SessionId, other: SessionId)
    requires Inv(s) && id in s.rows && other in s.rows && s.rows[id].access == s.rows[other].access
    ensures id == other
  {
    forall i <- {id, other} ensures s.rows[i].access in s.accesses.place && s.accesses.place[s.rows[i].access].0 == i {
      assert RowInv(s.rows[i], s.refreshes.Of(i), s.accesses.Of(i));
      Placed(s.accesses, s.drawn, i, |s.accesses.Of(i)| - 1);
    }
  }

  lemma PairLasts(s: Sys, more: seq<Step>, sid: SessionId, a: Token, r: Token, accessEnd: Time, refreshEnd: Time)
    requires Inv(s) && sid in s.refreshes.chains && Unchanged(s, ExecFrom(s, more), sid)
    requires sid in s.rows ==> s.rows[sid].access == a && s.rows[sid].refresh == r
                               && s.rows[sid].accessExp == accessEnd && s.rows[sid].refreshExp == refreshEnd
    ensures WorkUntil(ExecFrom(s, more), sid, a, r, accessEnd, refreshEnd)
  {
    RowStaysOn(s, more, sid);
    ExecFromInv(s, more);
    RowDecides(ExecFrom(s, more), sid, a, r);
  }

  lemma SwapWrites(s: Sys, c: CallId, accessTTL: int, refreshTTL: int, sid: SessionId, a: Token, r: Token)
    requires c in s.calls && s.calls[c].Found?
    requires var u := Next(s, Swap(c, accessTTL, refreshTTL)); c in u.calls && u.calls[c] == Rotated(sid, a, r)
    ensures var u := Next(s, Swap(c, accessTTL, refreshTTL));
      && sid in u.refreshes.chains && sid in u.rows && u.rows[sid].access == a && u.rows[sid].refresh == r
      && u.rows[sid].accessExp == s.clock + accessTTL && u.rows[sid].refreshExp == s.clock + refreshTTL
  {
  }

  /**
    The pair a swap hands out at clock n: whatever happens next, while the session lives and is not rotated
    again, the access token resolves exactly before n + accessTTL and the refresh token is found exactly
    before n + refreshTTL.
  */
  lemma RotatedPairWorks(s: Sys, c: CallId, accessTTL: int, refreshTTL: int, more: seq<Step>, sid: SessionId, a: Token, r: Token)
    requires Inv(s) && c in s.calls && s.calls[c].Found?
    requires var u := Next(s, Swap(c, accessTTL, refreshTTL));
      c in u.calls && u.calls[c] == Rotated(sid, a, r) && Unchanged(u, ExecFrom(u, more), sid)
    ensures WorkUntil(ExecFrom(Next(s, Swap(c, accessTTL, refreshTTL)), more), sid, a, r, s.clock + accessTTL, s.clock + refreshTTL)
  {
    var u := Next(s, Swap(c, accessTTL, refreshTTL));
    NextInv(s, Swap(c, accessTTL, refreshTTL));
    SwapWrites(s, c, accessTTL, refreshTTL, sid, a, r);
    PairLasts(u, more, sid, a, r, s.clock + accessTTL, s.clock + refreshTTL);
  }

  /** The same for the pair of a new session. */
  lemma IssuedPairWorks(s: Sys, sid: SessionId, user: UserId, device: DeviceId, accessTTL: int, refreshTTL: int, more: seq<Step>)
    requires Inv(s) && sid !in s.refreshes.chains && sid !in s.accesses.chains
    requires var u := Next(s, Issue(sid, user, device, accessTTL, refreshTTL)); Unchanged(u, ExecFrom(u, more), sid)
    ensures var u := Next(s, Issue(sid, user, device, accessTTL, refreshTTL));
      && u.accesses.Of(sid) != [] && u.refreshes.Of(sid) != []
      && WorkUntil(ExecFrom(u, more), sid, Last(u.accesses.Of(sid)), Last(u.refreshes.Of(sid)), s.clock + accessTTL, s.clock + refreshTTL)
  {
    var step := Issue(sid, user, device, accessTTL, refreshTTL);
    NextInv(s, step);
    PairLasts(Next(s, step), more, sid, s.drawn, s.drawn + 1, s.clock + accessTTL, s.clock + refreshTTL);
  }

  lemma {:induction false} ExecFromParts(s: Sys, a: seq<Step>, b: seq<Step>)
    ensures ExecFrom(s, a + b) == ExecFrom(ExecFrom(s, a), b)
  {
    if b == [] {
      assert a + b == a;
    } else {
      ExecFromParts(s, a, b[..|b| - 1]);
      assert (a + b)[..|a + b| - 1] == a + b[..|b| - 1];
    }
  }

  /**
    A whole call that is answered with new tokens, with others between its statements and `more` after it:
    the tokens work for their lifetimes from the clock of the swap.
  */
  lemma AnsweredPairWorks(s: Sys, c: CallId, t: Token, accessTTL: int, refreshTTL: int, first: seq<Step>, second: seq<Step>,
                          more: seq<Step>, sid: SessionId, a: Token, r: Token)
    requires Inv(s) && c !in s.calls && t < s.drawn && Others(first, c) && Others(second, c)
    requires var u := WithGaps(s, c, t, accessTTL, refreshTTL, first, second);
      c in u.calls && u.calls[c] == Rotated(sid, a, r)
    requires var v := AfterFirst(s, c, t, first);
      Unchanged(Next(v, Swap(c, accessTTL, refreshTTL)), ExecFrom(WithGaps(s, c, t, accessTTL, refreshTTL, first, second), more), sid)
    ensures var n := AfterFirst(s, c, t, first).clock;
      WorkUntil(ExecFrom(WithGaps(s, c, t, accessTTL, refreshTTL, first, second), more), sid, a, r, n + accessTTL, n + refreshTTL)
  {
    var v := AfterFirst(s, c, t, first);
    NextInv(s, Lookup(c, t));
    ExecFromInv(Next(s, Lookup(c, t)), first);
    RotatedAtSwap(s, c, t, accessTTL, refreshTTL, first, second);
    var u := Next(v, Swap(c, accessTTL, refreshTTL));
    ExecFromParts(u, second, more);
    RotatedPairWorks(v, c, accessTTL, refreshTTL, second + more, sid, a, r);
  }

  /** A call answered with new tokens got them at its swap, and stopped there. */
  lemma RotatedAtSwap(s: Sys, c: CallId, t: Token, accessTTL: int, refreshTTL: int, first: seq<Step>, second: seq<Step>)
    requires c !in s.calls && t < s.drawn && Others(first, c) && Others(second, c)
    requires var u := WithGaps(s, c, t, accessTTL, refreshTTL, first, second); c in u.calls && u.calls[c].Rotated?
    ensures var v, u := AfterFirst(s, c, t, first), WithGaps(s, c, t, accessTTL, refreshTTL, first, second);
      var w := Next(v, Swap(c, accessTTL, refreshTTL));
      && c in v.calls && v.calls[c].Found? && u == ExecFrom(w, second) && c in w.calls && w.calls[c] == u.calls[c]
  {
    var s1 := Next(s, Lookup(c, t));
    OthersLeaveCall(s1, first, c);
    var v := ExecFrom(s1, first);
    SecondAnswers(v, c, t, accessTTL, refreshTTL);
    var w := Next(v, Second(v, c, accessTTL, refreshTTL));
    OthersLeaveCall(w, second, c);
    ThirdAnswers(ExecFrom(w, second), c);
  }

  // ---------------------------------------------------------------- how a session ends

  /** The step ends the live session: reuse of its tokens, a logout, its device, its user, or a day past its time. */
  predicate Ends(s: Sys, step: Step, sid: SessionId)
    requires sid in s.rows
  {
    match step
    case RevokeReused(c) => c in s.calls && (s.calls[c] == Lost(sid) || s.calls[c] == Replayed(sid))
    case Logout(id) => id == sid
    case DropDevice(d) => d == s.rows[sid].device
    case DropUser(u) => u == s.rows[sid].user
    case Prune => s.rows[sid].refreshExp < s.clock - 24 * 3600
    case _ => false
  }

  /** A live session survives a step, with its user and device, exactly when the step does not end it. */
  lemma DiesExactly(s: Sys, step: Step, sid: SessionId)
    requires Inv(s) && sid in s.refreshes.chains && !Dead(s, sid)
    ensures Dead(Next(s, step), sid) <==> Ends(s, step, sid)
    ensures !Dead(Next(s, step), sid) ==>
              Next(s, step).rows[sid].user == s.rows[sid].user && Next(s, step).rows[sid].device == s.rows[sid].device
  {
  }

  /** A session issued to a user on a device stays theirs for as long as it lives. */
  lemma {:induction false} KeepsItsOwner(s: Sys, sid: SessionId, user: UserId, device: DeviceId, accessTTL: int, refreshTTL: int,
                                         more: seq<Step>)
    requires Inv(s) && sid !in s.refreshes.chains && sid !in s.accesses.chains
    requires !Dead(ExecFrom(Next(s, Issue(sid, user, device, accessTTL, refreshTTL)), more), sid)
    ensures var v := ExecFrom(Next(s, Issue(sid, user, device, accessTTL, refreshTTL)), more);
      v.rows[sid].user == user && v.rows[sid].device == device
  {
    var u := Next(s, Issue(sid, user, device, accessTTL, refreshTTL));
    NextInv(s, Issue(sid, user, device, accessTTL, refreshTTL));
    if more != [] {
      var v := ExecFrom(u, more[..|more| - 1]);
      ExecFromInv(u, more[..|more| - 1]);
      ChainGrowsOn(u, more[..|more| - 1], sid);
      if Dead(v, sid) {
        DeadStays(v, Last(more), sid);
      } else {
        KeepsItsOwner(s, sid, user, device, accessTTL, refreshTTL, more[..|more| - 1]);
        DiesExactly(v, Last(more), sid);
      }
    }
  }
}
