/** Refresh-token rotation over all interleavings of Refresh calls, logouts, revocations and pruning. */
module RefreshRuns {
  import opened Prelude
  import opened Sessions

  ghost function ExecFrom(s: Sys, run: seq<Step>): Sys {
    if run == [] then s else Next(ExecFrom(s, run[..|run| - 1]), Last(run))
  }

  ghost function Exec(run: seq<Step>): Sys { ExecFrom(Init(), run) }

  lemma {:induction false} ExecFromInv(s: Sys, run: seq<Step>)
    requires Inv(s)
    ensures Inv(ExecFrom(s, run))
  {
    if run != [] {
      ExecFromInv(s, run[..|run| - 1]);
      NextInv(ExecFrom(s, run[..|run| - 1]), Last(run));
    }
  }

  lemma InitInv()
    ensures Inv(Init())
  {
  }

  ghost predicate Reachable(s: Sys) {
    exists run :: s == Exec(run)
  }

  lemma ReachableInv(s: Sys)
    requires Reachable(s)
    ensures Inv(s)
  {
    var run :| s == Exec(run);
    InitInv();
    ExecFromInv(Init(), run);
  }

  lemma ReachableNext(s: Sys, step: Step)
    requires Reachable(s)
    ensures Reachable(Next(s, step))
  {
    var run :| s == Exec(run);
    assert (run + [step])[..|run|] == run;
    assert Next(s, step) == Exec(run + [step]);
  }

  /** The refresh tokens exchanged for new ones, in the order of the exchanges. */
  ghost function Exchanges(run: seq<Step>): seq<Token> {
    if run == [] then [] else
    var before := run[..|run| - 1];
    var s := Exec(before);
    Exchanges(before) +
      match Last(run)
      case Swap(c, _, _) =>
        if Enabled(s, Last(run)) && CanRotate(s.rows, s.calls[c].sid, s.calls[c].token) then [s.calls[c].token] else []
      case _ => []
  }

  lemma SpentGrowsBySwaps(s: Sys, step: Step)
    ensures step.Swap? && Enabled(s, step) && CanRotate(s.rows, s.calls[step.c].sid, s.calls[step.c].token) ==>
              Next(s, step).spent == s.spent + [s.calls[step.c].token]
    ensures !(step.Swap? && Enabled(s, step) && CanRotate(s.rows, s.calls[step.c].sid, s.calls[step.c].token)) ==>
              Next(s, step).spent == s.spent
  {
  }

  lemma {:induction false} ExchangesAreSpent(run: seq<Step>)
    ensures Exchanges(run) == Exec(run).spent
  {
    if run != [] {
      ExchangesAreSpent(run[..|run| - 1]);
      SpentGrowsBySwaps(Exec(run[..|run| - 1]), Last(run));
    }
  }

  /** Each refresh token is exchanged at most once, whatever the callers do at the same time. */
  lemma ExchangedAtMostOnce(run: seq<Step>)
    ensures NoRepeats(Exchanges(run))
  {
    InitInv();
    ExecFromInv(Init(), run);
    ExchangesAreSpent(run);
  }

  /** A row always holds the newest access token and the last two refresh tokens of its session. */
  lemma RowHoldsLastTwo(run: seq<Step>, sid: SessionId)
    requires sid in Exec(run).rows
    ensures var s := Exec(run);
      && s.refreshes.Of(sid) != [] && s.rows[sid].refresh == Last(s.refreshes.Of(sid))
      && s.rows[sid].prev == Previous(s.refreshes.Of(sid))
      && s.accesses.Of(sid) != [] && s.rows[sid].access == Last(s.accesses.Of(sid))
  {
    InitInv();
    ExecFromInv(Init(), run);
    assert RowInv(Exec(run).rows[sid], Exec(run).refreshes.Of(sid), Exec(run).accesses.Of(sid));
  }

  /**
    A dead (revoked or deleted) session stays dead, is never rotated again, and no access or refresh
    token ever leads to it again.
  */
  lemma {:induction false} DeadForGood(s: Sys, more: seq<Step>, sid: SessionId)
    requires sid in s.refreshes.chains && Dead(s, sid)
    ensures var t := ExecFrom(s, more);
      && Dead(t, sid) && sid in t.refreshes.chains
      && t.refreshes.Of(sid) == s.refreshes.Of(sid)
      && (forall a, now :: ByAccess(t.rows, a, now) != Some(sid))
      && (forall r, now :: ByRefresh(t.rows, r, now) != Some(sid))
      && (forall r :: ByPrev(t.rows, r) != Some(sid))
  {
    if more != [] {
      var before := more[..|more| - 1];
      DeadForGood(s, before, sid);
      DeadStays(ExecFrom(s, before), Last(more), sid);
      KnownStays(ExecFrom(s, before), Last(more), sid, 0);
    }
  }

  /** A call that answered "reuse detected" has left its session dead, for the rest of every run. */
  lemma ReuseKillsSession(run: seq<Step>, more: seq<Step>, c: CallId)
    requires c in Exec(run).calls && Exec(run).calls[c].Reused?
    ensures Dead(ExecFrom(Exec(run), more), Exec(run).calls[c].sid)
  {
    InitInv();
    ExecFromInv(Init(), run);
    assert CallInv(Exec(run), Exec(run).calls[c]);
    DeadForGood(Exec(run), more, Exec(run).calls[c].sid);
  }

  lemma Placed(h: History, drawn: Token, sid: SessionId, i: nat)
    requires HistoryInv(h, drawn) && i < |h.Of(sid)|
    ensures h.Of(sid)[i] in h.place && h.place[h.Of(sid)[i]] == (sid, i)
  {
    assert h.chains[sid][i] in h.place;
  }

  /** Rows of different sessions share no refresh token, neither current nor previous. */
  lemma TokensIdentifyRows(s: Sys, id: SessionId, t: Token)
    requires Inv(s) && id in s.rows && (s.rows[id].refresh == t || s.rows[id].prev == Some(t))
    ensures t in s.refreshes.place && s.refreshes.place[t].0 == id
    ensures s.refreshes.place[t].1 == |s.refreshes.Of(id)| - (if s.rows[id].refresh == t then 1 else 2)
  {
    var chain := s.refreshes.Of(id);
    assert RowInv(s.rows[id], chain, s.accesses.Of(id));
    Placed(s.refreshes, s.drawn, id, |chain| - 1);
    if s.rows[id].refresh != t { Placed(s.refreshes, s.drawn, id, |chain| - 2); }
  }

  /**
    The compare-and-swap of a call that found its session succeeds exactly when no other call has
    exchanged that token first and the session is still alive; otherwise the call has lost and
    revokes the session.
  */
  lemma SwapWinsExactlyOnce(s: Sys, c: CallId, accessTTL: int, refreshTTL: int)
    requires Inv(s) && c in s.calls && s.calls[c].Found?
    ensures var Found(sid, t) := s.calls[c];
      var after := Next(s, Swap(c, accessTTL, refreshTTL));
      && (after.calls[c].Rotated? <==> t !in s.spent && !Dead(s, sid))
      && (!after.calls[c].Rotated? ==>
            after.calls[c] == Lost(sid) && Dead(Next(after, RevokeReused(c)), sid)
            && Next(after, RevokeReused(c)).calls[c] == Reused(sid))
  {
    var Found(sid, t) := s.calls[c];
    assert CallInv(s, s.calls[c]);
    if sid in s.rows {
      var chain := s.refreshes.Of(sid);
      assert RowInv(s.rows[sid], chain, s.accesses.Of(sid));
      Placed(s.refreshes, s.drawn, sid, |chain| - 1);
      assert chain[s.refreshes.place[t].1] == t;
    }
  }

  // ---------------------------------------------------------------- whole calls, with others in between

  function CallOf(step: Step): Option<CallId> {
    match step
    case Lookup(c, _) => Some(c)
    case Swap(c, _, _) => Some(c)
    case LookupPrev(c) => Some(c)
    case RevokeReused(c) => Some(c)
    case _ => None
  }

  ghost predicate Others(steps: seq<Step>, c: CallId) { forall step <- steps :: CallOf(step) != Some(c) }

  lemma OtherLeavesCall(s: Sys, step: Step, c: CallId)
    requires CallOf(step) != Some(c) && c in s.calls
    ensures c in Next(s, step).calls && Next(s, step).calls[c] == s.calls[c]
  {
  }

  lemma {:induction false} OthersLeaveCall(s: Sys, steps: seq<Step>, c: CallId)
    requires Others(steps, c) && c in s.calls
    ensures c in ExecFrom(s, steps).calls && ExecFrom(s, steps).calls[c] == s.calls[c]
  {
    if steps != [] {
      var before := steps[..|steps| - 1];
      assert Others(before, c);
      OthersLeaveCall(s, before, c);
      assert CallOf(Last(steps)) != Some(c);
      OtherLeavesCall(ExecFrom(s, before), Last(steps), c);
    }
  }

  /** The second statement of a call: the swap if its token was found, the look at previous tokens if not. */
  ghost function Second(s: Sys, c: CallId, accessTTL: int, refreshTTL: int): Step {
    if c in s.calls && s.calls[c].Found? then Swap(c, accessTTL, refreshTTL) else LookupPrev(c)
  }

  /** The third, if the swap was lost or the token is a previous one: the revocation. */
  ghost function Third(s: Sys, c: CallId): Sys {
    if c in s.calls && (s.calls[c].Lost? || s.calls[c].Replayed?) then Next(s, RevokeReused(c)) else s
  }

  ghost function AfterFirst(s: Sys, c: CallId, t: Token, steps: seq<Step>): Sys { ExecFrom(Next(s, Lookup(c, t)), steps) }

  ghost function AfterSecond(s: Sys, c: CallId, accessTTL: int, refreshTTL: int, steps: seq<Step>): Sys {
    ExecFrom(Next(s, Second(s, c, accessTTL, refreshTTL)), steps)
  }

  /** A Refresh call with the steps of others between its statements. */
  ghost function WithGaps(s: Sys, c: CallId, t: Token, accessTTL: int, refreshTTL: int, first: seq<Step>, second: seq<Step>): Sys {
    Third(AfterSecond(AfterFirst(s, c, t, first), c, accessTTL, refreshTTL, second), c)
  }

  /** A call that nothing interrupts. */
  ghost function Alone(s: Sys, c: CallId, t: Token, accessTTL: int, refreshTTL: int): Sys {
    WithGaps(s, c, t, accessTTL, refreshTTL, [], [])
  }

  lemma AloneIs(s: Sys, c: CallId, t: Token, accessTTL: int, refreshTTL: int)
    ensures var s1 := Next(s, Lookup(c, t));
      Alone(s, c, t, accessTTL, refreshTTL) == Third(Next(s1, Second(s1, c, accessTTL, refreshTTL)), c)
  {
  }

  lemma SecondAnswers(s: Sys, c: CallId, t: Token, accessTTL: int, refreshTTL: int)
    requires c in s.calls && (s.calls[c] == Missed(t) || (s.calls[c].Found? && s.calls[c].token == t))
    ensures var a, u := s.calls[c], Next(s, Second(s, c, accessTTL, refreshTTL));
      && c in u.calls
      && (a.Found? ==> u.calls[c] == if CanRotate(s.rows, a.sid, t) then Rotated(a.sid, s.drawn, s.drawn + 1) else Lost(a.sid))
      && (a.Missed? ==> u.calls[c] == if ByPrev(s.rows, t).Some? then Replayed(ByPrev(s.rows, t).value) else Invalid)
  {
  }

  lemma ThirdAnswers(s: Sys, c: CallId)
    requires c in s.calls
    ensures var a, u := s.calls[c], Third(s, c);
      && c in u.calls
      && (a.Lost? || a.Replayed? ==> u.calls[c] == Reused(a.sid) && Dead(u, a.sid))
      && (!a.Lost? && !a.Replayed? ==> u == s)
  {
  }

  /**
    Whoever comes in between, the lookup and then the second statement decide the answer: new tokens if the
    token was a live session's current one at the lookup and still is at the swap; reuse, with the session
    dead, if the swap is lost or the token is then a live session's previous one; invalid otherwise.
  */
  lemma GapsDecide(s: Sys, c: CallId, t: Token, accessTTL: int, refreshTTL: int, first: seq<Step>, second: seq<Step>)
    requires c !in s.calls && t < s.drawn && Others(first, c) && Others(second, c)
    ensures var u, v := WithGaps(s, c, t, accessTTL, refreshTTL, first, second), AfterFirst(s, c, t, first);
      var r := ByRefresh(s.rows, t, s.clock);
      && c in u.calls
      && (r.Some? && CanRotate(v.rows, r.value, t) ==> u.calls[c] == Rotated(r.value, v.drawn, v.drawn + 1))
      && (r.Some? && !CanRotate(v.rows, r.value, t) ==> u.calls[c] == Reused(r.value) && Dead(u, r.value))
      && (r.None? && ByPrev(v.rows, t).Some? ==> u.calls[c] == Reused(ByPrev(v.rows, t).value) && Dead(u, ByPrev(v.rows, t).value))
      && (r.None? && ByPrev(v.rows, t).None? ==> u.calls[c] == Invalid)
  {
    var s1 := Next(s, Lookup(c, t));
    OthersLeaveCall(s1, first, c);
    var s2 := ExecFrom(s1, first);
    SecondAnswers(s2, c, t, accessTTL, refreshTTL);
    var s3 := Next(s2, Second(s2, c, accessTTL, refreshTTL));
    OthersLeaveCall(s3, second, c);
    ThirdAnswers(ExecFrom(s3, second), c);
  }

  /** What the two lookups of Refresh find for the i-th refresh token of a live session. */
  lemma LookupsFind(s: Sys, sid: SessionId, i: nat)
    requires Inv(s) && sid in s.rows && !Dead(s, sid) && i < |s.refreshes.Of(sid)|
    ensures var t, n := s.refreshes.Of(sid)[i], |s.refreshes.Of(sid)|;
      && ByRefresh(s.rows, t, s.clock) == (if i == n - 1 && s.rows[sid].refreshExp > s.clock then Some(sid) else None)
      && ByPrev(s.rows, t) == (if i == n - 2 then Some(sid) else None)
  {
    var t, n := s.refreshes.Of(sid)[i], |s.refreshes.Of(sid)|;
    Placed(s.refreshes, s.drawn, sid, i);
    assert RowInv(s.rows[sid], s.refreshes.Of(sid), s.accesses.Of(sid));
    forall id <- s.rows | s.rows[id].refresh == t ensures id == sid && i == n - 1 {
      TokensIdentifyRows(s, id, t);
    }
    forall id <- s.rows | s.rows[id].prev == Some(t) ensures id == sid && i == n - 2 {
      TokensIdentifyRows(s, id, t);
    }
  }

  /** Alone, a call whose token is found swaps it. */
  lemma AloneHits(s: Sys, c: CallId, sid: SessionId, t: Token, accessTTL: int, refreshTTL: int)
    requires c !in s.calls && t < s.drawn && ByRefresh(s.rows, t, s.clock) == Some(sid)
    ensures var after := Alone(s, c, t, accessTTL, refreshTTL);
      && c in after.calls && after.calls[c] == Rotated(sid, s.drawn, s.drawn + 1) && !Dead(after, sid)
      && after.refreshes.Of(sid) == s.refreshes.Of(sid) + [s.drawn + 1]
  {
    AloneIs(s, c, t, accessTTL, refreshTTL);
    var s1 := Next(s, Lookup(c, t));
    assert s1 == Answer(s, c, Found(sid, t));
    assert CanRotate(s1.rows, sid, t);
    assert Next(s1, Swap(c, accessTTL, refreshTTL)) == RotateTo(s1, c, sid, accessTTL, refreshTTL);
  }

  /** Alone, a call whose token is nobody's current one revokes the session it is the previous one of, if any. */
  lemma AloneMisses(s: Sys, c: CallId, t: Token, accessTTL: int, refreshTTL: int)
    requires c !in s.calls && t < s.drawn && ByRefresh(s.rows, t, s.clock).None?
    ensures var after, r := Alone(s, c, t, accessTTL, refreshTTL), ByPrev(s.rows, t);
      && c in after.calls
      && (r.None? ==> after.calls[c] == Invalid && after.rows == s.rows)
      && (r.Some? ==> after.calls[c] == Reused(r.value) && Dead(after, r.value))
  {
    AloneIs(s, c, t, accessTTL, refreshTTL);
    var s1 := Next(s, Lookup(c, t));
    assert s1 == Answer(s, c, Missed(t));
    var r := ByPrev(s.rows, t);
    assert Next(s1, LookupPrev(c)) == Answer(s1, c, if r.Some? then Replayed(r.value) else Invalid);
  }

  /**
    Presenting the i-th of the n refresh tokens a live session was ever given: the newest is exchanged
    if it has not expired, the one before it revokes the session, and any older one is refused and
    leaves every row as it was.
  */
  lemma PresentedTokenDecides(s: Sys, c: CallId, sid: SessionId, i: nat, accessTTL: int, refreshTTL: int)
    requires Inv(s) && c !in s.calls && sid in s.rows && !Dead(s, sid) && i < |s.refreshes.Of(sid)|
    ensures var t, n := s.refreshes.Of(sid)[i], |s.refreshes.Of(sid)|;
      var after := Alone(s, c, t, accessTTL, refreshTTL);
      && c in after.calls
      && (i == n - 1 && s.rows[sid].refreshExp > s.clock ==>
            after.calls[c] == Rotated(sid, s.drawn, s.drawn + 1) && !Dead(after, sid)
            && after.refreshes.Of(sid) == s.refreshes.Of(sid) + [s.drawn + 1])
      && (i == n - 2 ==> after.calls[c] == Reused(sid) && Dead(after, sid))
      && (i < n - 2 || (i == n - 1 && s.rows[sid].refreshExp <= s.clock) ==>
            after.calls[c] == Invalid && after.rows == s.rows)
  {
    var t := s.refreshes.Of(sid)[i];
    LookupsFind(s, sid, i);
    assert t < s.drawn by { Placed(s.refreshes, s.drawn, sid, i); }
    if ByRefresh(s.rows, t, s.clock).Some? {
      AloneHits(s, c, sid, t, accessTTL, refreshTTL);
    } else {
      AloneMisses(s, c, t, accessTTL, refreshTTL);
    }
  }

  lemma PreviousFinds(s: Sys, sid: SessionId, t: Token)
    requires Inv(s) && sid in s.rows && MatchesPrev(s.rows[sid], t)
    ensures ByPrev(s.rows, t) == Some(sid) && sid in s.refreshes.chains
  {
    TokensIdentifyRows(s, sid, t);
    TokensIdentifyRows(s, ByPrev(s.rows, t).value, t);
    assert RowInv(s.rows[sid], s.refreshes.Of(sid), s.accesses.Of(sid));
  }

  /**
    Even with other requests in between: if the token a call missed is the previous one of a live
    session when the call asks for it, the call ends by revoking that session, for good.
  */
  lemma MissedPreviousRevokes(s: Sys, c: CallId, sid: SessionId, more: seq<Step>)
    requires Inv(s) && c in s.calls && s.calls[c].Missed?
    requires sid in s.rows && MatchesPrev(s.rows[sid], s.calls[c].token)
    ensures var asked := Next(s, LookupPrev(c));
      && asked.calls[c] == Replayed(sid)
      && Dead(ExecFrom(Next(asked, RevokeReused(c)), more), sid)
  {
    PreviousFinds(s, sid, s.calls[c].token);
    var asked := Next(s, LookupPrev(c));
    var done := Next(asked, RevokeReused(c));
    assert Dead(done, sid) && sid in done.refreshes.chains;
    DeadForGood(done, more, sid);
  }

  /** Of all access tokens ever given out, exactly the newest of each live, unexpired session resolves. */
  lemma OnlyNewestAccessResolves(run: seq<Step>, sid: SessionId, i: nat)
    requires i < |Exec(run).accesses.Of(sid)|
    ensures var s := Exec(run);
      ByAccess(s.rows, s.accesses.Of(sid)[i], s.clock) ==
        if i == |s.accesses.Of(sid)| - 1 && !Dead(s, sid) && s.rows[sid].accessExp > s.clock then Some(sid) else None
  {
    InitInv();
    ExecFromInv(Init(), run);
    var s := Exec(run);
    var a := s.accesses.Of(sid)[i];
    Placed(s.accesses, s.drawn, sid, i);
    forall id <- s.rows | s.rows[id].access == a ensures id == sid && i == |s.accesses.Of(sid)| - 1 {
      assert RowInv(s.rows[id], s.refreshes.Of(id), s.accesses.Of(id));
      Placed(s.accesses, s.drawn, id, |s.accesses.Of(id)| - 1);
    }
    if sid in s.rows { assert RowInv(s.rows[sid], s.refreshes.Of(sid), s.accesses.Of(sid)); }
  }
}
