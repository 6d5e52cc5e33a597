/** When accepting an invite spends a use on a seat that is already taken, over any interleaving. */
module InviteRaces {
  import opened Prelude
  import opened Membership
  import opened MembershipRuns

  /** Committing r's accept spends a use of i, and its user already has the seat. */
  predicate SpendsOnTakenSeat(s: Sys, r: RequestId, fails: bool, i: InviteId) {
    var u := NextJoin(s, r, fails);
    && i in s.invites && i in u.invites && u.invites[i].uses == s.invites[i].uses + 1
    && r in s.requests && s.requests[r].Joining? && Seat(s.invites[i].circle, s.requests[r].seat.user) in s.members
  }

  /** The step commits another accept of the seat's user, for an invite into the seat's circle. */
  predicate AcceptsInto(s: Sys, step: Step, seat: Seat) {
    && step.ConsumeAndJoin? && !step.fails && step.r in s.requests && s.requests[step.r].Joining?
    && var i := s.requests[step.r].invite;
    && i in s.invites && Usable(s.invites[i], s.clock) && s.invites[i].circle == seat.circle
    && s.requests[step.r].seat.user == seat.user
  }

  ghost predicate TakenFrom(s: Sys, steps: seq<Step>, n: nat, seat: Seat) {
    && n < |steps| && AcceptsInto(Exec(s, steps[..n]), steps[n], seat) && seat !in Exec(s, steps[..n]).members
    && forall m | n < m <= |steps| :: seat in Exec(s, steps[..m]).members
  }

  /** Some accept of the same user committed meanwhile, and the seat has not been vacated since. */
  ghost predicate TakenMeanwhile(s: Sys, steps: seq<Step>, seat: Seat) { exists n: nat :: TakenFrom(s, steps, n, seat) }

  lemma ExecNext(s: Sys, steps: seq<Step>, n: nat)
    requires n < |steps|
    ensures Exec(s, steps[..n + 1]) == Next(Exec(s, steps[..n]), steps[n])
  {
    assert steps[..n + 1][..n] == steps[..n];
  }

  /** A seat in a circle that has a creator is filled only by an accept. */
  lemma SeatFilled(s: Sys, step: Step, seat: Seat)
    requires seat.circle in s.creators && seat !in s.members && seat in Next(s, step).members
    ensures AcceptsInto(s, step, seat)
  {
    match step
    case ConsumeAndJoin(r, fails) =>
    case CreateCircle(c, user) =>
    case CreateInvite(r, i, terms) =>
    case RevokeInvite(r, i) =>
    case RemoveMember(r, target) =>
    case _ =>
  }

  lemma CreatorsStay(s: Sys, step: Step, c: CircleId)
    requires c in s.creators
    ensures c in Next(s, step).creators
  {
    match step
    case CreateInvite(r, i, terms) =>
    case RevokeInvite(r, i) =>
    case ConsumeAndJoin(r, fails) =>
    case _ =>
  }

  lemma {:induction false} CreatorsStayOn(s: Sys, steps: seq<Step>, c: CircleId)
    requires c in s.creators
    ensures c in Exec(s, steps).creators
  {
    if steps != [] {
      CreatorsStayOn(s, steps[..|steps| - 1], c);
      CreatorsStay(Exec(s, steps[..|steps| - 1]), Last(steps), c);
    }
  }

  lemma {:induction false} FilledAt(s: Sys, steps: seq<Step>, k: nat, seat: Seat) returns (n: nat)
    requires k <= |steps| && seat !in s.members && seat in Exec(s, steps[..k]).members
    ensures n < k && seat !in Exec(s, steps[..n]).members
    ensures forall m | n < m <= k :: seat in Exec(s, steps[..m]).members
  {
    assert k > 0 by { assert steps[..0] == []; }
    n := k - 1;
    if seat in Exec(s, steps[..n]).members {
      n := FilledAt(s, steps, n, seat);
    }
  }

  lemma TakenIff(s: Sys, steps: seq<Step>, seat: Seat)
    requires seat.circle in s.creators && seat !in s.members
    ensures seat in Exec(s, steps).members <==> TakenMeanwhile(s, steps, seat)
  {
    assert steps[..|steps|] == steps;
    if seat in Exec(s, steps).members {
      var n := FilledAt(s, steps, |steps|, seat);
      ExecNext(s, steps, n);
      CreatorsStayOn(s, steps[..n], seat.circle);
      SeatFilled(Exec(s, steps[..n]), steps[n], seat);
      assert TakenFrom(s, steps, n, seat);
    }
    if TakenMeanwhile(s, steps, seat) {
      var n: nat :| TakenFrom(s, steps, n, seat);
      assert seat in Exec(s, steps[..|steps|]).members;
    }
  }

  lemma {:induction false} ExecConcat(s: Sys, a: seq<Step>, b: seq<Step>)
    ensures Exec(s, a + b) == Exec(Exec(s, a), b)
  {
    if b == [] {
      assert a + b == a;
    } else {
      ExecConcat(s, a, b[..|b| - 1]);
      assert (a + b)[..|a + b| - 1] == a + b[..|b| - 1];
    }
  }

  /** In a reachable state a request that is joining joins the circle of its invite. */
  lemma JoinsItsCircle(run: seq<Step>, r: RequestId, i: InviteId, seat: Seat)
    requires var s := Exec(Init(), run); r in s.requests && s.requests[r] == Joining(i, seat)
    ensures var s := Exec(Init(), run); seat.circle in s.creators && (i in s.invites ==> s.invites[i].circle == seat.circle)
  {
    ExecInv(run);
    var s := Exec(Init(), run);
    assert RequestInv(s, s.requests[r]);
  }

  /**
    From any reachable state in which r has just found its seat free, through any steps of other requests:
    r's commit spends a use on an occupied seat exactly when another accept of the same user committed in
    between and the seat was not vacated, the invite is still usable, and the transaction does not fail.
  */
  lemma SpendsOnTakenSeatIff(run: seq<Step>, r: RequestId, i: InviteId, seat: Seat, between: seq<Step>, fails: bool)
    requires Others(between, r)
    requires var s := Exec(Init(), run); r in s.requests && s.requests[r] == Joining(i, seat) && seat !in s.members
    ensures var s := Exec(Init(), run);
      var t := Exec(s, between);
      SpendsOnTakenSeat(t, r, fails, i)
      <==> TakenMeanwhile(s, between, seat) && i in t.invites && Usable(t.invites[i], t.clock) && !fails
  {
    var s := Exec(Init(), run);
    var t := Exec(s, between);
    OthersLeaveIt(s, between, r);
    ExecConcat(Init(), run, between);
    JoinsItsCircle(run, r, i, seat);
    JoinsItsCircle(run + between, r, i, seat);
    TakenIff(s, between, seat);
    assert seat == Seat(seat.circle, seat.user);
  }

  /** With no other accept of the same user between its check and its commit, an accept that joins takes a free seat. */
  lemma AloneTakesAFreeSeat(run: seq<Step>, r: RequestId, i: InviteId, seat: Seat, between: seq<Step>, fails: bool)
    requires Others(between, r)
    requires var s := Exec(Init(), run); r in s.requests && s.requests[r] == Joining(i, seat) && seat !in s.members
    requires forall n | 0 <= n < |between| :: !AcceptsInto(Exec(Exec(Init(), run), between[..n]), between[n], seat)
    ensures !SpendsOnTakenSeat(Exec(Exec(Init(), run), between), r, fails, i)
  {
    SpendsOnTakenSeatIff(run, r, i, seat, between, fails);
  }
}
