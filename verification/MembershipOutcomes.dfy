/** What each handler does to the members and invites, with any steps of other requests in between. */
module MembershipOutcomes {
  import opened Prelude
  import opened Membership
  import opened MembershipRuns
  import IR = InviteRaces

  // ---------------------------------------------------------------- accepting an invite

  function AtCheck(s: Sys, r: RequestId, i: InviteId, user: UserId, beforeCheck: seq<Step>): Sys {
    Exec(Next(s, ReadInvite(r, i, user)), beforeCheck)
  }

  function AtJoin(s: Sys, r: RequestId, i: InviteId, user: UserId, beforeCheck: seq<Step>, beforeJoin: seq<Step>): Sys {
    Exec(Next(AtCheck(s, r, i, user, beforeCheck), CheckSeat(r)), beforeJoin)
  }

  predicate StandsAt(s: Sys, r: RequestId, stage: Stage) { r in s.requests && s.requests[r] == stage }

  lemma Waits(s: Sys, r: RequestId, stage: Stage, steps: seq<Step>)
    requires StandsAt(s, r, stage) && Others(steps, r)
    ensures StandsAt(Exec(s, steps), r, stage)
  {
    OthersLeaveIt(s, steps, r);
  }

  /** A request that was answered early changes nothing when its later steps come round. */
  lemma AnsweredWaits(s: Sys, r: RequestId, a: Answer, beforeJoin: seq<Step>, fails: bool)
    requires StandsAt(s, r, Answered(a)) && Others(beforeJoin, r)
    ensures Next(s, CheckSeat(r)) == s
    ensures StandsAt(Exec(s, beforeJoin), r, Answered(a))
    ensures Next(Exec(s, beforeJoin), ConsumeAndJoin(r, fails)) == Exec(s, beforeJoin)
  {
    Waits(s, r, Answered(a), beforeJoin);
  }

  /** An unknown invite, and a user who has a seat already, are told so, and nothing is spent. */
  lemma NothingToAccept(s: Sys, r: RequestId, i: InviteId, user: UserId, fails: bool, beforeCheck: seq<Step>, beforeJoin: seq<Step>)
    requires r !in s.requests && Others(beforeCheck, r) && Others(beforeJoin, r)
    ensures var c, j := AtCheck(s, r, i, user, beforeCheck), AtJoin(s, r, i, user, beforeCheck, beforeJoin);
      var u := Next(j, ConsumeAndJoin(r, fails));
      && (i !in s.invites ==> u == j && StandsAt(u, r, Answered(NoInvite)))
      && (i in s.invites && Seat(s.invites[i].circle, user) in c.members ==> u == j && StandsAt(u, r, Answered(AlreadyMember)))
  {
    var s1, c := Next(s, ReadInvite(r, i, user)), AtCheck(s, r, i, user, beforeCheck);
    if i !in s.invites {
      Waits(s1, r, Answered(NoInvite), beforeCheck);
      AnsweredWaits(c, r, NoInvite, beforeJoin, fails);
    } else if Seat(s.invites[i].circle, user) in c.members {
      Waits(s1, r, Invited(i, Seat(s.invites[i].circle, user)), beforeCheck);
      AnsweredWaits(Next(c, CheckSeat(r)), r, AlreadyMember, beforeJoin, fails);
    }
  }

  /** The invite still has a use to give. */
  predicate Gives(s: Sys, i: InviteId) {
    i in s.invites && s.invites[i].active && s.clock < s.invites[i].expiresAt && s.invites[i].uses < s.invites[i].maxUses
  }

  lemma JoinsExactly(s: Sys, r: RequestId, i: InviteId, seat: Seat, fails: bool)
    requires StandsAt(s, r, Joining(i, seat)) && (i in s.invites ==> s.invites[i].circle == seat.circle)
    ensures var u := Next(s, ConsumeAndJoin(r, fails));
      && (fails ==> u.members == s.members && u.invites == s.invites && StandsAt(u, r, Answered(Failed)))
      && (!fails && !Gives(s, i) ==> u.members == s.members && u.invites == s.invites && StandsAt(u, r, Answered(UsedUp)))
      && (!fails && Gives(s, i) ==>
            && StandsAt(u, r, Answered(Joined(s.invites[i].role)))
            && u.members == s.members[seat := s.invites[i].role]
            && u.invites == s.invites[i := s.invites[i].(uses := s.invites[i].uses + 1)])
  {
    assert seat == Seat(seat.circle, seat.user);
  }

  /** A new request for an invite that is there, whose user has no seat when that is checked. */
  predicate FindsASeat(s: Sys, r: RequestId, i: InviteId, user: UserId, beforeCheck: seq<Step>) {
    r !in s.requests && i in s.invites && Seat(s.invites[i].circle, user) !in AtCheck(s, r, i, user, beforeCheck).members
  }

  lemma ReachesTheJoin(run: seq<Step>, r: RequestId, i: InviteId, user: UserId, beforeCheck: seq<Step>, beforeJoin: seq<Step>)
    requires FindsASeat(Exec(Init(), run), r, i, user, beforeCheck) && Others(beforeCheck, r) && Others(beforeJoin, r)
    ensures var s := Exec(Init(), run);
      var j, seat := AtJoin(s, r, i, user, beforeCheck, beforeJoin), Seat(s.invites[i].circle, user);
      StandsAt(j, r, Joining(i, seat)) && (i in j.invites ==> j.invites[i].circle == seat.circle)
  {
    var s := Exec(Init(), run);
    var seat, c := Seat(s.invites[i].circle, user), AtCheck(s, r, i, user, beforeCheck);
    Waits(Next(s, ReadInvite(r, i, user)), r, Invited(i, seat), beforeCheck);
    Waits(Next(c, CheckSeat(r)), r, Joining(i, seat), beforeJoin);
    JoinIsReached(run, r, i, user, beforeCheck, beforeJoin);
    IR.JoinsItsCircle(run + Steps(r, i, user, beforeCheck, beforeJoin), r, i, seat);
  }

  /** What the commit makes of the state it finds. */
  predicate Commits(j: Sys, u: Sys, r: RequestId, i: InviteId, seat: Seat, fails: bool) {
    if !fails && Gives(j, i) then
      && StandsAt(u, r, Answered(Joined(j.invites[i].role)))
      && u.members == j.members[seat := j.invites[i].role]
      && u.invites == j.invites[i := j.invites[i].(uses := j.invites[i].uses + 1)]
    else
      u.members == j.members && u.invites == j.invites && StandsAt(u, r, Answered(if fails then Failed else UsedUp))
  }

  /**
    After any run: a user without a seat when checked gets the seat, with the invite's role and for one use,
    exactly when at the commit the invite still has a use to give and the transaction does not fail;
    otherwise no seat and no invite changes.
  */
  lemma AcceptedExactly(run: seq<Step>, r: RequestId, i: InviteId, user: UserId, fails: bool, beforeCheck: seq<Step>, beforeJoin: seq<Step>)
    requires FindsASeat(Exec(Init(), run), r, i, user, beforeCheck) && Others(beforeCheck, r) && Others(beforeJoin, r)
    ensures var s := Exec(Init(), run);
      var j := AtJoin(s, r, i, user, beforeCheck, beforeJoin);
      Commits(j, Next(j, ConsumeAndJoin(r, fails)), r, i, Seat(s.invites[i].circle, user), fails)
  {
    var s := Exec(Init(), run);
    ReachesTheJoin(run, r, i, user, beforeCheck, beforeJoin);
    JoinsExactly(AtJoin(s, r, i, user, beforeCheck, beforeJoin), r, i, Seat(s.invites[i].circle, user), fails);
  }

  function Steps(r: RequestId, i: InviteId, user: UserId, beforeCheck: seq<Step>, beforeJoin: seq<Step>): seq<Step> {
    [ReadInvite(r, i, user)] + beforeCheck + ([CheckSeat(r)] + beforeJoin)
  }

  lemma ExecFirst(s: Sys, step: Step, more: seq<Step>)
    ensures Exec(s, [step] + more) == Exec(Next(s, step), more)
  {
    IR.ExecConcat(s, [step], more);
    assert [step][..0] == [];
  }

  lemma JoinIsReached(run: seq<Step>, r: RequestId, i: InviteId, user: UserId, beforeCheck: seq<Step>, beforeJoin: seq<Step>)
    ensures Exec(Init(), run + Steps(r, i, user, beforeCheck, beforeJoin))
         == AtJoin(Exec(Init(), run), r, i, user, beforeCheck, beforeJoin)
  {
    var s := Exec(Init(), run);
    IR.ExecConcat(Init(), run, Steps(r, i, user, beforeCheck, beforeJoin));
    IR.ExecConcat(s, [ReadInvite(r, i, user)] + beforeCheck, [CheckSeat(r)] + beforeJoin);
    ExecFirst(s, ReadInvite(r, i, user), beforeCheck);
    ExecFirst(AtCheck(s, r, i, user, beforeCheck), CheckSeat(r), beforeJoin);
  }

  // ---------------------------------------------------------------- leaving

  function AtCount(s: Sys, r: RequestId, seat: Seat, beforeCount: seq<Step>): Sys { Exec(Next(s, Enter(r, seat)), beforeCount) }

  function AtRemove(s: Sys, r: RequestId, seat: Seat, beforeCount: seq<Step>, beforeRemove: seq<Step>): Sys {
    Exec(Next(AtCount(s, r, seat, beforeCount), CountBeforeLeaving(r)), beforeRemove)
  }

  /** A member who is not the owner leaves; nobody else's seat changes. */
  lemma MembersLeave(s: Sys, r: RequestId, seat: Seat, beforeCount: seq<Step>, beforeRemove: seq<Step>)
    requires r !in s.requests && Others(beforeCount, r) && Others(beforeRemove, r)
    requires seat in s.members && s.members[seat] != Owner
    ensures var a := AtRemove(s, r, seat, beforeCount, beforeRemove);
      var u := Next(a, Leave(r));
      StandsAt(u, r, Answered(Left)) && u.members == a.members - {seat}
  {
    Waits(Next(s, Enter(r, seat)), r, Acting(seat, s.members[seat]), beforeCount);
    Waits(Next(AtCount(s, r, seat, beforeCount), CountBeforeLeaving(r)), r, Acting(seat, s.members[seat]), beforeRemove);
  }

  /** The owner is refused, and a stranger finds no circle; neither changes anything. */
  lemma OthersStay(run: seq<Step>, r: RequestId, seat: Seat, beforeCount: seq<Step>, beforeRemove: seq<Step>)
    requires r !in Exec(Init(), run).requests && Others(beforeCount, r) && Others(beforeRemove, r)
    ensures var s := Exec(Init(), run);
      var a := AtRemove(s, r, seat, beforeCount, beforeRemove);
      && (seat in s.members && s.members[seat] == Owner ==> Next(a, Leave(r)) == a && StandsAt(a, r, Answered(SoleOwner)))
      && (seat !in s.members ==> Next(a, Leave(r)) == a && StandsAt(a, r, Answered(NoCircle)))
  {
    var s := Exec(Init(), run);
    var c := AtCount(s, r, seat, beforeCount);
    if seat !in s.members {
      Waits(Next(s, Enter(r, seat)), r, Answered(NoCircle), beforeCount);
      Waits(Next(c, CountBeforeLeaving(r)), r, Answered(NoCircle), beforeRemove);
    } else if s.members[seat] == Owner {
      Waits(Next(s, Enter(r, seat)), r, Acting(seat, Owner), beforeCount);
      var before := run + ([Enter(r, seat)] + beforeCount);
      IR.ExecConcat(Init(), run, [Enter(r, seat)] + beforeCount);
      ExecFirst(s, Enter(r, seat), beforeCount);
      assert Exec(Init(), before) == c;
      OwnersNeverLeave(before, r);
      Waits(Next(c, CountBeforeLeaving(r)), r, Answered(SoleOwner), beforeRemove);
    }
  }

  // ---------------------------------------------------------------- seats and invites, step by step

  /** The request acts in circle c for somebody who was its owner when it came in. */
  predicate OwnerActs(s: Sys, r: RequestId, c: CircleId) {
    r in s.requests && s.requests[r].Acting? && s.requests[r].role == Owner && s.requests[r].seat.circle == c
  }

  /** The step takes the seat away: its circle is deleted, the owner removes its user, or the user leaves. */
  predicate Unseats(s: Sys, step: Step, seat: Seat) {
    match step
    case DeleteCircle(r) => OwnerActs(s, r, seat.circle)
    case RemoveMember(r, target) =>
      OwnerActs(s, r, seat.circle) && target == seat.user && target != s.requests[r].seat.user
    case Leave(r) =>
      && r in s.requests
      && (s.requests[r] == MayLeave(seat)
          || (s.requests[r].Acting? && s.requests[r].seat == seat && s.requests[r].role != Owner))
    case _ => false
  }

  /** A seat is kept through a step exactly unless the step takes it away; its role changes only by joining again. */
  lemma SeatStays(s: Sys, step: Step, seat: Seat)
    requires Inv(s) && seat in s.members
    ensures var u := Next(s, step);
      && (seat in u.members <==> !Unseats(s, step, seat))
      && (seat in u.members && !IR.AcceptsInto(s, step, seat) ==> u.members[seat] == s.members[seat])
  {
    assert seat == Seat(seat.circle, seat.user);
    assert SeatInv(s, seat);
    match step
    case RemoveMember(r, target) =>
    case Leave(r) =>
    case DeleteCircle(r) =>
    case CreateInvite(r, i, terms) =>
    case RevokeInvite(r, i) =>
    case ConsumeAndJoin(r, fails) =>
    case CreateCircle(c, user) =>
    case _ =>
  }

  /** The step uses up, revokes, deletes or outlasts an invite that has uses to give. */
  predicate EndsInvite(s: Sys, step: Step, i: InviteId)
    requires i in s.invites
  {
    match step
    case Tick(n) => s.clock + n >= s.invites[i].expiresAt
    case RevokeInvite(r, j) =>
      j == i && OwnerActs(s, r, s.invites[i].circle)
    case DeleteCircle(r) =>
      OwnerActs(s, r, s.invites[i].circle)
    case ConsumeAndJoin(r, fails) =>
      !fails && r in s.requests && s.requests[r].Joining? && s.requests[r].invite == i && s.invites[i].uses + 1 == s.invites[i].maxUses
    case _ => false
  }

  /** An invite keeps having uses to give exactly until a step ends it. */
  lemma InviteGivesUntil(s: Sys, step: Step, i: InviteId)
    requires Inv(s) && Gives(s, i)
    ensures Gives(Next(s, step), i) <==> !EndsInvite(s, step, i)
  {
    assert InviteInv(s, i);
    match step
    case RemoveMember(r, target) =>
    case Leave(r) =>
    case DeleteCircle(r) =>
    case CreateInvite(r, j, terms) =>
    case RevokeInvite(r, j) =>
    case ConsumeAndJoin(r, fails) =>
    case CreateCircle(c, user) =>
    case _ =>
  }

  /** A member who is no guardian creates an invite into its circle for any terms that are granted. */
  lemma InviteIsMade(s: Sys, r: RequestId, i: InviteId, terms: Terms)
    requires r in s.requests && s.requests[r].Acting? && s.requests[r].role != Guardian
    requires s.requests[r].seat.circle in s.circles && i !in s.limits && Grant(terms).Some?
    ensures var u, g := Next(s, CreateInvite(r, i, terms)), Grant(terms).value;
      && Gives(u, i) && u.invites[i].circle == s.requests[r].seat.circle && u.invites[i].role == g.role
      && u.invites[i].maxUses == g.maxUses && u.invites[i].uses == 0 && u.invites[i].expiresAt == s.clock + g.ttl
      && u.members == s.members
  {
    GrantsAreBounded(terms);
  }
}
