/** One owner per circle and bounded invites, over any interleaving of handlers. */
module MembershipRuns {
  import opened Arithmetic
  import opened Prelude
  import opened Membership

  // ---------------------------------------------------------------- one owner

  ghost predicate CircleInv(s: Sys, c: CircleId) {
    c in s.creators && Seat(c, s.creators[c]) in s.members && s.members[Seat(c, s.creators[c])] == Owner
  }

  predicate SeatInv(s: Sys, seat: Seat)
    requires seat in s.members
  {
    seat.circle in s.circles && seat.circle in s.creators && (s.members[seat] == Owner ==> seat.user == s.creators[seat.circle])
  }

  predicate InviteInv(s: Sys, i: InviteId)
    requires i in s.invites
  {
    s.invites[i].circle in s.circles && s.invites[i].role != Owner && i in s.limits && s.invites[i].maxUses == s.limits[i]
  }

  predicate ForCircle(s: Sys, i: InviteId, seat: Seat) {
    seat.circle in s.creators && i in s.limits && (i in s.invites ==> s.invites[i].circle == seat.circle)
  }

  /** A stale role is still right about who the owner is, and whoever is joining is not the owner. */
  predicate RequestInv(s: Sys, stage: Stage) {
    match stage
    case Acting(seat, role) => seat.circle in s.creators && (role == Owner <==> seat.user == s.creators[seat.circle])
    case MayLeave(_) => false
    case Invited(i, seat) => ForCircle(s, i, seat)
    case Joining(i, seat) => ForCircle(s, i, seat) && (seat.circle in s.circles ==> seat.user != s.creators[seat.circle])
    case Answered(_) => true
  }

  ghost predicate CirclesInv(s: Sys) { forall c <- s.circles :: CircleInv(s, c) }

  ghost predicate SeatsInv(s: Sys) { forall seat <- s.members :: SeatInv(s, seat) }

  ghost predicate InvitesInv(s: Sys) { forall i <- s.invites :: InviteInv(s, i) }

  ghost predicate RequestsInv(s: Sys) { forall r <- s.requests :: RequestInv(s, s.requests[r]) }

  ghost predicate Inv(s: Sys) { CirclesInv(s) && SeatsInv(s) && InvitesInv(s) && RequestsInv(s) }

  /** The owners a circle has, as the count query sees them. */
  lemma OwnersAre(s: Sys, c: CircleId)
    requires CirclesInv(s) && SeatsInv(s)
    ensures OwnersOf(s, c) == if c in s.circles then {Seat(c, s.creators[c])} else {}
  {
    if c in s.circles { assert CircleInv(s, c); }
    forall seat | seat in OwnersOf(s, c) ensures c in s.circles && seat == Seat(c, s.creators[c]) {
      assert SeatInv(s, seat);
    }
  }

  /** The only seats that change belong to circles without that creator, or are not the creator's. */
  lemma MembersChange(s: Sys, u: Sys, c: CircleId, user: UserId, role: Role)
    requires CirclesInv(s) && SeatsInv(s) && u.circles == s.circles && u.creators == s.creators
    requires c in s.circles && c in s.creators && user != s.creators[c]
    requires role != Owner
    requires u.members == s.members - {Seat(c, user)} || u.members == s.members[Seat(c, user) := role]
    ensures CirclesInv(u) && SeatsInv(u)
  {
    forall d | d in u.circles ensures CircleInv(u, d) { assert CircleInv(s, d); }
    forall seat | seat in u.members ensures SeatInv(u, seat) {
      if seat in s.members { assert SeatInv(s, seat); }
    }
  }

  lemma CreateKeeps(s: Sys, c: CircleId, user: UserId)
    requires Inv(s)
    ensures Inv(NextCreate(s, c, user))
  {
    var u := NextCreate(s, c, user);
    if u != s {
      forall d | d in u.circles ensures CircleInv(u, d) { if d != c { assert CircleInv(s, d); } }
      forall seat | seat in u.members ensures SeatInv(u, seat) { if seat in s.members { assert SeatInv(s, seat); } }
      forall i | i in u.invites ensures InviteInv(u, i) { assert InviteInv(s, i); }
      forall r | r in u.requests ensures RequestInv(u, u.requests[r]) { assert RequestInv(s, s.requests[r]); }
    }
  }

  lemma DeleteKeeps(s: Sys, c: CircleId)
    requires Inv(s)
    ensures Inv(WithoutCircle(s, c))
  {
    var u := WithoutCircle(s, c);
    forall d | d in u.circles ensures CircleInv(u, d) { assert CircleInv(s, d); }
    forall seat | seat in u.members ensures SeatInv(u, seat) { assert SeatInv(s, seat); }
    forall i | i in u.invites ensures InviteInv(u, i) { assert InviteInv(s, i); }
    forall r | r in u.requests ensures RequestInv(u, u.requests[r]) { assert RequestInv(s, s.requests[r]); }
  }

  /** A step that only moves its own request, or changes invites already known. */
  lemma RequestMoves(s: Sys, u: Sys, r: RequestId, stage: Stage)
    requires Inv(s) && RequestInv(u, stage) && u.requests == s.requests[r := stage]
    requires u.circles == s.circles && u.creators == s.creators && u.members == s.members && u.limits == s.limits
    requires u.invites.Keys == s.invites.Keys
    requires forall i <- u.invites :: u.invites[i].circle == s.invites[i].circle && u.invites[i].role == s.invites[i].role
                                      && u.invites[i].maxUses == s.invites[i].maxUses
    ensures Inv(u)
  {
    forall d | d in u.circles ensures CircleInv(u, d) { assert CircleInv(s, d); }
    forall seat | seat in u.members ensures SeatInv(u, seat) { assert SeatInv(s, seat); }
    forall i | i in u.invites ensures InviteInv(u, i) { assert InviteInv(s, i); }
    forall q | q in u.requests && q != r ensures RequestInv(u, u.requests[q]) { assert RequestInv(s, s.requests[q]); }
  }

  lemma InviteKeeps(s: Sys, r: RequestId, i: InviteId, terms: Terms)
    requires Inv(s)
    ensures Inv(NextInvite(s, r, i, terms))
  {
    var u := NextInvite(s, r, i, terms);
    if u.limits == s.limits {
      if u != s { RequestMoves(s, u, r, Answered(Refused)); }
    } else {
      forall d | d in u.circles ensures CircleInv(u, d) { assert CircleInv(s, d); }
      forall seat | seat in u.members ensures SeatInv(u, seat) { assert SeatInv(s, seat); }
      forall j | j in u.invites ensures InviteInv(u, j) { if j != i { assert InviteInv(s, j); } }
      forall q | q in u.requests && q != r ensures RequestInv(u, u.requests[q]) { assert RequestInv(s, s.requests[q]); }
    }
  }

  /** Requests look only at circles, creators, limits and the circles of invites. */
  lemma RequestsUnmoved(s: Sys, u: Sys)
    requires RequestsInv(s) && InvitesInv(s)
    requires u.circles == s.circles && u.creators == s.creators && u.limits == s.limits && u.invites == s.invites
    requires forall q <- u.requests :: (q in s.requests && u.requests[q] == s.requests[q]) || u.requests[q].Answered?
    ensures RequestsInv(u) && InvitesInv(u)
  {
    forall q | q in u.requests ensures RequestInv(u, u.requests[q]) {
      if !u.requests[q].Answered? { assert RequestInv(s, s.requests[q]); }
    }
    forall i | i in u.invites ensures InviteInv(u, i) { assert InviteInv(s, i); }
  }

  lemma NobodyInCircle(s: Sys, u: Sys, seat: Seat)
    requires CirclesInv(s) && SeatsInv(s) && seat.circle !in s.circles
    requires u.circles == s.circles && u.creators == s.creators && u.members == s.members - {seat}
    ensures CirclesInv(u) && SeatsInv(u)
  {
    assert seat in s.members ==> SeatInv(s, seat);
    assert u.members == s.members;
    forall d | d in u.circles ensures CircleInv(u, d) { assert CircleInv(s, d); }
    forall x | x in u.members ensures SeatInv(u, x) { assert SeatInv(s, x); }
  }

  lemma SeatGoes(s: Sys, u: Sys, seat: Seat)
    requires CirclesInv(s) && SeatsInv(s) && seat.circle in s.creators && seat.user != s.creators[seat.circle]
    requires u.circles == s.circles && u.creators == s.creators && u.members == s.members - {seat}
    ensures CirclesInv(u) && SeatsInv(u)
  {
    assert seat == Seat(seat.circle, seat.user);
    if seat.circle in s.circles { MembersChange(s, u, seat.circle, seat.user, Member); } else { NobodyInCircle(s, u, seat); }
  }

  lemma RemoveKeeps(s: Sys, r: RequestId, target: UserId)
    requires Inv(s)
    ensures Inv(NextRemove(s, r, target))
  {
    var u := NextRemove(s, r, target);
    if ActsAsOwner(s, r) {
      var seat := s.requests[r].seat;
      assert RequestInv(s, s.requests[r]);
      RequestsUnmoved(s, u);
      if target == seat.user { RequestMoves(s, u, r, Answered(Refused)); }
      else { SeatGoes(s, u, Seat(seat.circle, target)); }
    }
  }

  lemma LeaveKeeps(s: Sys, r: RequestId)
    requires Inv(s)
    ensures Inv(NextLeave(s, r))
  {
    var u := NextLeave(s, r);
    if u != s {
      assert RequestInv(s, s.requests[r]);
      RequestsUnmoved(s, u);
      SeatGoes(s, u, s.requests[r].seat);
    }
  }

  lemma JoinKeeps(s: Sys, r: RequestId, fails: bool)
    requires Inv(s)
    ensures Inv(NextJoin(s, r, fails))
  {
    var u := NextJoin(s, r, fails);
    if r in s.requests && s.requests[r].Joining? {
      var Joining(i, seat) := s.requests[r];
      assert RequestInv(s, s.requests[r]);
      if u.accepts == s.accepts {
        RequestMoves(s, u, r, u.requests[r]);
      } else {
        assert InviteInv(s, i);
        var v := u.(members := s.members);
        RequestMoves(s, v, r, u.requests[r]);
        MembersChange(v, u, seat.circle, seat.user, s.invites[i].role);
        RequestsUnmoved(v, u);
      }
    }
  }

  lemma CountKeeps(s: Sys, r: RequestId)
    requires Inv(s)
    ensures Inv(NextCount(s, r))
  {
    if ActsAsOwner(s, r) {
      OwnersAre(s, s.requests[r].seat.circle);
      RequestMoves(s, NextCount(s, r), r, Answered(SoleOwner));
    }
  }

  lemma EnterKeeps(s: Sys, r: RequestId, seat: Seat)
    requires Inv(s)
    ensures Inv(Next(s, Enter(r, seat)))
  {
    var u := Next(s, Enter(r, seat));
    if u != s {
      if seat in s.members {
        assert SeatInv(s, seat) && CircleInv(s, seat.circle);
        assert seat.user == s.creators[seat.circle] ==> seat == Seat(seat.circle, s.creators[seat.circle]);
      }
      RequestMoves(s, u, r, u.requests[r]);
    }
  }

  lemma ReadInviteKeeps(s: Sys, r: RequestId, i: InviteId, user: UserId)
    requires Inv(s)
    ensures Inv(Next(s, ReadInvite(r, i, user)))
  {
    var u := Next(s, ReadInvite(r, i, user));
    if u != s {
      if i in s.invites { assert InviteInv(s, i) && CircleInv(s, s.invites[i].circle); }
      RequestMoves(s, u, r, u.requests[r]);
    }
  }

  lemma CheckSeatKeeps(s: Sys, r: RequestId)
    requires Inv(s)
    ensures Inv(NextCheckSeat(s, r))
  {
    var u := NextCheckSeat(s, r);
    if r in s.requests && s.requests[r].Invited? {
      assert RequestInv(s, s.requests[r]);
      var seat := s.requests[r].seat;
      if seat.circle in s.circles { assert CircleInv(s, seat.circle); assert seat == Seat(seat.circle, seat.user); }
      RequestMoves(s, u, r, u.requests[r]);
    }
  }

  lemma NextInv(s: Sys, step: Step)
    requires Inv(s)
    ensures Inv(Next(s, step))
  {
    match step
    case Tick(_) => TickKeeps(s, Next(s, step));
    case CreateCircle(c, user) => CreateKeeps(s, c, user);
    case CreateInvite(r, i, terms) => InviteKeeps(s, r, i, terms);
    case RevokeInvite(r, i) => if ActsAsOwner(s, r) { RequestMoves(s, Next(s, step), r, Answered(Done)); }
    case DeleteCircle(r) =>
      if ActsAsOwner(s, r) {
        RequestMoves(s, Answers(s, r, Done), r, Answered(Done));
        DeleteKeeps(Answers(s, r, Done), s.requests[r].seat.circle);
      }
    case RemoveMember(r, target) => RemoveKeeps(s, r, target);
    case CountBeforeLeaving(r) => CountKeeps(s, r);
    case Leave(r) => LeaveKeeps(s, r);
    case ConsumeAndJoin(r, fails) => JoinKeeps(s, r, fails);
    case Enter(r, seat) => EnterKeeps(s, r, seat);
    case ReadInvite(r, i, user) => ReadInviteKeeps(s, r, i, user);
    case CheckSeat(r) => CheckSeatKeeps(s, r);
  }

  lemma TickKeeps(s: Sys, u: Sys)
    requires Inv(s) && u == s.(clock := u.clock)
    ensures Inv(u)
  {
    forall d | d in u.circles ensures CircleInv(u, d) { assert CircleInv(s, d); }
    forall seat | seat in u.members ensures SeatInv(u, seat) { assert SeatInv(s, seat); }
    RequestsUnmoved(s, u);
  }

  lemma {:induction false} ExecInv(steps: seq<Step>)
    ensures Inv(Exec(Init(), steps))
  {
    if steps != [] {
      ExecInv(steps[..|steps| - 1]);
      NextInv(Exec(Init(), steps[..|steps| - 1]), Last(steps));
    }
  }

  /** In every run every existing circle has exactly one owner, its creator. */
  lemma ExactlyOneOwner(steps: seq<Step>, c: CircleId)
    requires c in Exec(Init(), steps).circles
    ensures var s := Exec(Init(), steps); c in s.creators && OwnersOf(s, c) == {Seat(c, s.creators[c])}
  {
    ExecInv(steps);
    assert CircleInv(Exec(Init(), steps), c);
    OwnersAre(Exec(Init(), steps), c);
  }

  /** So an owner's leave is always refused: the count never finds a second owner. */
  lemma OwnersNeverLeave(steps: seq<Step>, r: RequestId)
    requires ActsAsOwner(Exec(Init(), steps), r)
    ensures var s := Exec(Init(), steps); NextCount(s, r) == Answers(s, r, SoleOwner)
  {
    ExecInv(steps);
    OwnersAre(Exec(Init(), steps), Exec(Init(), steps).requests[r].seat.circle);
  }

  // ---------------------------------------------------------------- invites

  function Uses(accepts: seq<Accept>, i: InviteId): nat {
    if accepts == [] then 0 else Uses(accepts[..|accepts| - 1], i) + if Last(accepts).invite == i then 1 else 0
  }

  function Admitted(accepts: seq<Accept>, i: InviteId): set<UserId> {
    set a | a in accepts && a.invite == i :: a.user
  }

  predicate UsesInv(s: Sys, i: InviteId) {
    && (i in s.limits ==> Uses(s.accepts, i) <= s.limits[i])
    && (i !in s.limits ==> Uses(s.accepts, i) == 0)
    && (i in s.invites ==> i in s.limits && s.invites[i].maxUses == s.limits[i] && s.invites[i].uses == Uses(s.accepts, i))
  }

  lemma UsesMore(accepts: seq<Accept>, a: Accept, i: InviteId)
    ensures Uses(accepts + [a], i) == Uses(accepts, i) + if a.invite == i then 1 else 0
  {
    assert (accepts + [a])[..|accepts|] == accepts;
  }

  lemma JoinUses(s: Sys, r: RequestId, fails: bool, i: InviteId)
    requires UsesInv(s, i)
    ensures UsesInv(NextJoin(s, r, fails), i)
  {
    var u := NextJoin(s, r, fails);
    if r in s.requests && s.requests[r].Joining? {
      var Joining(j, seat) := s.requests[r];
      if !fails && j in s.invites && Usable(s.invites[j], s.clock) {
        UsesMore(s.accepts, Accept(j, seat.user), i);
      } else {
        assert u.accepts == s.accepts && u.invites == s.invites && u.limits == s.limits;
      }
    }
  }

  lemma InviteUses(s: Sys, r: RequestId, j: InviteId, terms: Terms, i: InviteId)
    requires UsesInv(s, i)
    ensures UsesInv(NextInvite(s, r, j, terms), i)
  {
  }

  lemma RevokeUses(s: Sys, r: RequestId, j: InviteId, i: InviteId)
    requires UsesInv(s, i)
    ensures UsesInv(NextRevoke(s, r, j), i)
  {
  }

  predicate SameInvites(s: Sys, u: Sys) { u.accepts == s.accepts && u.invites == s.invites && u.limits == s.limits }

  lemma RemovalsKeepInvites(s: Sys, r: RequestId, target: UserId)
    ensures SameInvites(s, NextRemove(s, r, target)) && SameInvites(s, NextLeave(s, r))
    ensures SameInvites(s, NextCount(s, r)) && SameInvites(s, NextCheckSeat(s, r))
  {
  }

  lemma NextUses(s: Sys, step: Step, i: InviteId)
    requires UsesInv(s, i)
    ensures UsesInv(Next(s, step), i)
  {
    match step
    case ConsumeAndJoin(r, fails) => JoinUses(s, r, fails, i);
    case CreateInvite(r, j, terms) => InviteUses(s, r, j, terms, i);
    case RevokeInvite(r, j) => RevokeUses(s, r, j, i);
    case DeleteCircle(_) =>
    case RemoveMember(r, target) => RemovalsKeepInvites(s, r, target);
    case CountBeforeLeaving(r) => RemovalsKeepInvites(s, r, 0);
    case Leave(r) => RemovalsKeepInvites(s, r, 0);
    case CheckSeat(r) => RemovalsKeepInvites(s, r, 0);
    case CreateCircle(_, _) =>
    case Tick(_) =>
    case Enter(_, _) =>
    case ReadInvite(_, _, _) =>
  }

  lemma {:induction false} ExecUses(steps: seq<Step>, i: InviteId)
    ensures UsesInv(Exec(Init(), steps), i)
  {
    if steps != [] {
      ExecUses(steps[..|steps| - 1], i);
      NextUses(Exec(Init(), steps[..|steps| - 1]), Last(steps), i);
    }
  }

  lemma {:induction false} AdmittedAtMostUses(accepts: seq<Accept>, i: InviteId)
    ensures |Admitted(accepts, i)| <= Uses(accepts, i)
  {
    if accepts != [] {
      var before, a := accepts[..|accepts| - 1], Last(accepts);
      AdmittedAtMostUses(before, i);
      assert accepts == before + [a];
      assert Admitted(accepts, i) == Admitted(before, i) + if a.invite == i then {a.user} else {};
    } else {
      assert Admitted(accepts, i) == {};
    }
  }

  /**
    In every run an invite's committed accepts number exactly its uses, never more than max_uses, and bound
    the distinct users it let in, also after its circle is gone.
  */
  lemma InvitesAreBounded(steps: seq<Step>, i: InviteId)
    ensures var s := Exec(Init(), steps);
      && (i in s.invites ==> s.invites[i].uses == Uses(s.accepts, i) <= s.invites[i].maxUses)
      && (i in s.limits ==> |Admitted(s.accepts, i)| <= Uses(s.accepts, i) <= s.limits[i])
      && (i !in s.limits ==> Uses(s.accepts, i) == 0)
  {
    ExecUses(steps, i);
    AdmittedAtMostUses(Exec(Init(), steps).accepts, i);
  }

  lemma ReadAndCheck(s: Sys, r: RequestId, i: InviteId, seat: Seat)
    requires r !in s.requests && i in s.invites && s.invites[i].circle == seat.circle && seat !in s.members
    ensures Next(Next(s, ReadInvite(r, i, seat.user)), CheckSeat(r)) == s.(requests := s.requests[r := Joining(i, seat)])
  {
    assert seat == Seat(seat.circle, seat.user);
  }

  lemma JoinOnce(s: Sys, r: RequestId, i: InviteId, seat: Seat)
    requires r in s.requests && s.requests[r] == Joining(i, seat)
    requires i in s.invites && s.invites[i].circle == seat.circle && Usable(s.invites[i], s.clock)
    ensures var u := Next(s, ConsumeAndJoin(r, false));
      && u.requests == s.requests[r := Answered(Joined(s.invites[i].role))] && u.clock == s.clock
      && u.invites == s.invites[i := s.invites[i].(uses := s.invites[i].uses + 1)]
      && u.members == s.members[seat := s.invites[i].role]
  {
    assert seat == Seat(seat.circle, seat.user);
  }

  /** One user's two accepts racing past the membership check spend two uses on one seat. */
  lemma DoubleAcceptSpendsTwo(s: Sys, i: InviteId, seat: Seat, q: RequestId, r: RequestId)
    requires q !in s.requests && r !in s.requests && q != r && seat !in s.members
    requires i in s.invites && s.invites[i].circle == seat.circle && Usable(s.invites[i], s.clock)
    requires s.invites[i].uses + 1 < s.invites[i].maxUses
    ensures var u := Exec(s, [ReadInvite(q, i, seat.user), CheckSeat(q), ReadInvite(r, i, seat.user), CheckSeat(r),
                              ConsumeAndJoin(q, false), ConsumeAndJoin(r, false)]);
      i in u.invites && u.invites[i].uses == s.invites[i].uses + 2 && u.members == s.members[seat := s.invites[i].role]
  {
    SixSteps(s, ReadInvite(q, i, seat.user), CheckSeat(q), ReadInvite(r, i, seat.user), CheckSeat(r),
             ConsumeAndJoin(q, false), ConsumeAndJoin(r, false));
    ReadAndCheck(s, q, i, seat);
    var s2 := s.(requests := s.requests[q := Joining(i, seat)]);
    ReadAndCheck(s2, r, i, seat);
    var s4 := s2.(requests := s2.requests[r := Joining(i, seat)]);
    JoinOnce(s4, q, i, seat);
    JoinOnce(Next(s4, ConsumeAndJoin(q, false)), r, i, seat);
  }

  lemma SixSteps(s: Sys, a: Step, b: Step, c: Step, d: Step, e: Step, f: Step)
    ensures Exec(s, [a, b, c, d, e, f]) == Next(Next(Next(Next(Next(Next(s, a), b), c), d), e), f)
  {
    assert [a, b, c, d, e, f][..5] == [a, b, c, d, e] && [a, b, c, d, e][..4] == [a, b, c, d];
    assert [a, b, c, d][..3] == [a, b, c] && [a, b, c][..2] == [a, b] && [a, b][..1] == [a] && [a][..0] == [];
    assert Exec(s, [a]) == Next(s, a);
    assert Exec(s, [a, b]) == Next(Exec(s, [a]), b);
    assert Exec(s, [a, b, c]) == Next(Exec(s, [a, b]), c);
    assert Exec(s, [a, b, c, d]) == Next(Exec(s, [a, b, c]), d);
    assert Exec(s, [a, b, c, d, e]) == Next(Exec(s, [a, b, c, d]), e);
  }

  // ---------------------------------------------------------------- terms

  /** Whatever is asked for, an invite is granted 1 to 1000 uses, at most 30 days, and never the owner role. */
  lemma GrantsAreBounded(t: Terms)
    requires Grant(t).Some?
    ensures var g := Grant(t).value; 1 <= g.maxUses <= 1000 && 0 < g.ttl <= 30 * DAY && g.role != Owner
  {
  }

  /** What the request asks for, with no limit on the size of a lifetime. */
  function Asked(t: Terms): Option<Granted> {
    var role := if t.role.None? then Member else t.role.value;
    var maxUses := if t.maxUses <= 0 then 1 else t.maxUses;
    var ttl := if t.ttlSeconds <= 0 then 7 * DAY else t.ttlSeconds * SECOND;
    if role == Owner || maxUses > 1000 || ttl > 30 * DAY then None else Some(Granted(role, maxUses, ttl))
  }

  /** The handler does what was asked exactly when the lifetime survives the wrap-around, or does not matter. */
  lemma GrantedAsAsked(t: Terms)
    ensures var w := Wrapped(t.ttlSeconds * SECOND);
      Grant(t) == Asked(t) <==>
        || t.role == Some(Owner) || t.maxUses > 1000
        || w == t.ttlSeconds * SECOND
        || (if t.ttlSeconds > 0 then w > 30 * DAY else w <= 0 || w == 7 * DAY)
  {
  }

  /** So a lifetime that fits 64 bits as nanoseconds, about 292 years either way, is treated as asked. */
  lemma InRangeAsAsked(t: Terms)
    requires -0x8000_0000_0000_0000 <= t.ttlSeconds * SECOND < 0x8000_0000_0000_0000
    ensures Grant(t) == Asked(t)
    ensures Grant(t).None? <==> t.role == Some(Owner) || t.maxUses > 1000 || t.ttlSeconds > 30 * 24 * 3600
  {
    GrantedAsAsked(t);
  }

  /** A request for 18446744074 seconds wraps round and is granted as a third of a second. */
  lemma HugeTtlWraps()
    ensures Grant(Terms(None, 1, 18446744074)) == Some(Granted(Member, 1, 290448384))
  {
  }

  /** A lifetime of -18446744073 seconds, which stands for the default week, is granted as 0.7 seconds. */
  lemma NegativeTtlWraps()
    ensures Grant(Terms(None, 1, -18446744073)) == Some(Granted(Member, 1, 709551616))
    ensures Asked(Terms(None, 1, -18446744073)) == Some(Granted(Member, 1, 7 * DAY))
  {
  }
}
