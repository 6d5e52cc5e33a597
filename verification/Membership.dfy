/**
  Circles, their members and invites (server/internal/httpapi/circles.go and invites.go,
  server/internal/store/circles.sql.go and invites.sql.go).

  One SQL statement, or one transaction, is one step; a handler acts on the membership its middleware read
  earlier, and any steps of other requests may come in between. Durations are nanoseconds.
*/
module Membership {
  import opened Arithmetic
  import opened Prelude

  type CircleId = nat
  type UserId = nat
  type InviteId = nat
  type RequestId = nat
  type Time = int

  datatype Role = Owner | Member | Guardian

  datatype Seat = Seat(circle: CircleId, user: UserId)

  datatype Invite = Invite(circle: CircleId, role: Role, maxUses: nat, uses: nat, expiresAt: Time, active: bool)

  /** Where a request stands between its statements. */
  datatype Stage =
    | Acting(seat: Seat, role: Role)                     // past the middleware, with the role it read
    | MayLeave(seat: Seat)                               // an owner that counted a second owner
    | Invited(invite: InviteId, seat: Seat)              // read the invite; check for a seat next
    | Joining(invite: InviteId, seat: Seat)              // found no seat; consume and join next
    | Answered(answer: Answer)

  datatype Answer = NoCircle | Refused | SoleOwner | Left | NoInvite | AlreadyMember | Joined(role: Role) | UsedUp | Failed | Done

  /** A committed accept. */
  datatype Accept = Accept(invite: InviteId, user: UserId)

  datatype Sys = Sys(
    circles: set<CircleId>, members: map<Seat, Role>, invites: map<InviteId, Invite>, clock: Time,
    requests: map<RequestId, Stage>, creators: map<CircleId, UserId>, limits: map<InviteId, nat>, accepts: seq<Accept>)

  datatype Step =
    | Tick(n: nat)
    | CreateCircle(c: CircleId, user: UserId)
    | Enter(r: RequestId, seat: Seat)
    | CreateInvite(r: RequestId, i: InviteId, terms: Terms)
    | RevokeInvite(r: RequestId, i: InviteId)
    | DeleteCircle(r: RequestId)
    | RemoveMember(r: RequestId, target: UserId)
    | CountBeforeLeaving(r: RequestId)
    | Leave(r: RequestId)
    | ReadInvite(r: RequestId, i: InviteId, user: UserId)
    | CheckSeat(r: RequestId)
    | ConsumeAndJoin(r: RequestId, fails: bool)

  function Init(): Sys { Sys({}, map[], map[], 0, map[], map[], map[], []) }

  // ---------------------------------------------------------------- invite terms

  const SECOND: int := 1_000_000_000
  const DAY: int := 24 * 3600 * SECOND

  datatype Terms = Terms(role: Option<Role>, maxUses: int, ttlSeconds: Int64)

  datatype Granted = Granted(role: Role, maxUses: nat, ttl: int)

  /** What a create request is granted, or None when it is answered with an error. The product wraps at 64 bits. */
  function Grant(t: Terms): Option<Granted> {
    var role := if t.role.None? then Member else t.role.value;
    var maxUses := if t.maxUses <= 0 then 1 else t.maxUses;
    var asked := Wrapped(t.ttlSeconds * SECOND);
    var ttl := if asked <= 0 then 7 * DAY else asked;
    if role == Owner || maxUses > 1000 || ttl > 30 * DAY then None else Some(Granted(role, maxUses, ttl))
  }

  // ---------------------------------------------------------------- steps

  function Answers(s: Sys, r: RequestId, a: Answer): Sys { s.(requests := s.requests[r := Answered(a)]) }

  predicate ActsAsOwner(s: Sys, r: RequestId) {
    r in s.requests && s.requests[r].Acting? && s.requests[r].role == Owner
  }

  /** Deleting a circle takes its members and invites with it. */
  function WithoutCircle(s: Sys, c: CircleId): Sys {
    s.(circles := s.circles - {c},
       members := map seat | seat in s.members && seat.circle != c :: s.members[seat],
       invites := map i | i in s.invites && s.invites[i].circle != c :: s.invites[i])
  }

  function OwnersOf(s: Sys, c: CircleId): set<Seat> {
    set seat | seat in s.members && seat.circle == c && s.members[seat] == Owner
  }

  predicate Usable(inv: Invite, now: Time) { inv.active && inv.expiresAt > now && inv.uses < inv.maxUses }

  function NextCreate(s: Sys, c: CircleId, user: UserId): Sys {
    if c in s.creators then s else
    s.(circles := s.circles + {c}, members := s.members[Seat(c, user) := Owner], creators := s.creators[c := user])
  }

  function NextInvite(s: Sys, r: RequestId, i: InviteId, terms: Terms): Sys {
    if r !in s.requests || !s.requests[r].Acting? || i in s.limits then s else
    var c, granted := s.requests[r].seat.circle, Grant(terms);
    if s.requests[r].role == Guardian || granted.None? || c !in s.circles then Answers(s, r, Refused) else
    var g := granted.value;
    Answers(s, r, Done).(invites := s.invites[i := Invite(c, g.role, g.maxUses, 0, s.clock + g.ttl, true)],
                         limits := s.limits[i := g.maxUses])
  }

  function NextRevoke(s: Sys, r: RequestId, i: InviteId): Sys {
    if !ActsAsOwner(s, r) then s
    else if i in s.invites && s.invites[i].circle == s.requests[r].seat.circle then
      Answers(s, r, Done).(invites := s.invites[i := s.invites[i].(active := false)])
    else Answers(s, r, Done)
  }

  function NextRemove(s: Sys, r: RequestId, target: UserId): Sys {
    if !ActsAsOwner(s, r) then s else
    var seat := s.requests[r].seat;
    if target == seat.user then Answers(s, r, Refused)
    else Answers(s, r, Done).(members := s.members - {Seat(seat.circle, target)})
  }

  function NextCount(s: Sys, r: RequestId): Sys {
    if !ActsAsOwner(s, r) then s
    else if |OwnersOf(s, s.requests[r].seat.circle)| <= 1 then Answers(s, r, SoleOwner)
    else s.(requests := s.requests[r := MayLeave(s.requests[r].seat)])
  }

  function NextLeave(s: Sys, r: RequestId): Sys {
    if r in s.requests && (s.requests[r].MayLeave? || (s.requests[r].Acting? && s.requests[r].role != Owner)) then
      Answers(s, r, Left).(members := s.members - {s.requests[r].seat})
    else s
  }

  function NextCheckSeat(s: Sys, r: RequestId): Sys {
    if r !in s.requests || !s.requests[r].Invited? then s else
    var Invited(i, seat) := s.requests[r];
    if seat in s.members then Answers(s, r, AlreadyMember) else s.(requests := s.requests[r := Joining(i, seat)])
  }

  /** One transaction: consume a use, then upsert the seat with the invite's role. */
  function NextJoin(s: Sys, r: RequestId, fails: bool): Sys {
    if r !in s.requests || !s.requests[r].Joining? then s else
    var Joining(i, seat) := s.requests[r];
    if fails then Answers(s, r, Failed)
    else if i !in s.invites || !Usable(s.invites[i], s.clock) then Answers(s, r, UsedUp)
    else
      var inv := s.invites[i];
      Answers(s, r, Joined(inv.role)).(invites := s.invites[i := inv.(uses := inv.uses + 1)],
        members := s.members[Seat(inv.circle, seat.user) := inv.role], accepts := s.accepts + [Accept(i, seat.user)])
  }

  /** A step that is not enabled changes nothing. */
  function Next(s: Sys, step: Step): Sys {
    match step
    case Tick(n) => s.(clock := s.clock + n)
    case CreateCircle(c, user) => NextCreate(s, c, user)
    case Enter(r, seat) =>
      if r in s.requests then s
      else if seat in s.members then s.(requests := s.requests[r := Acting(seat, s.members[seat])])
      else Answers(s, r, NoCircle)
    case CreateInvite(r, i, terms) => NextInvite(s, r, i, terms)
    case RevokeInvite(r, i) => NextRevoke(s, r, i)
    case DeleteCircle(r) => if ActsAsOwner(s, r) then WithoutCircle(Answers(s, r, Done), s.requests[r].seat.circle) else s
    case RemoveMember(r, target) => NextRemove(s, r, target)
    case CountBeforeLeaving(r) => NextCount(s, r)
    case Leave(r) => NextLeave(s, r)
    case ReadInvite(r, i, user) =>
      if r in s.requests then s
      else if i in s.invites then s.(requests := s.requests[r := Invited(i, Seat(s.invites[i].circle, user))])
      else Answers(s, r, NoInvite)
    case CheckSeat(r) => NextCheckSeat(s, r)
    case ConsumeAndJoin(r, fails) => NextJoin(s, r, fails)
  }

  function Exec(s: Sys, steps: seq<Step>): Sys {
    if steps == [] then s else Next(Exec(s, steps[..|steps| - 1]), Last(steps))
  }

  // ---------------------------------------------------------------- the handlers

  function RequestOf(step: Step): Option<RequestId> {
    match step
    case Tick(_) => None
    case CreateCircle(_, _) => None
    case Enter(r, _) => Some(r)
    case CreateInvite(r, _, _) => Some(r)
    case RevokeInvite(r, _) => Some(r)
    case DeleteCircle(r) => Some(r)
    case RemoveMember(r, _) => Some(r)
    case CountBeforeLeaving(r) => Some(r)
    case Leave(r) => Some(r)
    case ReadInvite(r, _, _) => Some(r)
    case CheckSeat(r) => Some(r)
    case ConsumeAndJoin(r, _) => Some(r)
  }

  ghost predicate Others(steps: seq<Step>, r: RequestId) { forall step <- steps :: RequestOf(step) != Some(r) }

  lemma OtherLeavesIt(s: Sys, step: Step, r: RequestId)
    requires RequestOf(step) != Some(r) && r in s.requests
    ensures r in Next(s, step).requests && Next(s, step).requests[r] == s.requests[r]
  {
    match step
    case CreateCircle(_, _) =>
    case Tick(_) =>
    case _ => assert RequestOf(step).value != r;
  }

  lemma {:induction false} OthersLeaveIt(s: Sys, steps: seq<Step>, r: RequestId)
    requires Others(steps, r) && r in s.requests
    ensures r in Exec(s, steps).requests && Exec(s, steps).requests[r] == s.requests[r]
  {
    if steps != [] {
      var before := steps[..|steps| - 1];
      assert Others(before, r);
      OthersLeaveIt(s, before, r);
      assert RequestOf(Last(steps)) != Some(r);
      OtherLeavesIt(Exec(s, before), Last(steps), r);
    }
  }

  class Server {
    var sys: Sys

    constructor ()
      ensures sys == Init()
    {
      sys := Init();
    }

    method Meanwhile(steps: seq<Step>)
      modifies this
      ensures sys == Exec(old(sys), steps)
    {
      sys := Exec(sys, steps);
    }

    /** The conditional increment: a use only while the invite is active, unexpired and not used up. */
    method ConsumeInvite(i: InviteId) returns (consumed: Option<Invite>)
      modifies this
      ensures consumed.Some? <==> i in old(sys).invites && Usable(old(sys).invites[i], old(sys).clock)
      ensures consumed.Some? ==> consumed == Some(old(sys).invites[i].(uses := old(sys).invites[i].uses + 1))
                                 && sys == old(sys).(invites := old(sys).invites[i := consumed.value])
      ensures consumed.None? ==> sys == old(sys)
    {
      if i !in sys.invites { return None; }
      var inv := sys.invites[i];
      if !inv.active || inv.expiresAt <= sys.clock || inv.uses >= inv.maxUses { return None; }
      inv := inv.(uses := inv.uses + 1);
      sys := sys.(invites := sys.invites[i := inv]);
      return Some(inv);
    }

    /** Read the invite, check for a seat, then consume and join in one transaction. */
    method AcceptInvite(r: RequestId, i: InviteId, user: UserId, fails: bool, beforeCheck: seq<Step>, beforeJoin: seq<Step>)
      returns (a: Answer)
      requires r !in sys.requests && Others(beforeCheck, r) && Others(beforeJoin, r)
      modifies this
      ensures var s := Next(old(sys), ReadInvite(r, i, user));
        sys == Next(Exec(Next(Exec(s, beforeCheck), CheckSeat(r)), beforeJoin), ConsumeAndJoin(r, fails))
      ensures r in sys.requests && sys.requests[r] == Answered(a)
    {
      var stage := if i in sys.invites then Invited(i, Seat(sys.invites[i].circle, user)) else Answered(NoInvite);
      sys := sys.(requests := sys.requests[r := stage]);
      OthersLeaveIt(sys, beforeCheck, r);
      Meanwhile(beforeCheck);
      if stage.Invited? {
        stage := if stage.seat in sys.members then Answered(AlreadyMember) else Joining(i, stage.seat);
        sys := sys.(requests := sys.requests[r := stage]);
      }
      OthersLeaveIt(sys, beforeJoin, r);
      Meanwhile(beforeJoin);
      if stage.Answered? { return stage.answer; }
      a := Join(r, i, stage.seat, fails);
    }

    method Join(r: RequestId, i: InviteId, seat: Seat, fails: bool) returns (a: Answer)
      requires r in sys.requests && sys.requests[r] == Joining(i, seat)
      modifies this
      ensures sys == Next(old(sys), ConsumeAndJoin(r, fails)) && r in sys.requests && sys.requests[r] == Answered(a)
    {
      a := Failed;
      if !fails {
        var consumed := ConsumeInvite(i);
        if consumed.None? {
          a := UsedUp;
        } else {
          var inv := consumed.value;
          a := Joined(inv.role);
          sys := sys.(members := sys.members[Seat(inv.circle, seat.user) := inv.role], accepts := sys.accepts + [Accept(i, seat.user)]);
        }
      }
      sys := Answers(sys, r, a);
    }

    /** A member leaves at once; an owner counts the owners first. */
    method LeaveCircle(r: RequestId, seat: Seat, beforeCount: seq<Step>, beforeRemove: seq<Step>) returns (a: Answer)
      requires r !in sys.requests && Others(beforeCount, r) && Others(beforeRemove, r)
      modifies this
      ensures var s := Next(old(sys), Enter(r, seat));
        sys == Next(Exec(Next(Exec(s, beforeCount), CountBeforeLeaving(r)), beforeRemove), Leave(r))
      ensures r in sys.requests && sys.requests[r] == Answered(a)
    {
      var stage := if seat in sys.members then Acting(seat, sys.members[seat]) else Answered(NoCircle);
      sys := sys.(requests := sys.requests[r := stage]);
      OthersLeaveIt(sys, beforeCount, r);
      Meanwhile(beforeCount);
      if stage.Acting? && stage.role == Owner {
        stage := if |OwnersOf(sys, seat.circle)| <= 1 then Answered(SoleOwner) else MayLeave(seat);
        sys := sys.(requests := sys.requests[r := stage]);
      }
      OthersLeaveIt(sys, beforeRemove, r);
      Meanwhile(beforeRemove);
      if stage.Answered? { return stage.answer; }
      a := Left;
      sys := Answers(sys, r, Left).(members := sys.members - {seat});
    }
  }
}
