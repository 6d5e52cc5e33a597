/** The service methods, statement by statement; each is proved to make the steps of Sessions in its order. */
module AuthService {
  import opened Prelude
  import opened Sessions
  import opened RefreshRuns
  import opened TokenLifetimes

  /** The part of the system that requests share: the table, the clock, and the tokens drawn so far. */
  datatype Shared = Shared(rows: Table, clock: Time, drawn: Token)

  ghost predicate Leaves(s: Sys, g: Shared) { s.rows == g.rows && s.clock == g.clock && s.drawn == g.drawn }

  lemma {:induction false} ReachableMore(s: Sys, steps: seq<Step>)
    requires Reachable(s)
    ensures Reachable(ExecFrom(s, steps))
  {
    if steps != [] {
      ReachableMore(s, steps[..|steps| - 1]);
      ReachableNext(ExecFrom(s, steps[..|steps| - 1]), Last(steps));
    }
  }

  class Service {
    const accessTTL: int
    const refreshTTL: int
    const owner: map<DeviceId, UserId>  // the devices table
    var rows: Table
    var clock: Time
    var drawn: Token
    ghost var sys: Sys

    ghost predicate Valid()
      reads this
    {
      Reachable(sys) && rows == sys.rows && clock == sys.clock && drawn == sys.drawn
    }

    constructor (accessTTL: int, refreshTTL: int, owner: map<DeviceId, UserId>)
      ensures Valid() && sys == Init()
      ensures this.accessTTL == accessTTL && this.refreshTTL == refreshTTL && this.owner == owner
    {
      this.accessTTL, this.refreshTTL, this.owner := accessTTL, refreshTTL, owner;
      rows, clock, drawn := map[], 0, 0;
      sys := Init();
      assert Init() == Exec([]);
    }

    method GenerateToken() returns (t: Token)
      modifies this`drawn
      ensures t == old(drawn) && drawn == t + 1
    {
      t := drawn;
      drawn := drawn + 1;
    }

    method IssueSession(sid: SessionId, user: UserId, device: DeviceId) returns (access: Token, refresh: Token)
      requires Valid() && sid !in sys.refreshes.chains && sid !in sys.accesses.chains
      modifies this`rows, this`drawn, this`sys
      ensures Valid() && sys == Next(old(sys), Issue(sid, user, device, accessTTL, refreshTTL))
      ensures access == Last(sys.accesses.Of(sid)) && refresh == Last(sys.refreshes.Of(sid))
    {
      access := GenerateToken();
      refresh := GenerateToken();
      rows := rows[sid := Session(user, device, access, refresh, None, clock + accessTTL, clock + refreshTTL, None)];
      Record(Issue(sid, user, device, accessTTL, refreshTTL));
    }

    method GetSessionByRefreshHash(t: Token) returns (r: Option<SessionId>)
      requires Valid()
      ensures r == ByRefresh(rows, t, clock)
    {
      if id :| id in rows && MatchesRefresh(rows[id], t, clock) {
        ReachableInv(sys);
        TokensIdentifyRows(sys, id, t);
        TokensIdentifyRows(sys, ByRefresh(rows, t, clock).value, t);
        return Some(id);
      }
      return None;
    }

    method GetSessionByPrevRefreshHash(t: Token) returns (r: Option<SessionId>)
      requires Valid()
      ensures r == ByPrev(rows, t)
    {
      if id :| id in rows && MatchesPrev(rows[id], t) {
        ReachableInv(sys);
        TokensIdentifyRows(sys, id, t);
        TokensIdentifyRows(sys, ByPrev(rows, t).value, t);
        return Some(id);
      }
      return None;
    }

    method RotateSession(sid: SessionId, access: Token, refresh: Token, presented: Token) returns (ok: bool)
      modifies this`rows
      ensures ok <==> CanRotate(old(rows), sid, presented)
      ensures rows == if ok then old(rows)[sid := RotatedRow(old(rows)[sid], access, refresh, clock + accessTTL, clock + refreshTTL)]
                      else old(rows)
    {
      ok := sid in rows && rows[sid].refresh == presented && rows[sid].revokedAt.None?;
      if ok {
        rows := rows[sid := rows[sid].(access := access, refresh := refresh, prev := Some(presented),
                                       accessExp := clock + accessTTL, refreshExp := clock + refreshTTL)];
      }
    }

    method RevokeSession(sid: SessionId)
      modifies this`rows
      ensures rows == RevokeOne(old(rows), sid, clock)
    {
      if sid in rows && rows[sid].revokedAt.None? {
        rows := rows[sid := rows[sid].(revokedAt := Some(clock))];
      }
    }

    /** What the other requests leave when this one has waited: `steps` names what they did. */
    method Meanwhile(g: Shared, ghost steps: seq<Step>)
      requires Valid() && Leaves(ExecFrom(sys, steps), g)
      modifies this`rows, this`clock, this`drawn, this`sys
      ensures Valid() && sys == ExecFrom(old(sys), steps)
    {
      ReachableMore(sys, steps);
      rows, clock, drawn := g.rows, g.clock, g.drawn;
      sys := ExecFrom(sys, steps);
    }

    /**
      `presented` is None for an empty token; `c` names the call in the history. `first` and `second` are
      what other requests do between its statements, `g1` and `g2` what they leave.
    */
    method Refresh(presented: Option<Token>, g1: Shared, g2: Shared, ghost c: CallId, ghost first: seq<Step>, ghost second: seq<Step>)
      returns (answer: Call)
      requires Valid() && c !in sys.calls && (presented.Some? ==> presented.value < drawn)
      requires Others(first, c) && Others(second, c)
      requires presented.Some? ==> Leaves(AfterFirst(sys, c, presented.value, first), g1)
      requires presented.Some? ==>
                 Leaves(AfterSecond(AfterFirst(sys, c, presented.value, first), c, accessTTL, refreshTTL, second), g2)
      modifies this`rows, this`clock, this`drawn, this`sys
      ensures Valid()
      ensures presented.None? ==> answer == Invalid && sys == old(sys)
      ensures presented.Some? ==> sys == WithGaps(old(sys), c, presented.value, accessTTL, refreshTTL, first, second)
                                  && c in sys.calls && answer == sys.calls[c]
    {
      if presented.None? {
        return Invalid;
      }
      var t := presented.value;
      var found := GetSessionByRefreshHash(t);
      Record(Lookup(c, t));
      OthersLeaveCall(sys, first, c);
      Meanwhile(g1, first);
      if found.None? {
        answer := DetectReplay(t, g2, c, second);
      } else {
        answer := Exchange(found.value, t, g2, c, second);
      }
    }

    /** The second half of Refresh for a token that is nobody's current one. */
    method DetectReplay(t: Token, g: Shared, ghost c: CallId, ghost steps: seq<Step>) returns (answer: Call)
      requires Valid() && c in sys.calls && sys.calls[c] == Missed(t) && Others(steps, c)
      requires Leaves(AfterSecond(sys, c, accessTTL, refreshTTL, steps), g)
      modifies this`rows, this`clock, this`drawn, this`sys
      ensures Valid() && sys == Third(AfterSecond(old(sys), c, accessTTL, refreshTTL, steps), c)
      ensures c in sys.calls && answer == sys.calls[c]
    {
      var replayed := GetSessionByPrevRefreshHash(t);
      Record(LookupPrev(c));
      OthersLeaveCall(sys, steps, c);
      Meanwhile(g, steps);
      if replayed.Some? {
        RevokeSession(replayed.value);
        Record(RevokeReused(c));
        return Reused(replayed.value);
      }
      return Invalid;
    }

    /** The second half of Refresh for a current token: the compare-and-swap decides. */
    method Exchange(sid: SessionId, t: Token, g: Shared, ghost c: CallId, ghost steps: seq<Step>) returns (answer: Call)
      requires Valid() && c in sys.calls && sys.calls[c] == Found(sid, t) && Others(steps, c)
      requires Leaves(AfterSecond(sys, c, accessTTL, refreshTTL, steps), g)
      modifies this`rows, this`clock, this`drawn, this`sys
      ensures Valid() && sys == Third(AfterSecond(old(sys), c, accessTTL, refreshTTL, steps), c)
      ensures c in sys.calls && answer == sys.calls[c]
    {
      var access := GenerateToken();
      var refresh := GenerateToken();
      var ok := RotateSession(sid, access, refresh, t);
      Record(Swap(c, accessTTL, refreshTTL));
      OthersLeaveCall(sys, steps, c);
      Meanwhile(g, steps);
      if !ok {
        RevokeSession(sid);
        Record(RevokeReused(c));
        return Reused(sid);
      }
      return Rotated(sid, access, refresh);
    }

    ghost method Record(step: Step)
      requires Reachable(sys)
      modifies this`sys
      ensures sys == Next(old(sys), step) && Reachable(sys)
    {
      ReachableNext(sys, step);
      sys := Next(sys, step);
    }

    method Resolve(accessToken: Option<Token>) returns (r: Option<SessionId>)
      requires Valid()
      ensures r == if accessToken.None? then None else ByAccess(rows, accessToken.value, clock)
    {
      if accessToken.Some? {
        var a := accessToken.value;
        if id :| id in rows && MatchesAccess(rows[id], a, clock) {
          ReachableInv(sys);
          ghost var other := ByAccess(rows, a, clock).value;
          AccessIdentifies(sys, id, other);
          return Some(id);
        }
      }
      return None;
    }

    method Logout(sid: SessionId)
      requires Valid()
      modifies this`rows, this`sys
      ensures Valid() && sys == Next(old(sys), Sessions.Logout(sid))
    {
      RevokeSession(sid);
      Record(Sessions.Logout(sid));
    }

    /** Refused for a device the user does not own. */
    method RevokeDevice(user: UserId, device: DeviceId) returns (ok: bool)
      requires Valid()
      modifies this`rows, this`sys
      ensures Valid() && (ok <==> device in owner && owner[device] == user)
      ensures sys == if ok then Next(old(sys), DropDevice(device)) else old(sys)
    {
      ok := device in owner && owner[device] == user;
      if ok {
        rows := map id | id in rows ::
          if rows[id].device == device && rows[id].revokedAt.None? then rows[id].(revokedAt := Some(clock)) else rows[id];
        Record(DropDevice(device));
      }
    }
  }
}
