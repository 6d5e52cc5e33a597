/**
  Live-share links (server/internal/httpapi/share.go, server/internal/store/share.sql.go).

  Tokens are drawn from a counter, so a new one differs from all earlier ones; the peppered hash is taken to
  be injective, so a row stores the token itself. One SQL statement is one step, and any steps of other
  requests may come between the statements of a viewer fetch or of a ping.
*/
module ShareLinks {
  import opened Arithmetic
  import opened Prelude

  type LinkId = nat
  type UserId = nat
  type RequestId = nat
  type Token = nat
  type Blob = nat
  type Time = int

  const MIN_SHARE_TTL := 60
  const MAX_SHARE_TTL := 3600
  const DEFAULT_SHARE_TTL := 900
  const GRACE: int := 24 * 3600

  /** The lifetime in seconds granted for a request. */
  function ClampShareTTL(seconds: Int64): int {
    if seconds <= 0 then DEFAULT_SHARE_TTL
    else if seconds < MIN_SHARE_TTL then MIN_SHARE_TTL
    else if seconds > MAX_SHARE_TTL then MAX_SHARE_TTL
    else seconds
  }

  datatype Link = Link(owner: UserId, createdAt: Time, expiresAt: Time, revokedAt: Option<Time>, viewer: Option<Token>)

  predicate ShareLive(l: Link, now: Time) { l.revokedAt.None? && l.expiresAt > now }

  /** Where a viewer fetch stands, or what it answered. */
  datatype Stage =
    | Loaded(id: LinkId, viewer: Option<Token>)    // the link was live; bind or check the cookie next
    | LostRace(id: LinkId)                         // the compare-and-swap matched no row; reload next
    | Reloaded(id: LinkId, viewer: Option<Token>)  // check the cookie next
    | Admitted(id: LinkId, via: Token, won: bool)  // read the position next
    | Served(id: LinkId, via: Token, won: bool, position: Option<Blob>)
    | NotFound
    | Gone
    | Forbidden

  datatype Request = Request(cookie: Option<Token>, stage: Stage)

  /** A write of a link's viewer hash: the token and the request that drew it. */
  datatype Binding = Binding(id: LinkId, token: Token, winner: RequestId)

  datatype Sys = Sys(
    links: map<LinkId, Link>, positions: map<LinkId, Blob>, clock: Time, drawn: Token,
    made: set<LinkId>, fetches: map<RequestId, Request>, pings: map<RequestId, LinkId>, bindings: seq<Binding>)

  datatype Step =
    | Tick(seconds: nat)
    | Create(id: LinkId, user: UserId, ttl: Int64)
    | Fetch(q: RequestId, id: LinkId, cookie: Option<Token>)
    | Bind(q: RequestId)
    | Reload(q: RequestId)
    | CheckCookie(q: RequestId)
    | ReadPosition(q: RequestId)
    | Revoke(id: LinkId, user: UserId)
    | PingLoad(p: RequestId, id: LinkId, user: UserId)
    | PingWrite(p: RequestId, blob: Blob)
    | Prune

  function Init(): Sys { Sys(map[], map[], 0, 0, {}, map[], map[], []) }

  predicate At(s: Sys, q: RequestId) { q in s.fetches }

  function Moved(s: Sys, q: RequestId, stage: Stage): Sys
    requires At(s, q)
  {
    s.(fetches := s.fetches[q := s.fetches[q].(stage := stage)])
  }

  function StageOfLoad(s: Sys, id: LinkId): Stage {
    if id !in s.links then NotFound
    else if !ShareLive(s.links[id], s.clock) then Gone
    else Loaded(id, s.links[id].viewer)
  }

  /** UPDATE ... WHERE viewer_token_hash IS NULL: a drawn token either binds the link or matches no row. */
  function Bound(s: Sys, q: RequestId, id: LinkId): Sys
    requires At(s, q)
  {
    var t := s.drawn;
    if id in s.links && s.links[id].viewer.None? then
      Moved(s, q, Admitted(id, t, true)).(drawn := t + 1,
        links := s.links[id := s.links[id].(viewer := Some(t))], bindings := s.bindings + [Binding(id, t, q)])
    else Moved(s, q, LostRace(id)).(drawn := t + 1)
  }

  function StageOfReload(s: Sys, id: LinkId): Stage {
    if id in s.links then Reloaded(id, s.links[id].viewer) else Gone
  }

  function StageOfCookie(id: LinkId, viewer: Option<Token>, cookie: Option<Token>): Stage {
    if cookie.Some? && cookie == viewer then Admitted(id, cookie.value, false) else Forbidden
  }

  function RevokedLink(l: Link, now: Time): Link { if l.revokedAt.None? then l.(revokedAt := Some(now)) else l }

  predicate Prunable(l: Link, now: Time) {
    l.expiresAt < now - GRACE || (l.revokedAt.Some? && l.revokedAt.value < now - GRACE)
  }

  function Pruned(s: Sys): Sys {
    s.(links := map id | id in s.links && !Prunable(s.links[id], s.clock) :: s.links[id],
       positions := map id | id in s.positions && id in s.links && !Prunable(s.links[id], s.clock) :: s.positions[id])
  }

  predicate Owned(s: Sys, id: LinkId, user: UserId) { id in s.links && s.links[id].owner == user }

  /** A step that is not enabled changes nothing. */
  function Next(s: Sys, step: Step): Sys {
    match step
    case Tick(n) => s.(clock := s.clock + n)
    case Create(id, user, ttl) =>
      if id in s.made then s else
      s.(links := s.links[id := Link(user, s.clock, s.clock + ClampShareTTL(ttl), None, None)], made := s.made + {id})
    case Fetch(q, id, cookie) =>
      if At(s, q) then s else s.(fetches := s.fetches[q := Request(cookie, StageOfLoad(s, id))])
    case Bind(q) => NextBind(s, q)
    case Reload(q) =>
      if At(s, q) && s.fetches[q].stage.LostRace? then Moved(s, q, StageOfReload(s, s.fetches[q].stage.id)) else s
    case CheckCookie(q) => NextCheck(s, q)
    case ReadPosition(q) => NextRead(s, q)
    case Revoke(id, user) =>
      if Owned(s, id, user) then s.(links := s.links[id := RevokedLink(s.links[id], s.clock)]) else s
    case PingLoad(p, id, user) =>
      if p !in s.pings && Owned(s, id, user) && ShareLive(s.links[id], s.clock) then s.(pings := s.pings[p := id]) else s
    case PingWrite(p, blob) =>
      if p in s.pings && s.pings[p] in s.links then s.(positions := s.positions[s.pings[p] := blob]) else s
    case Prune => Pruned(s)
  }

  function NextBind(s: Sys, q: RequestId): Sys {
    if At(s, q) && s.fetches[q].stage.Loaded? && s.fetches[q].stage.viewer.None? then Bound(s, q, s.fetches[q].stage.id) else s
  }

  function NextCheck(s: Sys, q: RequestId): Sys {
    if !At(s, q) then s else
    var r := s.fetches[q];
    if (r.stage.Loaded? && r.stage.viewer.Some?) || r.stage.Reloaded? then
      Moved(s, q, StageOfCookie(r.stage.id, r.stage.viewer, r.cookie))
    else s
  }

  function NextRead(s: Sys, q: RequestId): Sys {
    if !At(s, q) || !s.fetches[q].stage.Admitted? then s else
    var a := s.fetches[q].stage;
    Moved(s, q, Served(a.id, a.via, a.won, if a.id in s.positions then Some(s.positions[a.id]) else None))
  }

  function Exec(s: Sys, steps: seq<Step>): Sys {
    if steps == [] then s else Next(Exec(s, steps[..|steps| - 1]), Last(steps))
  }

  // ---------------------------------------------------------------- the handlers

  /** The fetch a step belongs to, if any. */
  function FetchOf(step: Step): Option<RequestId> {
    match step
    case Fetch(q, _, _) => Some(q)
    case Bind(q) => Some(q)
    case Reload(q) => Some(q)
    case CheckCookie(q) => Some(q)
    case ReadPosition(q) => Some(q)
    case _ => None
  }

  ghost predicate Others(steps: seq<Step>, q: RequestId) { forall step <- steps :: FetchOf(step) != Some(q) }

  lemma OtherLeavesIt(s: Sys, step: Step, q: RequestId)
    requires FetchOf(step) != Some(q) && At(s, q)
    ensures At(Next(s, step), q) && Next(s, step).fetches[q] == s.fetches[q]
  {
    match step
    case Bind(p) => assert p != q;
    case CheckCookie(p) => assert p != q;
    case ReadPosition(p) => assert p != q;
    case _ =>
  }

  lemma {:induction false} OthersLeaveIt(s: Sys, steps: seq<Step>, q: RequestId)
    requires Others(steps, q) && At(s, q)
    ensures At(Exec(s, steps), q) && Exec(s, steps).fetches[q] == s.fetches[q]
  {
    if steps != [] {
      var before := steps[..|steps| - 1];
      assert Others(before, q);
      OthersLeaveIt(s, before, q);
      assert FetchOf(Last(steps)) != Some(q);
      OtherLeavesIt(Exec(s, before), Last(steps), q);
    }
  }

  /** What the requests in flight do before this handler's next statement. */
  datatype Gaps = Gaps(beforeBind: seq<Step>, beforeReload: seq<Step>, beforeRead: seq<Step>)

  /** The statements of one fetch, with the others' steps in the gaps. */
  function WholeFetch(s: Sys, q: RequestId, id: LinkId, cookie: Option<Token>, gaps: Gaps): Sys {
    var s1 := Exec(Next(s, Fetch(q, id, cookie)), gaps.beforeBind);
    var s2 := Exec(Next(s1, Bind(q)), gaps.beforeReload);
    var s3 := Next(Next(s2, Reload(q)), CheckCookie(q));
    Next(Exec(s3, gaps.beforeRead), ReadPosition(q))
  }

  class Server {
    var sys: Sys

    constructor ()
      ensures sys == Init()
    {
      sys := Init();
    }

    method Meanwhile(steps: seq<Step>)
      modifies this
      ensures sys == Exec(old(sys), steps)
    {
      sys := Exec(sys, steps);
    }

    method CreateShare(id: LinkId, user: UserId, ttl: Int64) returns (expiresAt: Time)
      requires id !in sys.made
      modifies this
      ensures sys == Next(old(sys), Create(id, user, ttl))
      ensures expiresAt == sys.links[id].expiresAt
    {
      expiresAt := sys.clock + ClampShareTTL(ttl);
      sys := sys.(links := sys.links[id := Link(user, sys.clock, expiresAt, None, None)], made := sys.made + {id});
    }

    method BindShareViewer(id: LinkId, token: Token) returns (ok: bool)
      modifies this
      ensures ok <==> id in old(sys).links && old(sys).links[id].viewer.None?
      ensures sys == if ok then old(sys).(links := old(sys).links[id := old(sys).links[id].(viewer := Some(token))]) else old(sys)
    {
      ok := id in sys.links && sys.links[id].viewer.None?;
      if ok { sys := sys.(links := sys.links[id := sys.links[id].(viewer := Some(token))]); }
    }

    /** Load, bind or check, read; the answer is the stage the fetch ends in. */
    method GetShare(q: RequestId, id: LinkId, cookie: Option<Token>, gaps: Gaps) returns (answer: Stage)
      requires !At(sys, q) && Others(gaps.beforeBind, q) && Others(gaps.beforeReload, q) && Others(gaps.beforeRead, q)
      modifies this
      ensures sys == WholeFetch(old(sys), q, id, cookie, gaps) && At(sys, q) && answer == sys.fetches[q].stage
      ensures answer.Served? || answer == NotFound || answer == Gone || answer == Forbidden
    {
      answer := StageOfLoad(sys, id);
      sys := sys.(fetches := sys.fetches[q := Request(cookie, answer)]);
      OthersLeaveIt(sys, gaps.beforeBind, q);
      Meanwhile(gaps.beforeBind);
      answer := BindViewer(q, cookie, answer, gaps.beforeReload);
      OthersLeaveIt(sys, gaps.beforeRead, q);
      Meanwhile(gaps.beforeRead);
      if answer.Admitted? {
        var position := if answer.id in sys.positions then Some(sys.positions[answer.id]) else None;
        answer := Served(answer.id, answer.via, answer.won, position);
        sys := Moved(sys, q, answer);
      }
    }

    /** The one-device rule: the first fetch binds, every later one must present the cookie. */
    method BindViewer(q: RequestId, cookie: Option<Token>, loaded: Stage, beforeReload: seq<Step>) returns (stage: Stage)
      requires At(sys, q) && sys.fetches[q] == Request(cookie, loaded) && Others(beforeReload, q)
      requires loaded.Loaded? || loaded == NotFound || loaded == Gone
      modifies this
      ensures sys == Next(Next(Exec(Next(old(sys), Bind(q)), beforeReload), Reload(q)), CheckCookie(q))
      ensures At(sys, q) && sys.fetches[q] == Request(cookie, stage)
      ensures stage.Admitted? || stage == NotFound || stage == Gone || stage == Forbidden
    {
      stage := loaded;
      if loaded.Loaded? && loaded.viewer.None? {
        var token := sys.drawn;
        sys := sys.(drawn := token + 1);
        var ok := BindShareViewer(loaded.id, token);
        if ok {
          stage := Admitted(loaded.id, token, true);
          sys := sys.(bindings := sys.bindings + [Binding(loaded.id, token, q)]);
        } else {
          stage := LostRace(loaded.id);
        }
        sys := Moved(sys, q, stage);
      }
      assert sys == Next(old(sys), Bind(q));
      OthersLeaveIt(sys, beforeReload, q);
      Meanwhile(beforeReload);
      if stage.LostRace? {
        stage := StageOfReload(sys, stage.id);
        sys := Moved(sys, q, stage);
      }
      if stage.Loaded? || stage.Reloaded? {
        stage := StageOfCookie(stage.id, stage.viewer, cookie);
        sys := Moved(sys, q, stage);
      }
    }

    /** Answers whether the caller owns a link of that id; revoking again changes nothing. */
    method RevokeShare(id: LinkId, user: UserId) returns (found: bool)
      modifies this
      ensures found <==> Owned(old(sys), id, user)
      ensures sys == Next(old(sys), Revoke(id, user))
    {
      found := id in sys.links && sys.links[id].owner == user;
      if found {
        var l := sys.links[id];
        var at := if l.revokedAt.Some? then l.revokedAt else Some(sys.clock);
        sys := sys.(links := sys.links[id := l.(revokedAt := at)]);
      }
    }
  }
}
