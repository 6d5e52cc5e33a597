/** One-device binding and liveness of share links, over any interleaving. */
module ShareRuns {
  import opened Arithmetic
  import opened Prelude
  import opened ShareLinks

  // ---------------------------------------------------------------- the invariant

  ghost predicate HasBinding(bs: seq<Binding>, id: LinkId, t: Token) { exists b <- bs :: b.id == id && b.token == t }

  ghost predicate NeverBound(bs: seq<Binding>, id: LinkId) { forall b <- bs :: b.id != id }

  /** Each link is bound at most once. */
  ghost predicate OneBindingEach(bs: seq<Binding>) { forall i, j | 0 <= i < j < |bs| :: bs[i].id != bs[j].id }

  ghost predicate LinkInv(s: Sys, id: LinkId)
    requires id in s.links
  {
    match s.links[id].viewer
    case None => NeverBound(s.bindings, id)
    case Some(t) => HasBinding(s.bindings, id, t)
  }

  /** The request drew the token that bound the link, or presented it. */
  ghost predicate Entitled(bs: seq<Binding>, q: RequestId, cookie: Option<Token>, id: LinkId, via: Token, won: bool) {
    exists b <- bs :: b.id == id && b.token == via && (if won then b.winner == q else cookie == Some(via))
  }

  ghost predicate FetchInv(bs: seq<Binding>, q: RequestId, r: Request) {
    match r.stage
    case Loaded(id, v) => v.Some? ==> HasBinding(bs, id, v.value)
    case Reloaded(id, v) => v.Some? ==> HasBinding(bs, id, v.value)
    case Admitted(id, via, won) => Entitled(bs, q, r.cookie, id, via, won)
    case Served(id, via, won, _) => Entitled(bs, q, r.cookie, id, via, won)
    case _ => true
  }

  ghost predicate MadeInv(s: Sys) {
    s.links.Keys <= s.made && forall b <- s.bindings :: b.id in s.made
  }

  ghost predicate LinksInv(s: Sys) { forall id <- s.links :: LinkInv(s, id) }

  ghost predicate FetchesInv(s: Sys) { forall q <- s.fetches :: FetchInv(s.bindings, q, s.fetches[q]) }

  ghost predicate Inv(s: Sys) { MadeInv(s) && LinksInv(s) && FetchesInv(s) && OneBindingEach(s.bindings) }

  lemma FetchInvGrows(bs: seq<Binding>, more: seq<Binding>, q: RequestId, r: Request)
    requires FetchInv(bs, q, r)
    ensures FetchInv(bs + more, q, r)
  {
    assert forall b <- bs :: b in bs + more;
  }

  lemma BindKeeps(s: Sys, q: RequestId)
    requires Inv(s)
    ensures Inv(NextBind(s, q))
  {
    var u := NextBind(s, q);
    if u.bindings != s.bindings {
      var id, b := s.fetches[q].stage.id, Last(u.bindings);
      assert u.bindings == s.bindings + [b] && b in u.bindings;
      forall p | p in u.fetches ensures FetchInv(u.bindings, p, u.fetches[p]) {
        if p != q { FetchInvGrows(s.bindings, [b], p, s.fetches[p]); }
      }
      forall i | i in u.links ensures LinkInv(u, i) {
        assert LinkInv(s, i);
        assert forall c <- s.bindings :: c in u.bindings;
      }
      assert LinkInv(s, id);
    }
  }

  lemma MoveKeeps(s: Sys, u: Sys, q: RequestId)
    requires Inv(s) && u.bindings == s.bindings && u.links == s.links && u.made == s.made
    requires At(u, q) && FetchInv(u.bindings, q, u.fetches[q])
    requires u.fetches.Keys == s.fetches.Keys + {q} && forall p <- s.fetches :: p != q ==> u.fetches[p] == s.fetches[p]
    ensures Inv(u)
  {
    forall id | id in u.links ensures LinkInv(u, id) { assert LinkInv(s, id); }
  }

  lemma LinksChangeKeeps(s: Sys, u: Sys)
    requires Inv(s) && u.bindings == s.bindings && u.fetches == s.fetches && s.made <= u.made
    requires forall id <- u.links :: id in u.made && (if id in s.links then u.links[id].viewer == s.links[id].viewer
                                                      else id !in s.made && u.links[id].viewer.None?)
    ensures Inv(u)
  {
    forall id | id in u.links ensures LinkInv(u, id) {
      if id in s.links { assert LinkInv(s, id); }
    }
  }

  lemma FetchKeeps(s: Sys, q: RequestId, id: LinkId, cookie: Option<Token>)
    requires Inv(s)
    ensures Inv(Next(s, Fetch(q, id, cookie)))
  {
    if !At(s, q) {
      assert id in s.links ==> LinkInv(s, id);
      MoveKeeps(s, Next(s, Fetch(q, id, cookie)), q);
    }
  }

  lemma ReloadKeeps(s: Sys, q: RequestId)
    requires Inv(s)
    ensures Inv(Next(s, Reload(q)))
  {
    var u := Next(s, Reload(q));
    if u != s {
      assert s.fetches[q].stage.id in s.links ==> LinkInv(s, s.fetches[q].stage.id);
      MoveKeeps(s, u, q);
    }
  }

  lemma CheckKeeps(s: Sys, q: RequestId)
    requires Inv(s)
    ensures Inv(NextCheck(s, q)) && Inv(NextRead(s, q))
  {
    if At(s, q) {
      assert FetchInv(s.bindings, q, s.fetches[q]);
      if NextCheck(s, q) != s { MoveKeeps(s, NextCheck(s, q), q); }
      if NextRead(s, q) != s { MoveKeeps(s, NextRead(s, q), q); }
    }
  }

  lemma NextInv(s: Sys, step: Step)
    requires Inv(s)
    ensures Inv(Next(s, step))
  {
    match step
    case Bind(q) => BindKeeps(s, q);
    case Fetch(q, id, cookie) => FetchKeeps(s, q, id, cookie);
    case Reload(q) => ReloadKeeps(s, q);
    case CheckCookie(q) => CheckKeeps(s, q);
    case ReadPosition(q) => CheckKeeps(s, q);
    case _ => LinksChangeKeeps(s, Next(s, step));
  }

  lemma {:induction false} ExecInv(s: Sys, steps: seq<Step>)
    requires Inv(s)
    ensures Inv(Exec(s, steps))
  {
    if steps != [] {
      ExecInv(s, steps[..|steps| - 1]);
      NextInv(Exec(s, steps[..|steps| - 1]), Last(steps));
    }
  }

  // ---------------------------------------------------------------- one device

  /** In every run each link's viewer hash is written at most once, and a row holds what was written. */
  lemma BoundAtMostOnce(steps: seq<Step>, i: nat, j: nat)
    requires i < |Exec(Init(), steps).bindings| && j < |Exec(Init(), steps).bindings|
    requires Exec(Init(), steps).bindings[i].id == Exec(Init(), steps).bindings[j].id
    ensures i == j
    ensures var s := Exec(Init(), steps); var b := s.bindings[i];
      b.id in s.links ==> s.links[b.id].viewer == Some(b.token)
  {
    var s := Exec(Init(), steps);
    ExecInv(Init(), steps);
    var b := s.bindings[i];
    if b.id in s.links {
      assert LinkInv(s, b.id);
      assert b in s.bindings;
    }
  }

  lemma ViewerStaysOnce(s: Sys, step: Step, id: LinkId)
    requires id in s.made && (id in s.links ==> s.links[id].viewer.Some?)
    ensures id in Next(s, step).made
    ensures id in Next(s, step).links ==> id in s.links && Next(s, step).links[id].viewer == s.links[id].viewer
  {
    match step
    case Bind(q) =>
      if At(s, q) && s.fetches[q].stage.Loaded? { assert s.fetches[q].stage.id == id ==> NextBind(s, q).links == s.links; }
    case _ =>
  }

  /** Once written, the viewer hash stays as it is for as long as the link has a row. */
  lemma {:induction false} ViewerStays(s: Sys, steps: seq<Step>, id: LinkId)
    requires id in s.made && id in s.links && s.links[id].viewer.Some?
    ensures id in Exec(s, steps).made
    ensures id in Exec(s, steps).links ==> Exec(s, steps).links[id].viewer == s.links[id].viewer
  {
    if steps != [] {
      ViewerStays(s, steps[..|steps| - 1], id);
      ViewerStaysOnce(Exec(s, steps[..|steps| - 1]), Last(steps), id);
    }
  }

  /**
    Every answer with a position went to the request that won the link's only binding, or to one that
    presented the token drawn for it.
  */
  lemma ServedOnlyToTheDevice(steps: seq<Step>, q: RequestId) returns (b: Binding)
    requires q in Exec(Init(), steps).fetches && Exec(Init(), steps).fetches[q].stage.Served?
    ensures var s := Exec(Init(), steps); var r := s.fetches[q];
      && b in s.bindings && b.id == r.stage.id && (forall c <- s.bindings :: c.id == b.id ==> c == b)
      && (if r.stage.won then b.winner == q else r.cookie == Some(b.token))
  {
    var s := Exec(Init(), steps);
    ExecInv(Init(), steps);
    var r := s.fetches[q];
    assert FetchInv(s.bindings, q, r);
    b :| b in s.bindings && b.id == r.stage.id && b.token == r.stage.via
      && (if r.stage.won then b.winner == q else r.cookie == Some(r.stage.via));
  }

  // ---------------------------------------------------------------- dead stays dead

  predicate Dead(s: Sys, id: LinkId) { id in s.made && (id !in s.links || !ShareLive(s.links[id], s.clock)) }

  lemma DeadOnceMore(s: Sys, step: Step, id: LinkId)
    requires Dead(s, id)
    ensures Dead(Next(s, step), id)
  {
    match step
    case Bind(_) =>
    case _ =>
  }

  lemma {:induction false} DeadForGood(s: Sys, steps: seq<Step>, id: LinkId)
    requires Dead(s, id)
    ensures Dead(Exec(s, steps), id)
  {
    if steps != [] {
      DeadForGood(s, steps[..|steps| - 1], id);
      DeadOnceMore(Exec(s, steps[..|steps| - 1]), Last(steps), id);
    }
  }

  /** A link seen dead is never seen live again: no later fetch gets past the load and no later ping is taken. */
  lemma NeverSeenLiveAgain(s: Sys, steps: seq<Step>, id: LinkId, q: RequestId, cookie: Option<Token>, user: UserId)
    requires Dead(s, id)
    ensures var u := Exec(s, steps);
      && (!At(u, q) ==> Next(u, Fetch(q, id, cookie)).fetches[q].stage in {NotFound, Gone})
      && Next(u, PingLoad(q, id, user)) == u
  {
    DeadForGood(s, steps, id);
  }

  lemma RevocationStaysOnce(s: Sys, step: Step, id: LinkId)
    requires id in s.made && (id in s.links ==> s.links[id].revokedAt.Some?)
    ensures id in Next(s, step).made
    ensures id in Next(s, step).links ==> id in s.links && Next(s, step).links[id].revokedAt == s.links[id].revokedAt
  {
    match step
    case Bind(_) =>
    case _ =>
  }

  /** The first revocation's time is the one that stays. */
  lemma {:induction false} RevocationTimeStays(s: Sys, steps: seq<Step>, id: LinkId)
    requires id in s.made && id in s.links && s.links[id].revokedAt.Some?
    ensures id in Exec(s, steps).made
    ensures id in Exec(s, steps).links ==> Exec(s, steps).links[id].revokedAt == s.links[id].revokedAt
  {
    if steps != [] {
      RevocationTimeStays(s, steps[..|steps| - 1], id);
      RevocationStaysOnce(Exec(s, steps[..|steps| - 1]), Last(steps), id);
    }
  }

  // ---------------------------------------------------------------- lifetimes

  /** Any 64-bit request is granted 60 s to 3600 s, exactly what it asks for whenever that is in range. */
  lemma ClampIsInRange(seconds: Int64)
    ensures MIN_SHARE_TTL <= ClampShareTTL(seconds) <= MAX_SHARE_TTL
    ensures ClampShareTTL(seconds) == seconds <==> MIN_SHARE_TTL <= seconds <= MAX_SHARE_TTL
    ensures seconds <= 0 ==> ClampShareTTL(seconds) == 15 * 60
    ensures forall t: Int64 :: 0 < seconds <= t ==> ClampShareTTL(seconds) <= ClampShareTTL(t)
  {
  }

  predicate Short(l: Link) { l.createdAt + MIN_SHARE_TTL <= l.expiresAt <= l.createdAt + MAX_SHARE_TTL }

  lemma StaysShort(s: Sys, step: Step, id: LinkId)
    requires id in Next(s, step).links && (id in s.links ==> Short(s.links[id]))
    ensures Short(Next(s, step).links[id])
  {
    match step
    case Create(i, _, ttl) => ClampIsInRange(ttl);
    case _ =>
  }

  lemma {:induction false} LinksAreShort(steps: seq<Step>, id: LinkId)
    requires id in Exec(Init(), steps).links
    ensures Short(Exec(Init(), steps).links[id])
  {
    var before := steps[..|steps| - 1];
    if id in Exec(Init(), before).links { LinksAreShort(before, id); }
    StaysShort(Exec(Init(), before), Last(steps), id);
  }

  /** However it was asked for, a link is dead an hour after it was made, and live for its first minute unless revoked. */
  lemma AnHourAtMost(steps: seq<Step>, id: LinkId)
    requires id in Exec(Init(), steps).links
    ensures var s := Exec(Init(), steps); var l := s.links[id];
      && (s.clock >= l.createdAt + MAX_SHARE_TTL ==> !ShareLive(l, s.clock))
      && (l.revokedAt.None? && s.clock < l.createdAt + MIN_SHARE_TTL ==> ShareLive(l, s.clock))
  {
    LinksAreShort(steps, id);
  }
}
