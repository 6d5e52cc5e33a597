/** How long a link lives, and that its owner's pings are shown. */
module ShareLives {
  import opened Arithmetic
  import opened Prelude
  import opened ShareLinks
  import opened ShareRuns
  import opened ShareFetch

  /** A new link belongs to its maker, is unbound, shows nothing, and lives from 60 s to an hour. */
  lemma CreatedLives(s: Sys, id: LinkId, user: UserId, ttl: Int64)
    requires id !in s.made && id !in s.positions
    ensures var u := Next(s, Create(id, user, ttl));
      && FoundLive(u, id) && u.links[id].owner == user && u.links[id].viewer.None? && Shown(u, id).None?
      && u.links[id].expiresAt == s.clock + (if ttl <= 0 then 900 else Max(60, Min(ttl, 3600)))
  {
  }

  /** What of a link never changes while it has a row. */
  predicate SameTerms(a: Link, b: Link) { a.owner == b.owner && a.createdAt == b.createdAt && a.expiresAt == b.expiresAt }

  /** A live link stays live through a step exactly unless its owner revokes it or its time is up. */
  lemma LivesOn(s: Sys, step: Step, id: LinkId)
    requires FoundLive(s, id) && id in s.made
    ensures var u := Next(s, step);
      && (FoundLive(u, id) <==> step != Revoke(id, s.links[id].owner) && u.clock < s.links[id].expiresAt)
      && id in u.made && u.clock >= s.clock
      && (id in u.links ==> SameTerms(s.links[id], u.links[id]))
  {
    match step
    case Bind(q) =>
    case _ =>
  }

  lemma {:induction false} ClockGrows(s: Sys, steps: seq<Step>)
    ensures s.clock <= Exec(s, steps).clock
  {
    if steps != [] {
      ClockGrows(s, steps[..|steps| - 1]);
      ClockOnce(Exec(s, steps[..|steps| - 1]), Last(steps));
    }
  }

  lemma ClockOnce(s: Sys, step: Step)
    ensures s.clock <= Next(s, step).clock
  {
    match step
    case Bind(q) =>
    case _ =>
  }

  lemma DeadOnce(s: Sys, step: Step, id: LinkId)
    requires id in s.made && !FoundLive(s, id)
    ensures id in Next(s, step).made && !FoundLive(Next(s, step), id)
  {
    DeadOnceMore(s, step, id);
  }

  /**
    Over any steps a live link is live afterwards exactly when its owner has not revoked it and its time is
    not up: no viewer, no stranger, no ping and no pruning ends it.
  */
  lemma {:induction false} LivesExactly(s: Sys, steps: seq<Step>, id: LinkId)
    requires FoundLive(s, id) && id in s.made
    ensures FoundLive(Exec(s, steps), id)
       <==> Revoke(id, s.links[id].owner) !in steps && Exec(s, steps).clock < s.links[id].expiresAt
    ensures FoundLive(Exec(s, steps), id) ==> SameTerms(s.links[id], Exec(s, steps).links[id])
    ensures id in Exec(s, steps).made
  {
    if steps != [] {
      var before, step := steps[..|steps| - 1], Last(steps);
      var u := Exec(s, before);
      LivesExactly(s, before, id);
      ClockOnce(u, step);
      assert steps == before + [step];
      if FoundLive(u, id) { LivesOn(u, step, id); } else { DeadOnce(u, step, id); }
    }
  }

  /** A revocation by the owner ends a link; by anybody else it changes nothing. */
  lemma RevokeEnds(s: Sys, id: LinkId, user: UserId)
    requires id in s.links && id in s.made
    ensures user == s.links[id].owner ==> !FoundLive(Next(s, Revoke(id, user)), id)
    ensures user != s.links[id].owner ==> Next(s, Revoke(id, user)) == s
  {
  }

  // ---------------------------------------------------------------- pings

  lemma PingStays(s: Sys, step: Step, p: RequestId)
    requires p in s.pings
    ensures p in Next(s, step).pings && Next(s, step).pings[p] == s.pings[p]
  {
    match step
    case Bind(q) =>
    case _ =>
  }

  lemma {:induction false} PingStaysOn(s: Sys, steps: seq<Step>, p: RequestId)
    requires p in s.pings
    ensures p in Exec(s, steps).pings && Exec(s, steps).pings[p] == s.pings[p]
  {
    if steps != [] {
      PingStaysOn(s, steps[..|steps| - 1], p);
      PingStays(Exec(s, steps[..|steps| - 1]), Last(steps), p);
    }
  }

  /** A ping is taken exactly from the owner of a live link. */
  lemma PingTakenExactly(s: Sys, p: RequestId, id: LinkId, user: UserId)
    requires p !in s.pings
    ensures p in Next(s, PingLoad(p, id, user)).pings <==> FoundLive(s, id) && s.links[id].owner == user
    ensures p in Next(s, PingLoad(p, id, user)).pings ==> Next(s, PingLoad(p, id, user)).pings[p] == id
  {
  }

  /** And once taken, whatever comes in between, its blob is what the link shows as long as it has a row. */
  lemma PingIsShown(s: Sys, p: RequestId, id: LinkId, user: UserId, between: seq<Step>, blob: Blob)
    requires p !in s.pings && FoundLive(s, id) && s.links[id].owner == user
    ensures var u := Exec(Next(s, PingLoad(p, id, user)), between);
      && (id in u.links ==> Shown(Next(u, PingWrite(p, blob)), id) == Some(blob))
      && (id !in u.links ==> Next(u, PingWrite(p, blob)) == u)
  {
    PingTakenExactly(s, p, id, user);
    PingStaysOn(Next(s, PingLoad(p, id, user)), between, p);
  }
}
