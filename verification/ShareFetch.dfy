/** What a viewer fetch answers, with any steps of other requests between its statements. */
module ShareFetch {
  import opened Prelude
  import opened ShareLinks
  import opened ShareRuns

  // ---------------------------------------------------------------- the position a link shows

  /** The last blob that a ping wrote for the link in a run. */
  function LastBlob(steps: seq<Step>, id: LinkId): Option<Blob> {
    if steps == [] then None else
    var before, s := steps[..|steps| - 1], Exec(Init(), steps[..|steps| - 1]);
    if Last(steps).PingWrite? && Last(steps).p in s.pings && s.pings[Last(steps).p] == id && id in s.links
      then Some(Last(steps).blob)
      else LastBlob(before, id)
  }

  /** What the position table has for the link. */
  function Shown(s: Sys, id: LinkId): Option<Blob> { if id in s.positions then Some(s.positions[id]) else None }

  predicate ShowsLast(s: Sys, id: LinkId, last: Option<Blob>) {
    && (id in s.links ==> id in s.made && Shown(s, id) == last)
    && (id !in s.links ==> Shown(s, id) == None)
    && (id !in s.made ==> last == None)
  }

  lemma ShowsLastOnceMore(s: Sys, step: Step, id: LinkId, last: Option<Blob>)
    requires ShowsLast(s, id, last)
    ensures ShowsLast(Next(s, step), id,
                      if step.PingWrite? && step.p in s.pings && s.pings[step.p] == id && id in s.links then Some(step.blob) else last)
  {
    match step
    case Bind(q) =>
    case _ =>
  }

  /** A link shows the last blob a ping wrote for it, and nothing once its row is gone. */
  lemma {:induction false} PositionIsLastPing(steps: seq<Step>, id: LinkId)
    ensures ShowsLast(Exec(Init(), steps), id, LastBlob(steps, id))
  {
    if steps != [] {
      PositionIsLastPing(steps[..|steps| - 1], id);
      ShowsLastOnceMore(Exec(Init(), steps[..|steps| - 1]), Last(steps), id, LastBlob(steps[..|steps| - 1], id));
    }
  }

  // ---------------------------------------------------------------- the statements of a fetch

  function AtBind(s: Sys, q: RequestId, id: LinkId, cookie: Option<Token>, gaps: Gaps): Sys {
    Exec(Next(s, Fetch(q, id, cookie)), gaps.beforeBind)
  }

  function AtReload(s: Sys, q: RequestId, id: LinkId, cookie: Option<Token>, gaps: Gaps): Sys {
    Exec(Next(AtBind(s, q, id, cookie, gaps), Bind(q)), gaps.beforeReload)
  }

  function AtRead(s: Sys, q: RequestId, id: LinkId, cookie: Option<Token>, gaps: Gaps): Sys {
    Exec(Next(Next(AtReload(s, q, id, cookie, gaps), Reload(q)), CheckCookie(q)), gaps.beforeRead)
  }

  /** Every step up to the read of the position. */
  function BeforeRead(q: RequestId, id: LinkId, cookie: Option<Token>, gaps: Gaps): seq<Step> {
    [Fetch(q, id, cookie)] + gaps.beforeBind + ([Bind(q)] + gaps.beforeReload) + ([Reload(q)] + [CheckCookie(q)] + gaps.beforeRead)
  }

  lemma {:induction false} ExecConcat(s: Sys, a: seq<Step>, b: seq<Step>)
    ensures Exec(s, a + b) == Exec(Exec(s, a), b)
  {
    if b == [] {
      assert a + b == a;
    } else {
      ExecConcat(s, a, b[..|b| - 1]);
      assert (a + b)[..|a + b| - 1] == a + b[..|b| - 1];
    }
  }

  lemma ExecFirst(s: Sys, step: Step, more: seq<Step>)
    ensures Exec(s, [step] + more) == Exec(Next(s, step), more)
  {
    ExecConcat(s, [step], more);
    assert [step][..0] == [];
  }

  lemma AtReadIs(s: Sys, q: RequestId, id: LinkId, cookie: Option<Token>, gaps: Gaps)
    ensures Exec(s, BeforeRead(q, id, cookie, gaps)) == AtRead(s, q, id, cookie, gaps)
  {
    var a, b := [Fetch(q, id, cookie)] + gaps.beforeBind, [Bind(q)] + gaps.beforeReload;
    var c := [Reload(q)] + [CheckCookie(q)] + gaps.beforeRead;
    ExecConcat(s, a + b, c);
    ExecConcat(s, a, b);
    ExecFirst(s, Fetch(q, id, cookie), gaps.beforeBind);
    ExecFirst(Exec(s, a), Bind(q), gaps.beforeReload);
    assert c == [Reload(q)] + ([CheckCookie(q)] + gaps.beforeRead);
    ExecFirst(Exec(s, a + b), Reload(q), [CheckCookie(q)] + gaps.beforeRead);
    ExecFirst(Next(Exec(s, a + b), Reload(q)), CheckCookie(q), gaps.beforeRead);
  }

  predicate Stands(s: Sys, q: RequestId, cookie: Option<Token>, stage: Stage) { At(s, q) && s.fetches[q] == Request(cookie, stage) }

  lemma Waits(s: Sys, q: RequestId, cookie: Option<Token>, stage: Stage, steps: seq<Step>)
    requires Stands(s, q, cookie, stage) && Others(steps, q)
    ensures Stands(Exec(s, steps), q, cookie, stage)
  {
    OthersLeaveIt(s, steps, q);
  }

  // ---------------------------------------------------------------- the answers

  ghost predicate OnlyOthers(gaps: Gaps, q: RequestId) {
    Others(gaps.beforeBind, q) && Others(gaps.beforeReload, q) && Others(gaps.beforeRead, q)
  }

  /** The link a fetch finds is neither revoked nor past its time. */
  predicate FoundLive(s: Sys, id: LinkId) { id in s.links && s.links[id].revokedAt.None? && s.clock < s.links[id].expiresAt }

  /** A fetch that stands at an answer or at the read keeps standing there. */
  lemma Finishes(s: Sys, q: RequestId, cookie: Option<Token>, stage: Stage, steps: seq<Step>)
    requires Stands(s, q, cookie, stage) && Others(steps, q)
    ensures var r := Exec(s, steps);
      stage.Admitted? ==> Stands(Next(r, ReadPosition(q)), q, cookie, Served(stage.id, stage.via, stage.won, Shown(r, stage.id)))
    ensures !stage.Admitted? ==> Stands(Next(Exec(s, steps), ReadPosition(q)), q, cookie, stage)
  {
    Waits(s, q, cookie, stage, steps);
  }

  /** The stages up to the read, for a link that was found bound. */
  lemma BoundStands(s: Sys, q: RequestId, id: LinkId, cookie: Option<Token>, gaps: Gaps, t: Token)
    requires !At(s, q) && OnlyOthers(gaps, q) && FoundLive(s, id) && s.links[id].viewer == Some(t)
    ensures Stands(Next(Next(AtReload(s, q, id, cookie, gaps), Reload(q)), CheckCookie(q)), q, cookie,
                   if cookie == Some(t) then Admitted(id, t, false) else Forbidden)
  {
    Waits(Next(s, Fetch(q, id, cookie)), q, cookie, Loaded(id, Some(t)), gaps.beforeBind);
    var b := AtBind(s, q, id, cookie, gaps);
    Waits(Next(b, Bind(q)), q, cookie, Loaded(id, Some(t)), gaps.beforeReload);
  }

  /** A link that was found unbound and still is at the swap. */
  lemma WinnerStands(s: Sys, q: RequestId, id: LinkId, cookie: Option<Token>, gaps: Gaps)
    requires !At(s, q) && OnlyOthers(gaps, q) && FoundLive(s, id) && s.links[id].viewer.None?
    requires var b := AtBind(s, q, id, cookie, gaps); id in b.links && b.links[id].viewer.None?
    ensures var b := AtBind(s, q, id, cookie, gaps);
      && Stands(Next(Next(AtReload(s, q, id, cookie, gaps), Reload(q)), CheckCookie(q)), q, cookie, Admitted(id, b.drawn, true))
      && id in Next(b, Bind(q)).links && Next(b, Bind(q)).links[id].viewer == Some(b.drawn)
  {
    Waits(Next(s, Fetch(q, id, cookie)), q, cookie, Loaded(id, None), gaps.beforeBind);
    var b := AtBind(s, q, id, cookie, gaps);
    Waits(Next(b, Bind(q)), q, cookie, Admitted(id, b.drawn, true), gaps.beforeReload);
  }

  /** A link that was found unbound, and is bound or gone at the swap. */
  lemma LoserStands(s: Sys, q: RequestId, id: LinkId, cookie: Option<Token>, gaps: Gaps)
    requires !At(s, q) && OnlyOthers(gaps, q) && FoundLive(s, id) && s.links[id].viewer.None?
    requires var b := AtBind(s, q, id, cookie, gaps); id in b.links ==> b.links[id].viewer.Some?
    ensures var l := AtReload(s, q, id, cookie, gaps);
      Stands(Next(Next(l, Reload(q)), CheckCookie(q)), q, cookie,
             if id !in l.links then Gone
             else if cookie.Some? && cookie == l.links[id].viewer then Admitted(id, cookie.value, false) else Forbidden)
  {
    Waits(Next(s, Fetch(q, id, cookie)), q, cookie, Loaded(id, None), gaps.beforeBind);
    var b := AtBind(s, q, id, cookie, gaps);
    Waits(Next(b, Bind(q)), q, cookie, LostRace(id), gaps.beforeReload);
  }

  lemma DeadStands(s: Sys, q: RequestId, id: LinkId, cookie: Option<Token>, gaps: Gaps)
    requires !At(s, q) && OnlyOthers(gaps, q) && !FoundLive(s, id)
    ensures Stands(Next(Next(AtReload(s, q, id, cookie, gaps), Reload(q)), CheckCookie(q)), q, cookie,
                   if id in s.links then Gone else NotFound)
  {
    var stage := if id in s.links then Gone else NotFound;
    Waits(Next(s, Fetch(q, id, cookie)), q, cookie, stage, gaps.beforeBind);
    Waits(Next(AtBind(s, q, id, cookie, gaps), Bind(q)), q, cookie, stage, gaps.beforeReload);
  }

  ghost predicate Answers(s: Sys, q: RequestId, id: LinkId, cookie: Option<Token>, gaps: Gaps, answer: Stage) {
    Stands(WholeFetch(s, q, id, cookie, gaps), q, cookie, answer)
  }

  /** The position a fetch reads: the last ping's before the read, none if there was none or the row is gone by then. */
  function ReadBy(run: seq<Step>, q: RequestId, id: LinkId, cookie: Option<Token>, gaps: Gaps): Option<Blob> {
    var all := run + BeforeRead(q, id, cookie, gaps);
    if id in Exec(Init(), all).links then LastBlob(all, id) else None
  }

  lemma ReadIs(run: seq<Step>, q: RequestId, id: LinkId, cookie: Option<Token>, gaps: Gaps)
    ensures Shown(AtRead(Exec(Init(), run), q, id, cookie, gaps), id) == ReadBy(run, q, id, cookie, gaps)
  {
    ExecConcat(Init(), run, BeforeRead(q, id, cookie, gaps));
    AtReadIs(Exec(Init(), run), q, id, cookie, gaps);
    PositionIsLastPing(run + BeforeRead(q, id, cookie, gaps), id);
  }

  lemma FinishesFetch(run: seq<Step>, q: RequestId, id: LinkId, cookie: Option<Token>, gaps: Gaps, stage: Stage)
    requires OnlyOthers(gaps, q)
    requires var s := Exec(Init(), run);
      Stands(Next(Next(AtReload(s, q, id, cookie, gaps), Reload(q)), CheckCookie(q)), q, cookie, stage)
    requires stage.Admitted? ==> stage.id == id
    ensures Answers(Exec(Init(), run), q, id, cookie, gaps,
                    if stage.Admitted? then Served(id, stage.via, stage.won, ReadBy(run, q, id, cookie, gaps)) else stage)
  {
    var s := Exec(Init(), run);
    Finishes(Next(Next(AtReload(s, q, id, cookie, gaps), Reload(q)), CheckCookie(q)), q, cookie, stage, gaps.beforeRead);
    ReadIs(run, q, id, cookie, gaps);
  }

  /**
    After any run, a fetch that finds a live link bound to token t is served that link's last position
    exactly when its cookie is t, and is refused otherwise.
  */
  lemma BoundDeviceIsServed(run: seq<Step>, q: RequestId, id: LinkId, cookie: Option<Token>, gaps: Gaps, t: Token)
    requires var s := Exec(Init(), run); !At(s, q) && FoundLive(s, id) && s.links[id].viewer == Some(t)
    requires OnlyOthers(gaps, q)
    ensures Answers(Exec(Init(), run), q, id, cookie, gaps,
                    if cookie == Some(t) then Served(id, t, false, ReadBy(run, q, id, cookie, gaps)) else Forbidden)
  {
    BoundStands(Exec(Init(), run), q, id, cookie, gaps, t);
    FinishesFetch(run, q, id, cookie, gaps, if cookie == Some(t) then Admitted(id, t, false) else Forbidden);
  }

  /** A fetch that finds a live link unbound, at its load and at its swap, is served and binds it to a new token. */
  lemma FirstDeviceIsServed(run: seq<Step>, q: RequestId, id: LinkId, cookie: Option<Token>, gaps: Gaps)
    requires var s := Exec(Init(), run); !At(s, q) && FoundLive(s, id) && s.links[id].viewer.None?
    requires OnlyOthers(gaps, q)
    requires var b := AtBind(Exec(Init(), run), q, id, cookie, gaps); id in b.links && b.links[id].viewer.None?
    ensures var s, b := Exec(Init(), run), AtBind(Exec(Init(), run), q, id, cookie, gaps);
      && Answers(s, q, id, cookie, gaps, Served(id, b.drawn, true, ReadBy(run, q, id, cookie, gaps)))
      && id in Next(b, Bind(q)).links && Next(b, Bind(q)).links[id].viewer == Some(b.drawn)
  {
    var s := Exec(Init(), run);
    WinnerStands(s, q, id, cookie, gaps);
    FinishesFetch(run, q, id, cookie, gaps, Admitted(id, AtBind(s, q, id, cookie, gaps).drawn, true));
  }

  /** One that lost the swap is judged by its cookie against the reloaded row, and answered gone without a row. */
  lemma LoserIsJudged(run: seq<Step>, q: RequestId, id: LinkId, cookie: Option<Token>, gaps: Gaps)
    requires var s := Exec(Init(), run); !At(s, q) && FoundLive(s, id) && s.links[id].viewer.None?
    requires OnlyOthers(gaps, q)
    requires var b := AtBind(Exec(Init(), run), q, id, cookie, gaps); id in b.links ==> b.links[id].viewer.Some?
    ensures var s, l := Exec(Init(), run), AtReload(Exec(Init(), run), q, id, cookie, gaps);
      Answers(s, q, id, cookie, gaps,
              if id !in l.links then Gone
              else if cookie.Some? && cookie == l.links[id].viewer then Served(id, cookie.value, false, ReadBy(run, q, id, cookie, gaps))
              else Forbidden)
  {
    var s, l := Exec(Init(), run), AtReload(Exec(Init(), run), q, id, cookie, gaps);
    LoserStands(s, q, id, cookie, gaps);
    FinishesFetch(run, q, id, cookie, gaps,
                  if id !in l.links then Gone
                  else if cookie.Some? && cookie == l.links[id].viewer then Admitted(id, cookie.value, false) else Forbidden);
  }

  /** A link that is not there is not found, and one that is revoked or past its time is gone. */
  lemma DeadLinkIsGone(run: seq<Step>, q: RequestId, id: LinkId, cookie: Option<Token>, gaps: Gaps)
    requires !At(Exec(Init(), run), q) && !FoundLive(Exec(Init(), run), id) && OnlyOthers(gaps, q)
    ensures Answers(Exec(Init(), run), q, id, cookie, gaps, if id in Exec(Init(), run).links then Gone else NotFound)
  {
    var s := Exec(Init(), run);
    DeadStands(s, q, id, cookie, gaps);
    FinishesFetch(run, q, id, cookie, gaps, if id in s.links then Gone else NotFound);
  }
}
