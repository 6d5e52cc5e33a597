/**
  One browser tab with single-flight refresh (web/src/data/api.ts) against the server's rotation.

  Any number of requests may fail with 401 and ask for a refresh at any time; while one refresh is in
  flight they only wait for it. Every response of the server is delivered. Meanwhile the server does
  anything for other callers, as long as they do not present this session's tokens.
*/
module BrowserRefresh {
  import opened Prelude
  import opened Sessions
  import opened RefreshRuns

  /** `outside`: somebody else logged the session, its device or its user out. */
  datatype World = World(
    sys: Sys, sid: SessionId, cookie: Token, inFlight: Option<CallId>, waiting: nat, outside: bool)

  datatype Move =
    | NeedRefresh(c: CallId)                      // tryRefresh() after a 401
    | Serve(accessTTL: int, refreshTTL: int)      // the server's next statement for the refresh in flight
    | Deliver                                     // the response arrives; the cookie is replaced
    | Elsewhere(step: Step)                       // the server does something for somebody else

  predicate Answered(call: Call) { call.Rotated? || call.Reused? || call.Invalid? }

  function NextStatement(c: CallId, call: Call, accessTTL: int, refreshTTL: int): Step
    requires !Answered(call)
  {
    match call
    case Found(_, _) => Swap(c, accessTTL, refreshTTL)
    case Missed(_) => LookupPrev(c)
    case Lost(_) => RevokeReused(c)
    case Replayed(_) => RevokeReused(c)
  }

  predicate Kills(s: Sys, step: Step, sid: SessionId) {
    match step
    case Logout(id) => id == sid
    case DropDevice(d) => sid in s.rows && s.rows[sid].device == d
    case DropUser(u) => sid in s.rows && s.rows[sid].user == u
    case _ => false
  }

  /** The step belongs to somebody else: it neither presents a token of this session nor serves the tab's call. */
  predicate Foreign(w: World, step: Step) {
    match step
    case Lookup(c, t) => t !in w.sys.refreshes.Of(w.sid)
    case Swap(c, _, _) => w.inFlight != Some(c)
    case LookupPrev(c) => w.inFlight != Some(c)
    case RevokeReused(c) => w.inFlight != Some(c)
    case _ => true
  }

  ghost function Make(w: World, m: Move): World {
    match m
    case NeedRefresh(c) =>
      if w.inFlight.Some? then w.(waiting := w.waiting + 1)
      else if c in w.sys.calls || w.cookie >= w.sys.drawn then w
      else w.(sys := Next(w.sys, Lookup(c, w.cookie)), inFlight := Some(c))
    case Serve(ta, tr) =>
      if w.inFlight.Some? && w.inFlight.value in w.sys.calls && !Answered(w.sys.calls[w.inFlight.value])
      then w.(sys := Next(w.sys, NextStatement(w.inFlight.value, w.sys.calls[w.inFlight.value], ta, tr)))
      else w
    case Deliver =>
      if w.inFlight.Some? && w.inFlight.value in w.sys.calls && Answered(w.sys.calls[w.inFlight.value]) then
        var call := w.sys.calls[w.inFlight.value];
        w.(cookie := if call.Rotated? then call.newRefresh else w.cookie, inFlight := None, waiting := 0)
      else w
    case Elsewhere(step) =>
      if Foreign(w, step) then w.(sys := Next(w.sys, step), outside := w.outside || Kills(w.sys, step, w.sid)) else w
  }

  ghost function Play(w: World, moves: seq<Move>): World {
    if moves == [] then w else Make(Play(w, moves[..|moves| - 1]), Last(moves))
  }

  /** The tab has just logged in: it holds the newest refresh token, and nobody else uses the session's tokens. */
  ghost predicate JustLoggedIn(w: World) {
    && Inv(w.sys) && w.sid in w.sys.rows && !Dead(w.sys, w.sid) && w.inFlight.None? && !w.outside
    && w.cookie == Newest(w)
    && forall c <- w.sys.calls :: CallElsewhere(w, w.sys.calls[c])
  }

  /** A call of somebody else has nothing to do with this session. */
  predicate CallElsewhere(w: World, call: Call) {
    match call
    case Found(sid, _) => sid != w.sid
    case Missed(t) => t !in w.sys.refreshes.Of(w.sid)
    case Lost(sid) => sid != w.sid
    case Replayed(sid) => sid != w.sid
    case _ => true
  }

  function Newest(w: World): Token {
    var chain := w.sys.refreshes.Of(w.sid);
    if chain == [] then 0 else Last(chain)
  }

  predicate OwnCall(w: World, call: Call) {
    var newest := Newest(w);
    match call
    case Found(sid, t) => sid == w.sid && t == w.cookie == newest
    case Missed(t) => t == w.cookie == newest
    case Rotated(sid, _, r) => sid == w.sid && r == newest
    case Lost(sid) => sid == w.sid && Dead(w.sys, sid) && w.cookie == newest
    case Replayed(_) => false
    case Reused(sid) => sid == w.sid && Dead(w.sys, sid) && w.cookie == newest
    case Invalid => w.cookie == newest
  }

  predicate SessionOk(w: World) {
    && w.sid in w.sys.refreshes.chains
    && (!w.outside && w.sid in w.sys.rows ==> w.sys.rows[w.sid].revokedAt.None?)
  }

  predicate TabOk(w: World) {
    match w.inFlight
    case None => w.cookie == Newest(w)
    case Some(c) => c in w.sys.calls && OwnCall(w, w.sys.calls[c])
  }

  ghost predicate OthersOk(w: World) {
    forall c <- w.sys.calls | Some(c) != w.inFlight :: CallElsewhere(w, w.sys.calls[c])
  }

  ghost predicate Safe(w: World) {
    Inv(w.sys) && SessionOk(w) && TabOk(w) && OthersOk(w)
  }

  lemma NewestPlaced(w: World)
    requires HistoryInv(w.sys.refreshes, w.sys.drawn) && w.sid in w.sys.refreshes.chains
    ensures w.sys.refreshes.Of(w.sid) != []
    ensures Newest(w) in w.sys.refreshes.place && Newest(w) < w.sys.drawn
    ensures w.sys.refreshes.place[Newest(w)] == (w.sid, |w.sys.refreshes.Of(w.sid)| - 1)
  {
    Placed(w.sys.refreshes, w.sys.drawn, w.sid, |w.sys.refreshes.chains[w.sid]| - 1);
  }

  /** The newest token of a session is the current one of at most that session and the previous one of none. */
  lemma NewestIsOnlyCurrent(w: World, id: SessionId)
    requires Inv(w.sys) && w.sid in w.sys.refreshes.chains && id in w.sys.rows
    ensures w.sys.rows[id].prev != Some(Newest(w)) && (w.sys.rows[id].refresh == Newest(w) ==> id == w.sid)
    ensures id == w.sid ==> w.sys.rows[id].refresh == Newest(w)
  {
    NewestPlaced(w);
    assert RowInv(w.sys.rows[id], w.sys.refreshes.Of(id), w.sys.accesses.Of(id));
    if w.sys.rows[id].refresh == Newest(w) {
      TokensIdentifyRows(w.sys, id, Newest(w));
    }
  }

  lemma LookupAnswers(s: Sys, c: CallId, t: Token)
    requires c !in s.calls && t < s.drawn
    ensures Next(s, Lookup(c, t))
         == Answer(s, c, if ByRefresh(s.rows, t, s.clock).Some? then Found(ByRefresh(s.rows, t, s.clock).value, t)
                         else Missed(t))
  {
  }

  /** Looking up its own newest token, the tab finds its own session or none. */
  lemma NeedOwn(w: World, c: CallId)
    requires Safe(w) && w.inFlight.None? && c !in w.sys.calls && w.cookie < w.sys.drawn
    ensures OwnCall(w, if ByRefresh(w.sys.rows, w.cookie, w.sys.clock).Some?
                       then Found(ByRefresh(w.sys.rows, w.cookie, w.sys.clock).value, w.cookie) else Missed(w.cookie))
  {
    var r := ByRefresh(w.sys.rows, w.cookie, w.sys.clock);
    if r.Some? { NewestIsOnlyCurrent(w, r.value); }
  }

  lemma NeedSafe(w: World, c: CallId)
    requires Safe(w)
    ensures Safe(Make(w, NeedRefresh(c)))
  {
    if w.inFlight.None? && c !in w.sys.calls && w.cookie < w.sys.drawn {
      var u := Make(w, NeedRefresh(c));
      LookupAnswers(w.sys, c, w.cookie);
      NeedOwn(w, c);
      assert TabOk(u) && SessionOk(u);
      forall d <- u.sys.calls | Some(d) != u.inFlight ensures CallElsewhere(u, u.sys.calls[d]) {
        assert CallElsewhere(w, w.sys.calls[d]);
      }
      assert Inv(u.sys) by { NextInv(w.sys, Lookup(c, w.cookie)); }
    }
  }

  /** The tab's own swap: the session is alive, so the cookie is exchanged for the new newest token. */
  lemma ServeSwap(w: World, c: CallId, ta: int, tr: int)
    requires Safe(w) && w.inFlight == Some(c) && w.sys.calls[c].Found?
    ensures var t := w.(sys := Next(w.sys, Swap(c, ta, tr))); SessionOk(t) && TabOk(t) && OthersOk(t)
  {
    if w.sid in w.sys.rows { NewestIsOnlyCurrent(w, w.sid); }
    var t := w.(sys := Next(w.sys, Swap(c, ta, tr)));
    forall d <- t.sys.calls | Some(d) != t.inFlight ensures CallElsewhere(t, t.sys.calls[d]) {
      // the token drawn by a rotation is new, so nobody has presented it before
      assert CallElsewhere(w, w.sys.calls[d]) && CallInv(w.sys, w.sys.calls[d]);
    }
  }

  lemma ServeMiss(w: World, c: CallId)
    requires Safe(w) && w.inFlight == Some(c) && w.sys.calls[c].Missed?
    ensures var t := w.(sys := Next(w.sys, LookupPrev(c))); SessionOk(t) && TabOk(t) && OthersOk(t)
  {
    var r := ByPrev(w.sys.rows, w.cookie);
    if r.Some? { NewestIsOnlyCurrent(w, r.value); }
  }

  lemma ServeLost(w: World, c: CallId)
    requires Safe(w) && w.inFlight == Some(c) && w.sys.calls[c].Lost?
    ensures var t := w.(sys := Next(w.sys, RevokeReused(c))); SessionOk(t) && TabOk(t) && OthersOk(t)
  {
  }

  lemma ServeSafe(w: World, ta: int, tr: int)
    requires Safe(w)
    ensures Safe(Make(w, Serve(ta, tr)))
  {
    if w.inFlight.Some? && !Answered(w.sys.calls[w.inFlight.value]) {
      var c := w.inFlight.value;
      NextInv(w.sys, NextStatement(c, w.sys.calls[c], ta, tr));
      match w.sys.calls[c]
      case Found(_, _) => ServeSwap(w, c, ta, tr);
      case Missed(_) => ServeMiss(w, c);
      case Lost(_) => ServeLost(w, c);
    }
  }

  /** Somebody else's step gives this session no token and leaves it live unless it logs it out. */
  lemma ForeignStep(w: World, step: Step)
    requires Safe(w) && Foreign(w, step)
    ensures var t := Next(w.sys, step);
      && t.refreshes.Of(w.sid) == w.sys.refreshes.Of(w.sid)
      && (w.sid in t.rows && t.rows[w.sid].revokedAt.Some? ==>
            w.sid in w.sys.rows && (w.sys.rows[w.sid].revokedAt.Some? || Kills(w.sys, step, w.sid)))
      && (w.inFlight.Some? ==> w.inFlight.value in t.calls && t.calls[w.inFlight.value] == w.sys.calls[w.inFlight.value])
      && t.refreshes.chains.Keys >= w.sys.refreshes.chains.Keys
  {
    match step
    case Swap(c, _, _) => if c in w.sys.calls { assert CallElsewhere(w, w.sys.calls[c]); }
    case RevokeReused(c) => if c in w.sys.calls { assert CallElsewhere(w, w.sys.calls[c]); }
    case _ =>
  }

  /** A session found by a token of another session is another session. */
  lemma ForeignLookup(w: World, c: CallId, t: Token)
    requires Safe(w) && Foreign(w, Lookup(c, t)) && ByRefresh(w.sys.rows, t, w.sys.clock).Some?
    ensures ByRefresh(w.sys.rows, t, w.sys.clock).value != w.sid
  {
    var id := ByRefresh(w.sys.rows, t, w.sys.clock).value;
    assert RowInv(w.sys.rows[id], w.sys.refreshes.Of(id), w.sys.accesses.Of(id));
  }

  lemma ForeignReplay(w: World, t: Token)
    requires Safe(w) && t !in w.sys.refreshes.Of(w.sid) && ByPrev(w.sys.rows, t).Some?
    ensures ByPrev(w.sys.rows, t).value != w.sid
  {
    var id := ByPrev(w.sys.rows, t).value;
    assert RowInv(w.sys.rows[id], w.sys.refreshes.Of(id), w.sys.accesses.Of(id));
    assert w.sys.refreshes.Of(id)[|w.sys.refreshes.Of(id)| - 2] == t;
  }

  lemma ForeignAnswer(w: World, step: Step, c: CallId)
    requires Safe(w) && Foreign(w, step) && c in Next(w.sys, step).calls && Some(c) != w.inFlight
    ensures CallElsewhere(w, Next(w.sys, step).calls[c])
  {
    if c in w.sys.calls { assert CallElsewhere(w, w.sys.calls[c]); }
    match step
    case Lookup(d, token) =>
      if ByRefresh(w.sys.rows, token, w.sys.clock).Some? { ForeignLookup(w, d, token); }
    case LookupPrev(d) =>
      if c == d && Enabled(w.sys, step) && ByPrev(w.sys.rows, w.sys.calls[d].token).Some? { ForeignReplay(w, w.sys.calls[d].token); }
    case _ =>
  }

  lemma ForeignCall(w: World, step: Step, c: CallId)
    requires Safe(w) && Foreign(w, step) && c in Next(w.sys, step).calls && Some(c) != w.inFlight
    ensures CallElsewhere(Make(w, Elsewhere(step)), Next(w.sys, step).calls[c])
  {
    ForeignAnswer(w, step, c);
    ForeignStep(w, step);
  }

  lemma ElsewhereSafe(w: World, step: Step)
    requires Safe(w) && Foreign(w, step)
    ensures Safe(Make(w, Elsewhere(step)))
  {
    var w' := Make(w, Elsewhere(step));
    NextInv(w.sys, step);
    ForeignStep(w, step);
    forall c <- w'.sys.calls | Some(c) != w.inFlight ensures CallElsewhere(w', w'.sys.calls[c]) {
      ForeignCall(w, step, c);
    }
    if w.inFlight.Some? && (w.sys.calls[w.inFlight.value].Lost? || w.sys.calls[w.inFlight.value].Reused?) {
      DeadStays(w.sys, step, w.sid);
    }
  }

  lemma DeliverSafe(w: World)
    requires Safe(w)
    ensures Safe(Make(w, Deliver))
  {
  }

  lemma MakeSafe(w: World, m: Move)
    requires Safe(w)
    ensures Safe(Make(w, m)) && Make(w, m).sid == w.sid
  {
    match m
    case NeedRefresh(c) => NeedSafe(w, c);
    case Serve(ta, tr) => ServeSafe(w, ta, tr);
    case Deliver => DeliverSafe(w);
    case Elsewhere(step) => if Foreign(w, step) { ElsewhereSafe(w, step); }
  }

  lemma {:induction false} PlaySafe(w: World, moves: seq<Move>)
    requires JustLoggedIn(w)
    ensures Safe(Play(w, moves)) && Play(w, moves).sid == w.sid
  {
    if moves == [] {
      assert RowInv(w.sys.rows[w.sid], w.sys.refreshes.Of(w.sid), w.sys.accesses.Of(w.sid));
    } else {
      PlaySafe(w, moves[..|moves| - 1]);
      MakeSafe(Play(w, moves[..|moves| - 1]), Last(moves));
    }
  }

  /**
    A tab that refreshes single-flight never triggers reuse detection: unless somebody else logged the
    session out, its row is never revoked and, while the row is there, the tab's refresh never loses the
    swap, meets a replayed token or is answered as reuse.
  */
  lemma HonestTabIsNeverRevoked(w: World, moves: seq<Move>)
    requires JustLoggedIn(w)
    ensures var v := Play(w, moves);
      && (!v.outside && w.sid in v.sys.rows ==> v.sys.rows[w.sid].revokedAt.None?)
      && (v.inFlight.Some? ==> v.inFlight.value in v.sys.calls && !v.sys.calls[v.inFlight.value].Replayed?)
      && (v.inFlight.Some? && !v.outside && w.sid in v.sys.rows ==>
            !v.sys.calls[v.inFlight.value].Lost? && !v.sys.calls[v.inFlight.value].Reused?)
      && (v.inFlight.None? ==> v.cookie == Newest(v))
  {
    PlaySafe(w, moves);
  }

  /** Why single flight matters: two refreshes that both look the token up first always kill the session. */
  lemma DoubleFlightRevokes(s: Sys, sid: SessionId, c: CallId, d: CallId, ta: int, tr: int)
    requires Inv(s) && sid in s.rows && !Dead(s, sid) && s.rows[sid].refreshExp > s.clock
    requires c !in s.calls && d !in s.calls && c != d
    ensures var t := s.rows[sid].refresh;
      var both := Next(Next(s, Lookup(c, t)), Lookup(d, t));
      && c in both.calls && d in both.calls && both.calls[c] == Found(sid, t) == both.calls[d]
      && var swapped := Next(Next(both, Swap(c, ta, tr)), Swap(d, ta, tr));
      && swapped.calls[c].Rotated? && swapped.calls[d] == Lost(sid)
      && Dead(Next(swapped, RevokeReused(d)), sid)
  {
    var t := s.rows[sid].refresh;
    BothFound(s, sid, c, d);
    NextInv(s, Lookup(c, t));
    NextInv(Next(s, Lookup(c, t)), Lookup(d, t));
    SwapThenSwap(Next(Next(s, Lookup(c, t)), Lookup(d, t)), sid, c, d, ta, tr);
  }

  lemma BothFound(s: Sys, sid: SessionId, c: CallId, d: CallId)
    requires Inv(s) && sid in s.rows && !Dead(s, sid) && s.rows[sid].refreshExp > s.clock
    requires c !in s.calls && d !in s.calls && c != d
    ensures var t := s.rows[sid].refresh;
      var both := Next(Next(s, Lookup(c, t)), Lookup(d, t));
      && both.rows == s.rows && both.calls == s.calls[c := Found(sid, t)][d := Found(sid, t)]
  {
    assert RowInv(s.rows[sid], s.refreshes.Of(sid), s.accesses.Of(sid));
    Placed(s.refreshes, s.drawn, sid, |s.refreshes.Of(sid)| - 1);
    LookupsFind(s, sid, |s.refreshes.Of(sid)| - 1);
  }

  lemma SwapDecides(s: Sys, sid: SessionId, c: CallId, t: Token, ta: int, tr: int)
    requires c in s.calls && s.calls[c] == Found(sid, t)
    ensures CanRotate(s.rows, sid, t) ==> Next(s, Swap(c, ta, tr)) == RotateTo(s, c, sid, ta, tr)
    ensures !CanRotate(s.rows, sid, t) ==> Next(s, Swap(c, ta, tr)) == Answer(s.(drawn := s.drawn + 2), c, Lost(sid))
  {
  }

  lemma SwapThenSwap(s: Sys, sid: SessionId, c: CallId, d: CallId, ta: int, tr: int)
    requires Inv(s) && sid in s.rows && !Dead(s, sid) && c != d && c in s.calls && d in s.calls
    requires s.calls[c] == s.calls[d] == Found(sid, s.rows[sid].refresh)
    ensures var swapped := Next(Next(s, Swap(c, ta, tr)), Swap(d, ta, tr));
      && swapped.calls.Keys == s.calls.Keys
      && swapped.calls[c].Rotated? && swapped.calls[d] == Lost(sid)
      && Dead(Next(swapped, RevokeReused(d)), sid)
  {
    var t := s.rows[sid].refresh;
    assert t < s.drawn by { TokensIdentifyRows(s, sid, t); }
    SwapDecides(s, sid, c, t, ta, tr);
    var first := RotateTo(s, c, sid, ta, tr);
    assert first.rows[sid].refresh == s.drawn + 1;
    SwapDecides(first, sid, d, t, ta, tr);
  }
}
