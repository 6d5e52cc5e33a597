/**
  Session rows and refresh-token rotation (server/internal/auth/service.go, store/sessions.sql.go).

  Tokens are drawn from a counter, so a new token differs from all earlier ones; the peppered hash is
  taken to be injective, so a row stores the token itself. One SQL statement is one step, and any
  steps of other requests may come between the statements of a Refresh call.
*/
module Sessions {
  import opened Prelude

  type Token = nat
  type Time = int
  type SessionId = nat
  type CallId = nat
  type UserId = nat
  type DeviceId = nat

  const DAY: int := 24 * 3600

  datatype Session = Session(
    user: UserId, device: DeviceId, access: Token, refresh: Token, prev: Option<Token>,
    accessExp: Time, refreshExp: Time, revokedAt: Option<Time>)

  type Table = map<SessionId, Session>

  // ---------------------------------------------------------------- statements

  predicate MatchesRefresh(r: Session, t: Token, now: Time) {
    r.refresh == t && r.revokedAt.None? && r.refreshExp > now
  }

  predicate MatchesPrev(r: Session, t: Token) {
    r.prev == Some(t) && r.revokedAt.None?
  }

  predicate MatchesAccess(r: Session, a: Token, now: Time) {
    r.access == a && r.revokedAt.None? && r.accessExp > now
  }

  /** The row a `:one` query returns. */
  ghost function ByRefresh(rows: Table, t: Token, now: Time): (r: Option<SessionId>)
    ensures r.Some? ==> r.value in rows && MatchesRefresh(rows[r.value], t, now)
    ensures r.None? ==> forall id <- rows :: !MatchesRefresh(rows[id], t, now)
  {
    if exists id :: id in rows && MatchesRefresh(rows[id], t, now)
    then var id :| id in rows && MatchesRefresh(rows[id], t, now); Some(id) else None
  }

  ghost function ByPrev(rows: Table, t: Token): (r: Option<SessionId>)
    ensures r.Some? ==> r.value in rows && MatchesPrev(rows[r.value], t)
    ensures r.None? ==> forall id <- rows :: !MatchesPrev(rows[id], t)
  {
    if exists id :: id in rows && MatchesPrev(rows[id], t)
    then var id :| id in rows && MatchesPrev(rows[id], t); Some(id) else None
  }

  ghost function ByAccess(rows: Table, a: Token, now: Time): (r: Option<SessionId>)
    ensures r.Some? ==> r.value in rows && MatchesAccess(rows[r.value], a, now)
    ensures r.None? ==> forall id <- rows :: !MatchesAccess(rows[id], a, now)
  {
    if exists id :: id in rows && MatchesAccess(rows[id], a, now)
    then var id :| id in rows && MatchesAccess(rows[id], a, now); Some(id) else None
  }

  /** The compare-and-swap of RotateSession finds its row. */
  predicate CanRotate(rows: Table, sid: SessionId, presented: Token) {
    sid in rows && rows[sid].refresh == presented && rows[sid].revokedAt.None?
  }

  function RotatedRow(r: Session, access: Token, refresh: Token, accessExp: Time, refreshExp: Time): Session {
    r.(access := access, refresh := refresh, prev := Some(r.refresh), accessExp := accessExp, refreshExp := refreshExp)
  }

  function Revoked(r: Session, now: Time): Session {
    if r.revokedAt.None? then r.(revokedAt := Some(now)) else r
  }

  function RevokeOne(rows: Table, sid: SessionId, now: Time): Table {
    if sid in rows then rows[sid := Revoked(rows[sid], now)] else rows
  }

  function RevokeDevice(rows: Table, d: DeviceId, now: Time): Table {
    map id | id in rows :: if rows[id].device == d then Revoked(rows[id], now) else rows[id]
  }

  function RevokeUser(rows: Table, u: UserId, now: Time): Table {
    map id | id in rows :: if rows[id].user == u then Revoked(rows[id], now) else rows[id]
  }

  predicate Stale(r: Session, now: Time) {
    r.refreshExp < now - DAY || (r.revokedAt.Some? && r.revokedAt.value < now - DAY)
  }

  function DeleteExpired(rows: Table, now: Time): Table {
    map id | id in rows && !Stale(rows[id], now) :: rows[id]
  }

  // ---------------------------------------------------------------- the system

  /** Where one Refresh call stands between its statements, or what it answered. */
  datatype Call =
    | Found(sid: SessionId, token: Token)   // the lookup by current hash found the session
    | Missed(token: Token)                  // it did not; the previous hash comes next
    | Lost(sid: SessionId)                  // the compare-and-swap matched no row; revoke comes next
    | Replayed(sid: SessionId)              // the token is a previous one; revoke comes next
    | Rotated(sid: SessionId, newAccess: Token, newRefresh: Token)
    | Reused(sid: SessionId)
    | Invalid

  /** The tokens every session was ever given, oldest first, and where each token stands. */
  datatype History = History(chains: map<SessionId, seq<Token>>, place: map<Token, (SessionId, nat)>)
  {
    function Of(sid: SessionId): seq<Token> { if sid in chains then chains[sid] else [] }

    function Append(sid: SessionId, t: Token): History {
      History(chains[sid := Of(sid) + [t]], place[t := (sid, |Of(sid)|)])
    }
  }

  /** `drawn` tokens exist; `spent` lists the refresh tokens exchanged, in order. */
  datatype Sys = Sys(
    rows: Table, clock: Time, drawn: Token, calls: map<CallId, Call>,
    refreshes: History, accesses: History, spent: seq<Token>)

  datatype Step =
    | Tick(seconds: nat)
    | Issue(sid: SessionId, user: UserId, device: DeviceId, accessTTL: int, refreshTTL: int)
    | Lookup(c: CallId, token: Token)
    | Swap(c: CallId, accessTTL: int, refreshTTL: int)
    | LookupPrev(c: CallId)
    | RevokeReused(c: CallId)
    | Logout(sid: SessionId)
    | DropDevice(device: DeviceId)
    | DropUser(user: UserId)
    | Prune

  function Init(): Sys { Sys(map[], 0, 0, map[], History(map[], map[]), History(map[], map[]), []) }

  /** New ids are new, a call makes its statements in order, and nobody presents a token not drawn yet. */
  predicate Enabled(s: Sys, step: Step) {
    match step
    case Issue(sid, _, _, _, _) => sid !in s.refreshes.chains && sid !in s.accesses.chains
    case Lookup(c, t) => c !in s.calls && t < s.drawn
    case Swap(c, _, _) => c in s.calls && s.calls[c].Found?
    case LookupPrev(c) => c in s.calls && s.calls[c].Missed?
    case RevokeReused(c) => c in s.calls && (s.calls[c].Lost? || s.calls[c].Replayed?)
    case _ => true
  }

  function IssueTo(s: Sys, sid: SessionId, user: UserId, device: DeviceId, accessTTL: int, refreshTTL: int): Sys {
    var a, r := s.drawn, s.drawn + 1;
    s.(rows := s.rows[sid := Session(user, device, a, r, None, s.clock + accessTTL, s.clock + refreshTTL, None)],
       drawn := s.drawn + 2,
       refreshes := s.refreshes.Append(sid, r), accesses := s.accesses.Append(sid, a))
  }

  function RotateTo(s: Sys, c: CallId, sid: SessionId, accessTTL: int, refreshTTL: int): Sys
    requires sid in s.rows
  {
    var a, r := s.drawn, s.drawn + 1;
    s.(rows := s.rows[sid := RotatedRow(s.rows[sid], a, r, s.clock + accessTTL, s.clock + refreshTTL)],
       drawn := s.drawn + 2,
       calls := s.calls[c := Rotated(sid, a, r)],
       refreshes := s.refreshes.Append(sid, r), accesses := s.accesses.Append(sid, a),
       spent := s.spent + [s.rows[sid].refresh])
  }

  ghost function Next(s: Sys, step: Step): Sys {
    if !Enabled(s, step) then s else
    match step
    case Tick(n) => s.(clock := s.clock + n)
    case Issue(sid, u, d, ta, tr) => IssueTo(s, sid, u, d, ta, tr)
    case Lookup(c, t) =>
      var r := ByRefresh(s.rows, t, s.clock);
      Answer(s, c, if r.Some? then Found(r.value, t) else Missed(t))
    case Swap(c, ta, tr) =>
      var Found(sid, t) := s.calls[c];
      if CanRotate(s.rows, sid, t) then RotateTo(s, c, sid, ta, tr)
      else Answer(s.(drawn := s.drawn + 2), c, Lost(sid))
    case LookupPrev(c) =>
      var r := ByPrev(s.rows, s.calls[c].token);
      Answer(s, c, if r.Some? then Replayed(r.value) else Invalid)
    case RevokeReused(c) =>
      var sid := s.calls[c].sid;
      Answer(s.(rows := RevokeOne(s.rows, sid, s.clock)), c, Reused(sid))
    case Logout(sid) => s.(rows := RevokeOne(s.rows, sid, s.clock))
    case DropDevice(d) => s.(rows := RevokeDevice(s.rows, d, s.clock))
    case DropUser(u) => s.(rows := RevokeUser(s.rows, u, s.clock))
    case Prune => s.(rows := DeleteExpired(s.rows, s.clock))
  }

  function Answer(s: Sys, c: CallId, a: Call): Sys {
    s.(calls := s.calls[c := a])
  }

  // ---------------------------------------------------------------- invariant

  function Previous(chain: seq<Token>): Option<Token> {
    if |chain| >= 2 then Some(chain[|chain| - 2]) else None
  }

  ghost predicate NoRepeats(s: seq<Token>) {
    forall i, j :: 0 <= i < j < |s| ==> s[i] != s[j]
  }

  predicate Dead(s: Sys, sid: SessionId) {
    sid !in s.rows || s.rows[sid].revokedAt.Some?
  }

  ghost predicate HistoryInv(h: History, drawn: Token) {
    && (forall id <- h.chains :: |h.chains[id]| >= 1)
    && (forall id <- h.chains, i | 0 <= i < |h.chains[id]| :: h.chains[id][i] in h.place && h.place[h.chains[id][i]] == (id, i))
    && (forall t <- h.place :: t < drawn)
    && (forall t <- h.place :: h.place[t].0 in h.chains && h.place[t].1 < |h.chains[h.place[t].0]|
          && h.chains[h.place[t].0][h.place[t].1] == t)
  }

  /** The token was drawn for a session and a later one has replaced it. */
  predicate Superseded(h: History, t: Token) {
    t in h.place && h.place[t].1 < |h.Of(h.place[t].0)| - 1
  }

  /** Exactly the superseded refresh tokens were exchanged, each once. */
  ghost predicate SpentInv(h: History, spent: seq<Token>) {
    NoRepeats(spent) && forall t: Token :: t in spent <==> Superseded(h, t)
  }

  /** A row holds the last access token and the last two refresh tokens of its session. */
  predicate RowInv(r: Session, refreshes: seq<Token>, accesses: seq<Token>) {
    && |refreshes| >= 1 && |accesses| >= 1
    && r.refresh == Last(refreshes) && r.prev == Previous(refreshes) && r.access == Last(accesses)
  }

  ghost predicate CallInv(s: Sys, call: Call) {
    match call
    case Found(sid, t) => sid in s.refreshes.chains && t in s.refreshes.place && s.refreshes.place[t].0 == sid
    case Missed(t) => t < s.drawn
    case Lost(sid) => sid in s.refreshes.chains
    case Replayed(sid) => sid in s.refreshes.chains
    case Reused(sid) => sid in s.refreshes.chains && Dead(s, sid)
    case _ => true
  }

  ghost predicate RowsInv(s: Sys) {
    forall id <- s.rows :: RowInv(s.rows[id], s.refreshes.Of(id), s.accesses.Of(id))
  }

  ghost predicate CallsInv(s: Sys) {
    forall c <- s.calls :: CallInv(s, s.calls[c])
  }

  ghost predicate TokensInv(s: Sys) {
    && HistoryInv(s.refreshes, s.drawn) && HistoryInv(s.accesses, s.drawn)
    && SpentInv(s.refreshes, s.spent)
  }

  ghost predicate Inv(s: Sys) {
    TokensInv(s) && RowsInv(s) && CallsInv(s)
  }

  // ---------------------------------------------------------------- every step keeps the invariant

  lemma AppendInv(h: History, drawn: Token, sid: SessionId, t: Token, next: Token)
    requires HistoryInv(h, drawn) && drawn <= t < next
    ensures HistoryInv(h.Append(sid, t), next)
  {
    var h' := h.Append(sid, t);
    forall id <- h'.chains, i | 0 <= i < |h'.chains[id]|
      ensures h'.chains[id][i] in h'.place && h'.place[h'.chains[id][i]] == (id, i)
    {
      if id in h.chains && i < |h.chains[id]| {
        assert h'.chains[id][i] == h.chains[id][i];
      }
    }
  }

  /** Appending to a chain supersedes its last token and no other. */
  lemma AppendSupersedes(h: History, drawn: Token, sid: SessionId, t: Token, u: Token)
    requires HistoryInv(h, drawn) && t >= drawn
    ensures Superseded(h.Append(sid, t), u) <==> Superseded(h, u) || (sid in h.chains && u == Last(h.chains[sid]))
    ensures sid in h.chains ==> !Superseded(h, Last(h.chains[sid]))
  {
    if sid in h.chains {
      var n := |h.chains[sid]|;
      assert h.chains[sid][n - 1] in h.place && h.place[h.chains[sid][n - 1]] == (sid, n - 1);
    }
  }

  lemma SpentAfter(h: History, drawn: Token, spent: seq<Token>, sid: SessionId, t: Token)
    requires HistoryInv(h, drawn) && SpentInv(h, spent) && t >= drawn
    ensures SpentInv(h.Append(sid, t), if sid in h.chains then spent + [Last(h.chains[sid])] else spent)
  {
    var spent' := if sid in h.chains then spent + [Last(h.chains[sid])] else spent;
    forall u: Token
      ensures u in spent' <==> Superseded(h.Append(sid, t), u)
    {
      AppendSupersedes(h, drawn, sid, t, u);
    }
    AppendSupersedes(h, drawn, sid, t, t);
    if sid in h.chains { assert Last(h.chains[sid]) !in spent; }
  }

  lemma TokensAfter(s: Sys, t: Sys, sid: SessionId)
    requires TokensInv(s) && t.drawn == s.drawn + 2
    requires t.refreshes == s.refreshes.Append(sid, s.drawn + 1) && t.accesses == s.accesses.Append(sid, s.drawn)
    requires t.spent == if sid in s.refreshes.chains then s.spent + [Last(s.refreshes.chains[sid])] else s.spent
    ensures TokensInv(t)
  {
    AppendInv(s.refreshes, s.drawn, sid, s.drawn + 1, t.drawn);
    AppendInv(s.accesses, s.drawn, sid, s.drawn, t.drawn);
    SpentAfter(s.refreshes, s.drawn, s.spent, sid, s.drawn + 1);
  }

  lemma NextTokens(s: Sys, step: Step)
    requires TokensInv(s) && RowsInv(s)
    ensures TokensInv(Next(s, step))
  {
    if Enabled(s, step) {
      match step
      case Issue(sid, _, _, _, _) => TokensAfter(s, Next(s, step), sid);
      case Swap(c, ta, tr) =>
        var sid := s.calls[c].sid;
        if CanRotate(s.rows, sid, s.calls[c].token) {
          assert RowInv(s.rows[sid], s.refreshes.Of(sid), s.accesses.Of(sid));
          TokensAfter(s, Next(s, step), sid);
        }
      case _ =>
    }
  }

  lemma NextRows(s: Sys, step: Step)
    requires RowsInv(s)
    ensures RowsInv(Next(s, step))
  {
  }

  /** A revoked or deleted session never becomes live again. */
  lemma DeadStays(s: Sys, step: Step, sid: SessionId)
    requires sid in s.refreshes.chains && Dead(s, sid)
    ensures Dead(Next(s, step), sid)
  {
  }

  lemma KnownStays(s: Sys, step: Step, sid: SessionId, t: Token)
    ensures sid in s.refreshes.chains ==> sid in Next(s, step).refreshes.chains
    ensures s.refreshes.Of(sid) <= Next(s, step).refreshes.Of(sid)
    ensures HistoryInv(s.refreshes, s.drawn) && t in s.refreshes.place ==>
              t in Next(s, step).refreshes.place && Next(s, step).refreshes.place[t] == s.refreshes.place[t]
  {
  }

  lemma CallStays(s: Sys, step: Step, call: Call)
    requires TokensInv(s) && CallInv(s, call)
    ensures CallInv(Next(s, step), call)
  {
    match call
    case Found(sid, t) => KnownStays(s, step, sid, t);
    case Lost(sid) => KnownStays(s, step, sid, 0);
    case Replayed(sid) => KnownStays(s, step, sid, 0);
    case Reused(sid) => KnownStays(s, step, sid, 0); DeadStays(s, step, sid);
    case _ =>
  }

  /** The new position of the call a step is about. */
  lemma CallMoves(s: Sys, step: Step, c: CallId)
    requires TokensInv(s) && RowsInv(s) && CallsInv(s)
    requires c in Next(s, step).calls && !(c in s.calls && Next(s, step).calls[c] == s.calls[c])
    ensures CallInv(Next(s, step), Next(s, step).calls[c])
  {
    var t := Next(s, step);
    match step
    case Lookup(_, token) =>
      if t.calls[c].Found? {
        var sid := t.calls[c].sid;
        assert RowInv(s.rows[sid], s.refreshes.Of(sid), s.accesses.Of(sid));
        var n := |s.refreshes.chains[sid]|;
        assert s.refreshes.chains[sid][n - 1] == token;
      }
    case LookupPrev(_) =>
      if t.calls[c].Replayed? {
        assert RowInv(s.rows[t.calls[c].sid], s.refreshes.Of(t.calls[c].sid), s.accesses.Of(t.calls[c].sid));
      }
    case Swap(_, _, _) => assert CallInv(s, s.calls[c]);
    case RevokeReused(_) => assert CallInv(s, s.calls[c]);
    case _ =>
  }

  lemma NextCalls(s: Sys, step: Step)
    requires TokensInv(s) && RowsInv(s) && CallsInv(s)
    ensures CallsInv(Next(s, step))
  {
    var t := Next(s, step);
    forall c <- t.calls ensures CallInv(t, t.calls[c]) {
      if c in s.calls && t.calls[c] == s.calls[c] {
        CallStays(s, step, s.calls[c]);
      } else {
        CallMoves(s, step, c);
      }
    }
  }

  lemma NextInv(s: Sys, step: Step)
    requires Inv(s)
    ensures Inv(Next(s, step))
  {
    NextTokens(s, step);
    NextRows(s, step);
    NextCalls(s, step);
  }
}
