/** What every run of the supervisor keeps. */
module SupervisorRuns {
  import opened Arithmetic
  import opened Prelude
  import opened Supervisor

  /** What an observer of the log knows: children alive, whether all was in order, delays since the last reset, attempts. */
  datatype Watch = Watch(alive: int, orderly: bool, delays: seq<int>, attempts: seq<int>)

  /**
    In order: a child is spawned, a reset noted, an attempt made or a sleep begun only when no child is
    alive; a child is signalled or reaped only when one is.
  */
  function See(w: Watch, e: Event): Watch {
    match e
    case Attempt(at) => w.(orderly := w.orderly && w.alive == 0, attempts := w.attempts + [at])
    case Spawned => w.(orderly := w.orderly && w.alive == 0, alive := w.alive + 1)
    case Interrupted => w.(orderly := w.orderly && w.alive == 1)
    case Killed => w.(orderly := w.orderly && w.alive == 1)
    case Reaped => w.(orderly := w.orderly && w.alive == 1, alive := w.alive - 1)
    case Stable => w.(orderly := w.orderly && w.alive == 0, delays := [])
    case Slept(d) => w.(orderly := w.orderly && w.alive == 0, delays := w.delays + [d])
  }

  function Seen(log: seq<Event>): Watch {
    if log == [] then Watch(0, true, [], []) else See(Seen(log[..|log| - 1]), Last(log))
  }

  function SeeAll(w: Watch, es: seq<Event>): Watch
    decreases |es|
  {
    if es == [] then w else SeeAll(See(w, es[0]), es[1..])
  }

  lemma {:induction false} SeenMore(log: seq<Event>, es: seq<Event>)
    ensures Seen(log + es) == SeeAll(Seen(log), es)
    decreases |es|
  {
    if es == [] {
      assert log + es == log;
    } else {
      assert (log + [es[0]])[..|log|] == log;
      SeenMore(log + [es[0]], es[1..]);
      assert log + [es[0]] + es[1..] == log + es;
    }
  }

  // ---------------------------------------------------------------- delays

  /** The j-th delay since a reset. */
  function Delay(cfg: Config, j: nat): int { Min(cfg.minBackoff * Pow2(j), cfg.maxBackoff) }

  lemma DelayBounds(cfg: Config, j: nat)
    requires Sensible(cfg)
    ensures cfg.minBackoff <= Delay(cfg, j) <= cfg.maxBackoff
  {
    assert cfg.minBackoff * Pow2(j) >= cfg.minBackoff * 1;
  }

  lemma NextDelay(cfg: Config, j: nat)
    requires Sensible(cfg)
    ensures NextBackoff(Delay(cfg, j), cfg.maxBackoff) == Delay(cfg, j + 1)
  {
    DelayBounds(cfg, j);
    assert cfg.minBackoff * Pow2(j + 1) == 2 * (cfg.minBackoff * Pow2(j));
  }

  predicate DelaysAre(cfg: Config, delays: seq<int>) { forall j | 0 <= j < |delays| :: delays[j] == Delay(cfg, j) }

  /** Attempts i and j are at least j - i least delays apart. */
  predicate Spaced(cfg: Config, times: seq<int>) {
    forall i, j | 0 <= i <= j < |times| :: times[j] - times[i] >= (j - i) * cfg.minBackoff
  }

  lemma SpacedMore(cfg: Config, times: seq<int>, t: int)
    requires Spaced(cfg, times) && (times != [] ==> t >= Last(times) + cfg.minBackoff)
    ensures Spaced(cfg, times + [t])
  {
    forall i | 0 <= i < |times| ensures t - times[i] >= (|times| - i) * cfg.minBackoff {
      assert Last(times) - times[i] >= (|times| - 1 - i) * cfg.minBackoff;
      assert (|times| - i) * cfg.minBackoff == (|times| - 1 - i) * cfg.minBackoff + cfg.minBackoff;
    }
  }

  // ---------------------------------------------------------------- the invariant

  predicate Good(cfg: Config, s: Sup, w: Watch) {
    && w.orderly && w.alive == 0
    && DelaysAre(cfg, w.delays) && Spaced(cfg, w.attempts)
    && (s.result.None? ==> s.backoff == Delay(cfg, |w.delays|) && (w.attempts != [] ==> s.now >= Last(w.attempts) + cfg.minBackoff))
  }

  lemma RestIsGood(cfg: Config, s: Sup, w: Watch, r: Round)
    requires Sensible(cfg) && w.orderly && w.alive == 0 && DelaysAre(cfg, w.delays) && Spaced(cfg, w.attempts)
    requires s.result.None? && s.backoff == Delay(cfg, |w.delays|) && (w.attempts != [] ==> s.now >= Last(w.attempts))
    ensures Good(cfg, Rest(cfg, s, r), See(w, Slept(s.backoff)))
  {
    DelayBounds(cfg, |w.delays|);
    NextDelay(cfg, |w.delays|);
  }

  /** The events of one round that come before a sleep, if it gets to one. */
  function Awake(cfg: Config, s: Sup, r: Round): seq<Event> {
    if r.startFails then [Attempt(s.now)] else
    [Attempt(s.now), Spawned]
      + match r.end
        case Cancelled(graceful) => StopEvents(cfg, graceful)
        case ExitWhileCancelled => [Reaped]
        case CleanExit => [Reaped]
        case Crash => if r.took >= cfg.stableRun then [Reaped, Stable] else [Reaped]
  }

  predicate Sleeps(r: Round) { r.startFails || r.end.Crash? }

  predicate Resets(cfg: Config, r: Round) { !r.startFails && r.end.Crash? && r.took >= cfg.stableRun }

  lemma PlayIs(cfg: Config, s: Sup, r: Round) returns (m: Sup)
    requires s.result.None?
    ensures m.log == s.log + Awake(cfg, s, r) && m.result.None?
    ensures m.now >= s.now && m.backoff == if Resets(cfg, r) then cfg.minBackoff else s.backoff
    ensures Sleeps(r) ==> Play(cfg, s, r) == Rest(cfg, m, r)
    ensures !Sleeps(r) ==> Play(cfg, s, r).log == m.log && Play(cfg, s, r).result.Some?
  {
    m := Sup(if Resets(cfg, r) then cfg.minBackoff else s.backoff, s.log + Awake(cfg, s, r),
             if r.startFails then s.now else s.now + r.took, None);
    var log := s.log + [Attempt(s.now), Spawned];
    if !r.startFails { assert m.log == log + Awake(cfg, s, r)[2..]; }
  }

  /** One round of events leaves no child behind and adds one attempt. */
  lemma AwakeIsOrderly(cfg: Config, s: Sup, w: Watch, r: Round)
    requires w.orderly && w.alive == 0
    ensures SeeAll(w, Awake(cfg, s, r)) == Watch(0, true, if Resets(cfg, r) then [] else w.delays, w.attempts + [s.now])
  {
    var es := Awake(cfg, s, r);
    if !r.startFails {
      var u := See(See(w, Attempt(s.now)), Spawned);
      assert es[1..][0] == Spawned && es[1..][1..] == es[2..];
      assert SeeAll(w, es) == SeeAll(u, es[2..]);
      if r.end.Cancelled? {
        StopIsOrderly(cfg, u, r.end.graceful);
        assert es[2..] == StopEvents(cfg, r.end.graceful);
      } else if Resets(cfg, r) {
        assert es[2..] == [Reaped, Stable];
        TwoEvents(u, Reaped, Stable);
      } else {
        assert es[2..] == [Reaped];
        OneEvent(u, Reaped);
      }
    } else {
      OneEvent(w, Attempt(s.now));
    }
  }

  lemma OneEvent(w: Watch, e: Event)
    ensures SeeAll(w, [e]) == See(w, e)
  {
    assert [e][1..] == [];
  }

  lemma TwoEvents(w: Watch, e: Event, f: Event)
    ensures SeeAll(w, [e, f]) == See(See(w, e), f)
  {
    assert [e, f][1..] == [f];
    OneEvent(See(w, e), f);
  }

  lemma StopIsOrderly(cfg: Config, w: Watch, graceful: bool)
    requires w.orderly && w.alive == 1
    ensures SeeAll(w, StopEvents(cfg, graceful)) == w.(alive := 0)
  {
    TwoEvents(w, Killed, Reaped);
    TwoEvents(w, Interrupted, Reaped);
    assert [Interrupted, Killed, Reaped][1..] == [Killed, Reaped];
    TwoEvents(See(w, Interrupted), Killed, Reaped);
  }

  lemma PlayIsGood(cfg: Config, s: Sup, r: Round)
    requires Sensible(cfg) && Good(cfg, s, Seen(s.log))
    ensures Good(cfg, Play(cfg, s, r), Seen(Play(cfg, s, r).log))
  {
    if s.result.None? {
      var w := Seen(s.log);
      var m := PlayIs(cfg, s, r);
      SeenMore(s.log, Awake(cfg, s, r));
      AwakeIsOrderly(cfg, s, w, r);
      SpacedMore(cfg, w.attempts, s.now);
      if Sleeps(r) {
        SeenMore(m.log, [Slept(m.backoff)]);
        OneEvent(Seen(m.log), Slept(m.backoff));
        assert cfg.minBackoff == Delay(cfg, 0);
        RestIsGood(cfg, m, Seen(m.log), r);
        assert Rest(cfg, m, r).log == m.log + [Slept(m.backoff)];
      }
    }
  }

  lemma {:induction false} ExecIsGood(cfg: Config, rounds: seq<Round>)
    requires Sensible(cfg)
    ensures Good(cfg, Exec(cfg, rounds), Seen(Exec(cfg, rounds).log))
  {
    if rounds == [] {
      assert Delay(cfg, 0) == cfg.minBackoff;
    } else {
      ExecIsGood(cfg, rounds[..|rounds| - 1]);
      PlayIsGood(cfg, Exec(cfg, rounds[..|rounds| - 1]), Last(rounds));
    }
  }

  // ---------------------------------------------------------------- the promises

  /** What the observer found in order stays in order: every prefix of the log has at most one child alive. */
  lemma {:induction false} OrderlyAllAlong(log: seq<Event>, k: nat)
    requires k <= |log| && Seen(log).orderly
    ensures Seen(log[..k]).orderly && 0 <= Seen(log[..k]).alive <= 1
  {
    if log == [] || k == |log| {
      assert log[..k] == log;
      AliveIsZeroOrOne(log);
    } else {
      OrderlyAllAlong(log[..|log| - 1], k);
      assert log[..|log| - 1][..k] == log[..k];
    }
  }

  lemma {:induction false} AliveIsZeroOrOne(log: seq<Event>)
    requires Seen(log).orderly
    ensures 0 <= Seen(log).alive <= 1
  {
    if log != [] { AliveIsZeroOrOne(log[..|log| - 1]); }
  }

  /**
    At most one child is alive at any moment; every child is reaped before the next attempt, before any
    sleep, and before the loop returns.
  */
  lemma OneChildAtATime(cfg: Config, rounds: seq<Round>, k: nat)
    requires Sensible(cfg) && k <= |Exec(cfg, rounds).log|
    ensures var log := Exec(cfg, rounds).log;
      && 0 <= Seen(log[..k]).alive <= 1 && Seen(log).alive == 0
      && (k < |log| && (log[k].Attempt? || log[k].Slept? || log[k].Spawned?) ==> Seen(log[..k]).alive == 0)
  {
    var log := Exec(cfg, rounds).log;
    ExecIsGood(cfg, rounds);
    OrderlyAllAlong(log, k);
    if k < |log| {
      OrderlyAllAlong(log, k + 1);
      assert log[..k + 1][..k] == log[..k] && Last(log[..k + 1]) == log[k];
    }
  }

  /** The j-th delay since the last reset is the least backoff doubled j times, capped. */
  lemma DelaysDouble(cfg: Config, rounds: seq<Round>, j: nat)
    requires Sensible(cfg) && j < |Seen(Exec(cfg, rounds).log).delays|
    ensures Seen(Exec(cfg, rounds).log).delays[j] == Min(cfg.minBackoff * Pow2(j), cfg.maxBackoff)
  {
    ExecIsGood(cfg, rounds);
  }

  /** From attempt i to attempt j there are at most one plus the elapsed time over the least backoff. */
  lemma AttemptsAreRare(cfg: Config, rounds: seq<Round>, i: nat, j: nat)
    requires Sensible(cfg) && i <= j < |Seen(Exec(cfg, rounds).log).attempts|
    ensures var at := Seen(Exec(cfg, rounds).log).attempts;
      j - i + 1 <= 1 + (at[j] - at[i]) / cfg.minBackoff
  {
    ExecIsGood(cfg, rounds);
    var at := Seen(Exec(cfg, rounds).log).attempts;
    assert at[j] - at[i] >= (j - i) * cfg.minBackoff;
    AtMostQuotient(j - i, at[j] - at[i], cfg.minBackoff);
  }

  /** Round k is played, and its child is started and exits cleanly while nothing is cancelled. */
  predicate CleanAt(cfg: Config, rounds: seq<Round>, k: nat)
    requires k < |rounds|
  {
    Exec(cfg, rounds[..k]).result.None? && !rounds[k].startFails && rounds[k].end == CleanExit
  }

  lemma {:induction false} NilMeansClean(cfg: Config, rounds: seq<Round>) returns (k: nat)
    requires Exec(cfg, rounds).result == Some(Nil)
    ensures k < |rounds| && CleanAt(cfg, rounds, k)
  {
    k := |rounds| - 1;
    if Exec(cfg, rounds[..k]).result.Some? {
      var n := k;
      k := NilMeansClean(cfg, rounds[..n]);
      assert rounds[..n][..k] == rounds[..k];
    }
  }

  lemma CleanMeansNil(cfg: Config, rounds: seq<Round>, k: nat)
    requires k < |rounds| && CleanAt(cfg, rounds, k)
    ensures Exec(cfg, rounds).result == Some(Nil)
  {
    assert rounds[..k + 1][..k] == rounds[..k];
    ReturnedForGood(cfg, rounds, k + 1);
  }

  /** The loop returns nil exactly after a round in which a started child exited cleanly and nothing was cancelled. */
  lemma NilExactlyAfterCleanExit(cfg: Config, rounds: seq<Round>)
    ensures Exec(cfg, rounds).result == Some(Nil) <==> exists k :: 0 <= k < |rounds| && CleanAt(cfg, rounds, k)
  {
    if Exec(cfg, rounds).result == Some(Nil) {
      var k := NilMeansClean(cfg, rounds);
    }
    forall k | 0 <= k < |rounds| && CleanAt(cfg, rounds, k) ensures Exec(cfg, rounds).result == Some(Nil) {
      CleanMeansNil(cfg, rounds, k);
    }
  }

  // ---------------------------------------------------------------- which delay a crash gets

  /** Round i is played and ends in a sleep. */
  predicate SleepsAt(cfg: Config, rounds: seq<Round>, i: nat)
    requires i < |rounds|
  {
    Exec(cfg, rounds[..i]).result.None? && (rounds[i].startFails || rounds[i].end.Crash?)
  }

  /** The last event of round i, if it is a sleep. */
  function SleepOf(cfg: Config, rounds: seq<Round>, i: nat): Option<int>
    requires i < |rounds|
  {
    var log := Exec(cfg, rounds[..i + 1]).log;
    if log != [] && Last(log).Slept? then Some(Last(log).d) else None
  }

  lemma BackoffFollows(cfg: Config, rounds: seq<Round>, i: nat)
    requires i < |rounds| && SleepsAt(cfg, rounds, i)
    ensures i > 0 ==> SleepsAt(cfg, rounds, i - 1)
    ensures SleepOf(cfg, rounds, i)
         == Some(if !rounds[i].startFails && rounds[i].took >= cfg.stableRun then cfg.minBackoff else Exec(cfg, rounds[..i]).backoff)
    ensures i > 0 ==> SleepOf(cfg, rounds, i - 1).Some?
                      && Exec(cfg, rounds[..i]).backoff == NextBackoff(SleepOf(cfg, rounds, i - 1).value, cfg.maxBackoff)
  {
    assert rounds[..i + 1][..i] == rounds[..i];
    if i > 0 {
      assert rounds[..i][..i - 1] == rounds[..i - 1];
      assert Last(rounds[..i]) == rounds[i - 1];
    }
  }

  /**
    The delay of a round that sleeps: the least backoff if it is the first round or its child crashed after
    at least the stable run, and otherwise the delay before it doubled, up to the greatest.
  */
  lemma DelayOfRound(cfg: Config, rounds: seq<Round>, i: nat)
    requires Sensible(cfg) && i < |rounds| && SleepsAt(cfg, rounds, i)
    ensures SleepOf(cfg, rounds, i).Some? && (i > 0 ==> SleepOf(cfg, rounds, i - 1).Some?)
    ensures SleepOf(cfg, rounds, i).value
         == if i == 0 || (!rounds[i].startFails && rounds[i].took >= cfg.stableRun) then cfg.minBackoff
            else Min(2 * SleepOf(cfg, rounds, i - 1).value, cfg.maxBackoff)
  {
    BackoffFollows(cfg, rounds, i);
    if i > 0 {
      SleepIsBounded(cfg, rounds, i - 1);
      Doubled(SleepOf(cfg, rounds, i - 1).value, cfg.maxBackoff);
    } else {
      assert rounds[..0] == [];
    }
  }

  lemma Doubled(d: int, ceil: int)
    requires 0 < d <= ceil < HALF_INT64
    ensures NextBackoff(d, ceil) == Min(2 * d, ceil)
  {
  }

  lemma SleepIsBounded(cfg: Config, rounds: seq<Round>, i: nat)
    requires Sensible(cfg) && i < |rounds| && SleepsAt(cfg, rounds, i)
    ensures SleepOf(cfg, rounds, i).Some? && 0 < SleepOf(cfg, rounds, i).value <= cfg.maxBackoff
  {
    BackoffFollows(cfg, rounds, i);
    ExecIsGood(cfg, rounds[..i]);
    DelayBounds(cfg, |Seen(Exec(cfg, rounds[..i]).log).delays|);
  }
}
