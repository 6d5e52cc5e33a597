/**
  The launcher's supervisor (server/internal/launcher/supervise.go).

  What the outside world does is a script of rounds: whether a start fails, how long the child runs and how
  that ends, and whether a sleep is cut short by cancellation. Times are nanoseconds.
*/
module Supervisor {
  import opened Arithmetic
  import opened Prelude

  datatype Config = Config(minBackoff: int, maxBackoff: int, stableRun: int, windows: bool)

  /** Doubling a cap below this bound does not overflow 64 bits. */
  const HALF_INT64: int := 0x4000_0000_0000_0000

  ghost predicate Sensible(cfg: Config) { 0 < cfg.minBackoff <= cfg.maxBackoff < HALF_INT64 }

  /** How the wait for a started child ends. */
  datatype Ending = Cancelled(graceful: bool) | ExitWhileCancelled | CleanExit | Crash

  datatype Round = Round(startFails: bool, took: nat, end: Ending, sleepCut: bool, late: nat)

  datatype Event = Attempt(at: int) | Spawned | Interrupted | Killed | Reaped | Stable | Slept(d: int)

  datatype Return = Nil | ContextError

  datatype Sup = Sup(backoff: int, log: seq<Event>, now: int, result: Option<Return>)

  function NextBackoff(cur: int, ceil: int): int {
    var next := Wrapped(cur * 2);
    if next > ceil then ceil else next
  }

  function StopEvents(cfg: Config, graceful: bool): seq<Event> {
    if cfg.windows then [Killed, Reaped]
    else if graceful then [Interrupted, Reaped]
    else [Interrupted, Killed, Reaped]
  }

  /** Sleep, then go round again with the next backoff, unless the sleep was cut short. */
  function Rest(cfg: Config, s: Sup, r: Round): Sup {
    if r.sleepCut then s.(log := s.log + [Slept(s.backoff)], result := Some(ContextError))
    else Sup(NextBackoff(s.backoff, cfg.maxBackoff), s.log + [Slept(s.backoff)], s.now + s.backoff + r.late, None)
  }

  function Play(cfg: Config, s: Sup, r: Round): Sup {
    if s.result.Some? then s
    else if r.startFails then Rest(cfg, s.(log := s.log + [Attempt(s.now)]), r)
    else
      var log, later := s.log + [Attempt(s.now), Spawned], s.now + r.took;
      match r.end
      case Cancelled(graceful) => Sup(s.backoff, log + StopEvents(cfg, graceful), later, Some(ContextError))
      case ExitWhileCancelled => Sup(s.backoff, log + [Reaped], later, Some(ContextError))
      case CleanExit => Sup(s.backoff, log + [Reaped], later, Some(Nil))
      case Crash =>
        if r.took >= cfg.stableRun then Rest(cfg, Sup(cfg.minBackoff, log + [Reaped, Stable], later, None), r)
        else Rest(cfg, Sup(s.backoff, log + [Reaped], later, None), r)
  }

  function Start(cfg: Config): Sup { Sup(cfg.minBackoff, [], 0, None) }

  function Exec(cfg: Config, rounds: seq<Round>): Sup {
    if rounds == [] then Start(cfg) else Play(cfg, Exec(cfg, rounds[..|rounds| - 1]), Last(rounds))
  }

  lemma {:induction false} ReturnedForGood(cfg: Config, rounds: seq<Round>, k: nat)
    requires k <= |rounds| && Exec(cfg, rounds[..k]).result.Some?
    ensures Exec(cfg, rounds) == Exec(cfg, rounds[..k])
  {
    if k < |rounds| {
      assert rounds[..|rounds| - 1][..k] == rounds[..k];
      ReturnedForGood(cfg, rounds[..|rounds| - 1], k);
    } else {
      assert rounds[..k] == rounds;
    }
  }

  class Process {
    const cfg: Config
    var log: seq<Event>
    var now: int

    constructor (cfg: Config)
      ensures this.cfg == cfg && log == [] && now == 0
    {
      this.cfg := cfg;
      log, now := [], 0;
    }

    /** Interrupt, a hard kill if the grace runs out, and one drain of the wait channel. */
    method Stop(graceful: bool)
      modifies this`log
      ensures log == old(log) + StopEvents(cfg, graceful)
    {
      if cfg.windows {
        log := log + [Killed];
        log := log + [Reaped];
        return;
      }
      log := log + [Interrupted];
      if !graceful { log := log + [Killed]; }
      log := log + [Reaped];
    }

    method SleepCtx(d: int, cut: bool, late: nat) returns (ok: bool)
      modifies this`log, this`now
      ensures log == old(log) + [Slept(d)] && ok == !cut
      ensures now == if cut then old(now) else old(now) + d + late
    {
      log := log + [Slept(d)];
      if cut { return false; }
      now := now + d + late;
      return true;
    }

    /** The end of a round that did not return: sleep and double the backoff. */
    method BackOff(backoff: int, round: Round) returns (next: int, r: Option<Return>)
      modifies this`log, this`now
      ensures Sup(next, log, now, r) == Rest(cfg, Sup(backoff, old(log), old(now), None), round)
    {
      var ok := SleepCtx(backoff, round.sleepCut, round.late);
      if !ok { return backoff, Some(ContextError); }
      return NextBackoff(backoff, cfg.maxBackoff), None;
    }

    /** Start a child and see it to its end. */
    method OneRound(backoff: int, round: Round) returns (next: int, r: Option<Return>)
      modifies this`log, this`now
      ensures Sup(next, log, now, r) == Play(cfg, Sup(backoff, old(log), old(now), None), round)
    {
      next := backoff;
      log := log + [Attempt(now)];
      if round.startFails {
        next, r := BackOff(next, round);
        return;
      }
      log := log + [Spawned];
      now := now + round.took;
      assert log == old(log) + [Attempt(old(now)), Spawned];
      match round.end
      case Cancelled(graceful) =>
        Stop(graceful);
        r := Some(ContextError);
      case ExitWhileCancelled =>
        log := log + [Reaped];
        r := Some(ContextError);
      case CleanExit =>
        log := log + [Reaped];
        r := Some(Nil);
      case Crash =>
        ghost var begun := log;
        log := log + [Reaped];
        if round.took >= cfg.stableRun {
          next := cfg.minBackoff;
          log := log + [Stable];
          assert log == begun + [Reaped, Stable];
        }
        next, r := BackOff(next, round);
    }

    /** Returns what the loop returned within the script, or None if it is still going. */
    method Run(script: seq<Round>) returns (r: Option<Return>)
      requires log == [] && now == 0
      modifies this`log, this`now
      ensures log == Exec(cfg, script).log && now == Exec(cfg, script).now && r == Exec(cfg, script).result
    {
      var backoff := cfg.minBackoff;
      r := None;
      for i := 0 to |script|
        invariant Exec(cfg, script[..i]) == Sup(backoff, log, now, None)
      {
        assert script[..i + 1][..i] == script[..i];
        backoff, r := OneRound(backoff, script[i]);
        if r.Some? {
          ReturnedForGood(cfg, script, i + 1);
          return;
        }
      }
      assert script[..|script|] == script;
      r := None;
    }
  }
}
