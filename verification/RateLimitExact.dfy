/** Exactly which events the limiter lets through: the throughput bound is the only reason to refuse one. */
module RateLimitExact {
  import opened Prelude
  import opened RateLimit
  import opened RateLimitBounds

  function Gain(cfg: Config, from: Time, to: Time): real { cfg.rate * (to - from) as real }

  /** What a key may have let through from time `from` to time `to`. */
  function Budget(cfg: Config, from: Time, to: Time): real { cfg.burst as real + Gain(cfg, from, to) }

  /** Another event of the key at `now` would stay within the budget of the window that begins at operation i. */
  predicate Fits(cfg: Config, ops: seq<Op>, answers: seq<bool>, key: Name, i: nat, n: nat, now: Time)
    requires i < n <= |ops| == |answers|
  {
    Allowed(ops, answers, key, i, n) as real + 1.0 <= Budget(cfg, ops[i].now, now)
  }

  lemma GrowsExactly(cfg: Config, m: Buckets, key: Name, t: Time, u: Time)
    requires cfg.rate >= 0.0 && t <= u && AllSound(cfg, m, t)
    ensures Tokens(cfg, m, key, u) == Min(cfg.burst as real, Tokens(cfg, m, key, t) + Gain(cfg, t, u))
  {
    RefillIs(cfg.rate, t, u);
    if key in m {
      assert Sound(cfg, m[key], t);
      RefillAdds(cfg.rate, m[key].last, t, u);
    } else {
      RefillAdds(cfg.rate, t, t, u);
    }
  }

  lemma SoundBefore(cfg: Config, ops: seq<Op>, n: nat, t: Time)
    requires cfg.rate >= 0.0 && InOrder(ops) && n <= |ops| && (n > 0 ==> ops[n - 1].now <= t)
    ensures n > 0 ==> AllSound(cfg, Exec(cfg, ops[..n], false), ops[n - 1].now)
  {
    if n > 0 { BucketsSound(cfg, ops[..n]); }
  }

  lemma GainsAdd(cfg: Config, a: Time, b: Time, c: Time)
    ensures Gain(cfg, a, c) == Gain(cfg, a, b) + Gain(cfg, b, c)
  {
    assert (c - a) as real == (b - a) as real + (c - b) as real;
  }

  lemma PaidInGains(cfg: Config, ops: seq<Op>, answers: seq<bool>, key: Name, i: nat, n: nat)
    requires cfg.rate >= 0.0 && InOrder(ops) && answers == Answers(cfg, ops, false) && i < n <= |ops| == |answers|
    ensures Tokens(cfg, Exec(cfg, ops[..n], false), key, ops[n - 1].now)
         <= cfg.burst as real + Gain(cfg, ops[i].now, ops[n - 1].now) - Allowed(ops, answers, key, i, n) as real
  {
    var tokens := Tokens(cfg, Exec(cfg, ops[..n], false), key, ops[n - 1].now);
    PaidFor(cfg, ops, answers, key, i, n);
    RefillIsGain(cfg, ops[i].now, ops[n - 1].now);
    Paid(Allowed(ops, answers, key, i, n) as real, tokens, cfg.burst as real, Refill(cfg.rate, ops[i].now, ops[n - 1].now),
         Gain(cfg, ops[i].now, ops[n - 1].now));
  }

  lemma RefillIsGain(cfg: Config, from: Time, to: Time)
    requires from <= to
    ensures Refill(cfg.rate, from, to) == Gain(cfg, from, to)
  {
    RefillIs(cfg.rate, from, to);
  }

  lemma Paid(allowed: real, tokens: real, burst: real, refill: real, gain: real)
    requires allowed + tokens <= burst + refill && refill == gain
    ensures tokens <= burst + gain - allowed
  {
  }

  lemma Later(tokens: real, burst: real, early: real, late: real, whole: real, allowed: real)
    requires tokens <= burst + early - allowed && whole == early + late
    ensures Min(burst, tokens + late) <= burst + whole - allowed
  {
  }

  lemma TokensWithin(cfg: Config, ops: seq<Op>, answers: seq<bool>, key: Name, i: nat, n: nat, t: Time)
    requires cfg.rate >= 0.0 && InOrder(ops) && answers == Answers(cfg, ops, false)
    requires i < n <= |ops| == |answers| && ops[n - 1].now <= t
    ensures Tokens(cfg, Exec(cfg, ops[..n], false), key, t) <= Budget(cfg, ops[i].now, t) - Allowed(ops, answers, key, i, n) as real
  {
    var u, m := ops[n - 1].now, Exec(cfg, ops[..n], false);
    PaidInGains(cfg, ops, answers, key, i, n);
    SoundBefore(cfg, ops, n, t);
    GrowsExactly(cfg, m, key, u, t);
    GainsAdd(cfg, ops[i].now, u, t);
    Later(Tokens(cfg, m, key, u), cfg.burst as real, Gain(cfg, ops[i].now, u), Gain(cfg, u, t), Gain(cfg, ops[i].now, t),
          Allowed(ops, answers, key, i, n) as real);
  }

  function Left(cfg: Config, ops: seq<Op>, answers: seq<bool>, key: Name, i: nat, n: nat, t: Time): real
    requires i < n <= |ops| == |answers|
  {
    Budget(cfg, ops[i].now, t) - Allowed(ops, answers, key, i, n) as real
  }

  /** The tokens are those of a full bucket, or what some window's budget has left. */
  ghost predicate FullOrLeft(cfg: Config, ops: seq<Op>, answers: seq<bool>, key: Name, n: nat, t: Time)
    requires n <= |ops| == |answers|
  {
    var tokens := Tokens(cfg, Exec(cfg, ops[..n], false), key, t);
    tokens == cfg.burst as real || exists i: nat | i < n :: tokens == Left(cfg, ops, answers, key, i, n, t)
  }

  lemma {:induction false} TokensAreLeft(cfg: Config, ops: seq<Op>, answers: seq<bool>, key: Name, n: nat, t: Time)
    requires cfg.rate >= 0.0 && InOrder(ops) && answers == Answers(cfg, ops, false)
    requires n <= |ops| == |answers| && (n > 0 ==> ops[n - 1].now <= t)
    ensures FullOrLeft(cfg, ops, answers, key, n, t)
  {
    if n > 0 {
      var u := ops[n - 1].now;
      TokensAreLeft(cfg, ops, answers, key, n - 1, u);
      OneOpLater(cfg, ops, answers, key, n, t);
    }
  }

  lemma OneOpLater(cfg: Config, ops: seq<Op>, answers: seq<bool>, key: Name, n: nat, t: Time)
    requires cfg.rate >= 0.0 && InOrder(ops) && answers == Answers(cfg, ops, false)
    requires 0 < n <= |ops| == |answers| && ops[n - 1].now <= t
    requires FullOrLeft(cfg, ops, answers, key, n - 1, ops[n - 1].now)
    ensures FullOrLeft(cfg, ops, answers, key, n, t)
  {
    var u, m := ops[n - 1].now, Exec(cfg, ops[..n - 1], false);
    var before := Tokens(cfg, m, key, u);
    var g := if Granted(cfg, m, ops[n - 1], key) then 1 else 0;
    OpPays(cfg, m, ops[n - 1], key);
    AllowedLast(cfg, ops, answers, key, n - 1, n);
    SoundBefore(cfg, ops, n, t);
    GrowsExactly(cfg, Exec(cfg, ops[..n], false), key, u, t);
    if before == cfg.burst as real {
      FromFull(cfg, ops, answers, key, n, t, g);
    } else {
      var i: nat :| i < n - 1 && before == Left(cfg, ops, answers, key, i, n - 1, u);
      AllowedLast(cfg, ops, answers, key, i, n);
      FromLeft(cfg, ops, answers, key, i, n, t, g);
    }
  }

  lemma FromFull(cfg: Config, ops: seq<Op>, answers: seq<bool>, key: Name, n: nat, t: Time, g: nat)
    requires cfg.rate >= 0.0 && 0 < n <= |ops| == |answers| && ops[n - 1].now <= t && g <= 1
    requires Allowed(ops, answers, key, n - 1, n) == g
    requires Tokens(cfg, Exec(cfg, ops[..n], false), key, t)
          == Min(cfg.burst as real, cfg.burst as real - g as real + Gain(cfg, ops[n - 1].now, t))
    ensures FullOrLeft(cfg, ops, answers, key, n, t)
  {
    var tokens := Tokens(cfg, Exec(cfg, ops[..n], false), key, t);
    if tokens != cfg.burst as real { assert tokens == Left(cfg, ops, answers, key, n - 1, n, t); }
  }

  lemma FromLeft(cfg: Config, ops: seq<Op>, answers: seq<bool>, key: Name, i: nat, n: nat, t: Time, g: nat)
    requires i < n - 1 < |ops| == |answers| && Allowed(ops, answers, key, i, n) == Allowed(ops, answers, key, i, n - 1) + g
    requires Tokens(cfg, Exec(cfg, ops[..n], false), key, t)
          == Min(cfg.burst as real, Left(cfg, ops, answers, key, i, n - 1, ops[n - 1].now) - g as real + Gain(cfg, ops[n - 1].now, t))
    ensures FullOrLeft(cfg, ops, answers, key, n, t)
  {
    GainsAdd(cfg, ops[i].now, ops[n - 1].now, t);
    var tokens := Tokens(cfg, Exec(cfg, ops[..n], false), key, t);
    if tokens != cfg.burst as real { assert tokens == Left(cfg, ops, answers, key, i, n, t); }
  }

  /**
    Event n of a run without a janitor is let through exactly when the burst allows any event at all and no
    window from an earlier operation up to this one would go over its budget: the burst, and what the rate
    gives meanwhile.
  */
  lemma GrantedExactly(cfg: Config, ops: seq<Op>, answers: seq<bool>, n: nat)
    requires cfg.rate >= 0.0 && InOrder(ops) && answers == Answers(cfg, ops, false)
    requires n < |ops| == |answers| && ops[n].AllowOp?
    ensures answers[n] <==> cfg.burst >= 1 && forall i: nat | i < n :: Fits(cfg, ops, answers, ops[n].key, i, n, ops[n].now)
  {
    var key, now := ops[n].key, ops[n].now;
    AnswersAt(cfg, ops, n + 1, false);
    assert ops[..n + 1][..n] == ops[..n];
    assert n > 0 ==> ops[n - 1].now <= ops[n].now;
    TokensAreLeft(cfg, ops, answers, key, n, now);
    forall i: nat | i < n
      ensures Tokens(cfg, Exec(cfg, ops[..n], false), key, now) <= Left(cfg, ops, answers, key, i, n, now)
    {
      TokensWithin(cfg, ops, answers, key, i, n, now);
    }
    assert answers[n] <==> cfg.burst >= 1 && Tokens(cfg, Exec(cfg, ops[..n], false), key, now) >= 1.0;
    if cfg.burst >= 1 { TokensDecide(cfg, ops, answers, n, Tokens(cfg, Exec(cfg, ops[..n], false), key, now)); }
  }

  lemma TokensDecide(cfg: Config, ops: seq<Op>, answers: seq<bool>, n: nat, tokens: real)
    requires n < |ops| == |answers| && ops[n].AllowOp? && cfg.burst >= 1
    requires tokens == cfg.burst as real || exists i: nat | i < n :: tokens == Left(cfg, ops, answers, ops[n].key, i, n, ops[n].now)
    requires forall i: nat | i < n :: tokens <= Left(cfg, ops, answers, ops[n].key, i, n, ops[n].now)
    ensures tokens >= 1.0 <==> forall i: nat | i < n :: Fits(cfg, ops, answers, ops[n].key, i, n, ops[n].now)
  {
    forall i: nat | i < n
      ensures Fits(cfg, ops, answers, ops[n].key, i, n, ops[n].now) <==> Left(cfg, ops, answers, ops[n].key, i, n, ops[n].now) >= 1.0
    {
    }
  }

  /** The limiters of the server, with their janitors, let through exactly what the budget allows. */
  lemma AllowedExactly(cfg: Config, ops: seq<Op>, answers: seq<bool>, n: nat)
    requires Sensible(cfg) && cfg.rate * (cfg.ttl + 1) as real >= cfg.burst as real && InOrder(ops)
    requires answers == Answers(cfg, ops, true) && n < |ops| == |answers| && ops[n].AllowOp?
    ensures answers[n] <==> cfg.burst >= 1 && forall i: nat | i < n :: Fits(cfg, ops, answers, ops[n].key, i, n, ops[n].now)
  {
    UnevictedAnswers(cfg, ops);
    GrantedExactly(cfg, ops, answers, n);
  }

  // ---------------------------------------------------------------- the server's limiters

  lemma {:induction false} NeverAsked(cfg: Config, ops: seq<Op>, key: Name, janitor: bool)
    requires forall op <- ops :: !(op.AllowOp? && op.key == key)
    ensures key !in Exec(cfg, ops, janitor)
  {
    if ops != [] {
      NeverAsked(cfg, ops[..|ops| - 1], key, janitor);
      assert Last(ops) in ops;
    }
  }

  /** Of the events at one instant of a key not seen before, exactly the first `burst` pass. */
  lemma FreshBurst(cfg: Config, ops: seq<Op>, key: Name, now: Time, k: nat, janitor: bool)
    requires k <= cfg.burst && forall op <- ops :: !(op.AllowOp? && op.key == key)
    ensures Answer(cfg, ops + Burst(key, now, k + 1), janitor) <==> k < cfg.burst
  {
    var m := Exec(cfg, ops, janitor);
    NeverAsked(cfg, ops, key, janitor);
    ExecBurst(cfg, ops, key, now, k + 1, janitor);
    BurstSpends(cfg, m, key, now, k);
  }

  /** So a limiter of n per minute, or per hour, lets n events of a new key through at once and not one more. */
  lemma ServerBursts(n: nat, ops: seq<Op>, key: Name, now: Time, k: nat)
    requires k <= n && forall op <- ops :: !(op.AllowOp? && op.key == key)
    ensures Answer(PerMinute(n, 10 * MINUTE), ops + Burst(key, now, k + 1), true) <==> k < n
    ensures Answer(PerHour(n, 2 * HOUR), ops + Burst(key, now, k + 1), true) <==> k < n
  {
    FreshBurst(PerMinute(n, 10 * MINUTE), ops, key, now, k, true);
    FreshBurst(PerHour(n, 2 * HOUR), ops, key, now, k, true);
  }

  /** A limiter of n per hour lets at most 2n events of one key through in any hour. */
  lemma AtMostTwiceAnHour(n: nat, ops: seq<Op>, answers: seq<bool>, key: Name, i: nat, j: nat)
    requires InOrder(ops) && answers == Answers(PerHour(n, 2 * HOUR), ops, true) && i < j <= |ops| == |answers|
    requires ops[j - 1].now - ops[i].now <= 3_600_000_000_000
    ensures Allowed(ops, answers, key, i, j) <= 2 * n
  {
    ThroughputBound(PerHour(n, 2 * HOUR), ops, answers, key, i, j);
    PartOfAnHour(n, ops[j - 1].now - ops[i].now);
  }

  lemma PartOfAnHour(n: nat, t: int)
    requires t <= HOUR
    ensures n as real / HOUR as real * t as real <= n as real
  {
    var r := n as real / HOUR as real;
    assert r >= 0.0 && r * HOUR as real == n as real;
    assert r * t as real <= r * HOUR as real;
  }
}
