/** When exactly the janitor is invisible, and how many events a key can ever get through. */
module RateLimitBounds {
  import opened Prelude
  import opened RateLimit

  // ---------------------------------------------------------------- a ttl that is too short shows

  function Burst(key: Name, now: Time, n: nat): seq<Op> {
    if n == 0 then [] else Burst(key, now, n - 1) + [AllowOp(key, now)]
  }

  /** A full burst, one cleanup just after the ttl, a full burst again. */
  function Probe(cfg: Config, key: Name): seq<Op>
    requires cfg.burst >= 0
  {
    Burst(key, 0, cfg.burst) + [CleanupOp(cfg.ttl + 1)] + Burst(key, cfg.ttl + 1, cfg.burst)
  }

  lemma BurstOps(key: Name, now: Time, n: nat)
    ensures |Burst(key, now, n)| == n && forall op <- Burst(key, now, n) :: op == AllowOp(key, now)
  {
  }

  lemma ProbeInOrder(cfg: Config, key: Name)
    requires cfg.burst >= 0 && cfg.ttl >= 0
    ensures InOrder(Probe(cfg, key))
  {
    BurstOps(key, 0, cfg.burst);
    BurstOps(key, cfg.ttl + 1, cfg.burst);
    var ops := Probe(cfg, key);
    forall i, j | 0 <= i < j < |ops| ensures ops[i].now <= ops[j].now {
      if i < cfg.burst { assert ops[i] in Burst(key, 0, cfg.burst); }
      else if i > cfg.burst { assert ops[i] in Burst(key, cfg.ttl + 1, cfg.burst); }
      if j < cfg.burst { assert ops[j] in Burst(key, 0, cfg.burst); }
      else if j > cfg.burst { assert ops[j] in Burst(key, cfg.ttl + 1, cfg.burst); }
    }
  }

  // ---------------------------------------------------------------- one bucket at one instant

  /** The tokens `key` would find at time t. */
  function Tokens(cfg: Config, m: Buckets, key: Name, t: Time): real {
    Level(cfg, BucketOf(cfg, m, key, t), t)
  }

  predicate Granted(cfg: Config, m: Buckets, op: Op, key: Name) {
    op.AllowOp? && op.key == key && Permits(cfg, BucketOf(cfg, m, key, op.now), op.now)
  }

  lemma SpendPays(cfg: Config, b: Bucket, now: Time)
    ensures Level(cfg, Spend(cfg, b, now), now) == Level(cfg, b, now) - if Permits(cfg, b, now) then 1.0 else 0.0
  {
  }

  /** What one operation lets through for a key is paid for by that key's tokens, and by nothing else. */
  lemma OpPays(cfg: Config, m: Buckets, op: Op, key: Name)
    ensures Tokens(cfg, Apply(cfg, m, op, false), key, op.now)
         == Tokens(cfg, m, key, op.now) - if Granted(cfg, m, op, key) then 1.0 else 0.0
  {
    if op.AllowOp? { SpendPays(cfg, BucketOf(cfg, m, key, op.now), op.now); }
  }

  lemma Snoc(cfg: Config, ops: seq<Op>, op: Op, janitor: bool)
    ensures Exec(cfg, ops + [op], janitor) == Apply(cfg, Exec(cfg, ops, janitor), op, janitor)
    ensures Answer(cfg, ops + [op], janitor) <==> op.AllowOp? && Granted(cfg, Exec(cfg, ops, janitor), op, op.key)
  {
    assert (ops + [op])[..|ops|] == ops;
  }

  function BurstIn(cfg: Config, m: Buckets, key: Name, now: Time, n: nat): Buckets {
    if n == 0 then m else AllowIn(cfg, BurstIn(cfg, m, key, now, n - 1), key, now)
  }

  lemma {:induction false} ExecBurst(cfg: Config, ops: seq<Op>, key: Name, now: Time, n: nat, janitor: bool)
    ensures Exec(cfg, ops + Burst(key, now, n), janitor) == BurstIn(cfg, Exec(cfg, ops, janitor), key, now, n)
    ensures n > 0 ==> (Answer(cfg, ops + Burst(key, now, n), janitor)
      <==> Granted(cfg, BurstIn(cfg, Exec(cfg, ops, janitor), key, now, n - 1), AllowOp(key, now), key))
  {
    if n == 0 {
      assert ops + Burst(key, now, n) == ops;
    } else {
      ExecBurst(cfg, ops, key, now, n - 1, janitor);
      assert ops + Burst(key, now, n) == (ops + Burst(key, now, n - 1)) + [AllowOp(key, now)];
      Snoc(cfg, ops + Burst(key, now, n - 1), AllowOp(key, now), janitor);
    }
  }

  /** n events at one instant take n tokens, as long as there are that many. */
  lemma {:induction false} BurstSpends(cfg: Config, m: Buckets, key: Name, now: Time, n: nat)
    requires n <= cfg.burst && Tokens(cfg, m, key, now) >= n as real
    ensures Tokens(cfg, BurstIn(cfg, m, key, now, n), key, now) == Tokens(cfg, m, key, now) - n as real
    ensures n > 0 ==> Granted(cfg, BurstIn(cfg, m, key, now, n - 1), AllowOp(key, now), key)
    ensures n > 0 ==> key in BurstIn(cfg, m, key, now, n) && BurstIn(cfg, m, key, now, n)[key].last == now
                      && BurstIn(cfg, m, key, now, n)[key].lastSeen == now
  {
    if n > 0 {
      BurstSpends(cfg, m, key, now, n - 1);
      OpPays(cfg, BurstIn(cfg, m, key, now, n - 1), AllowOp(key, now), key);
    }
  }

  /** With fewer than n tokens at one instant, k events leave fewer than n - k, or less than one. */
  lemma {:induction false} BurstLow(cfg: Config, m: Buckets, key: Name, now: Time, n: nat, k: nat)
    requires 1 <= cfg.burst && Tokens(cfg, m, key, now) < n as real
    ensures Tokens(cfg, BurstIn(cfg, m, key, now, k), key, now) < 1.0
         || Tokens(cfg, BurstIn(cfg, m, key, now, k), key, now) < (n - k) as real
  {
    if k > 0 {
      BurstLow(cfg, m, key, now, n, k - 1);
      OpPays(cfg, BurstIn(cfg, m, key, now, k - 1), AllowOp(key, now), key);
    }
  }

  lemma FullBurst(cfg: Config, key: Name)
    requires cfg.burst >= 1
    ensures var m := BurstIn(cfg, map[], key, 0, cfg.burst);
      key in m && m[key].last == 0 && m[key].lastSeen == 0 && m[key].tokens == 0.0
  {
    BurstSpends(cfg, map[], key, 0, cfg.burst);
  }

  function Before(cfg: Config, key: Name): seq<Op>
    requires cfg.burst >= 0
  {
    Burst(key, 0, cfg.burst) + [CleanupOp(cfg.ttl + 1)]
  }

  lemma BeforeIs(cfg: Config, key: Name, janitor: bool)
    requires cfg.burst >= 0
    ensures Exec(cfg, Before(cfg, key), janitor)
         == Apply(cfg, BurstIn(cfg, map[], key, 0, cfg.burst), CleanupOp(cfg.ttl + 1), janitor)
  {
    var first := Burst(key, 0, cfg.burst);
    assert [] + first == first;
    ExecBurst(cfg, [], key, 0, cfg.burst, janitor);
    Snoc(cfg, first, CleanupOp(cfg.ttl + 1), janitor);
  }

  lemma AnsweredWithJanitor(cfg: Config, key: Name)
    requires Sensible(cfg) && cfg.burst >= 1
    ensures Answer(cfg, Probe(cfg, key), true)
  {
    BeforeIs(cfg, key, true);
    FullBurst(cfg, key);
    var m := Exec(cfg, Before(cfg, key), true);
    assert key !in m;
    ExecBurst(cfg, Before(cfg, key), key, cfg.ttl + 1, cfg.burst, true);
    BurstSpends(cfg, m, key, cfg.ttl + 1, cfg.burst);
  }

  lemma RefusedWithout(cfg: Config, key: Name)
    requires Sensible(cfg) && cfg.burst >= 1 && cfg.rate * (cfg.ttl + 1) as real < cfg.burst as real
    ensures !Answer(cfg, Probe(cfg, key), false)
  {
    BeforeIs(cfg, key, false);
    FullBurst(cfg, key);
    var m := Exec(cfg, Before(cfg, key), false);
    assert Tokens(cfg, m, key, cfg.ttl + 1) < cfg.burst as real by { RefillIs(cfg.rate, 0, cfg.ttl + 1); }
    assert Probe(cfg, key) == Before(cfg, key) + Burst(key, cfg.ttl + 1, cfg.burst);
    ExecBurst(cfg, Before(cfg, key), key, cfg.ttl + 1, cfg.burst, false);
    BurstLow(cfg, m, key, cfg.ttl + 1, cfg.burst, cfg.burst - 1);
  }

  /** With a ttl too short for a full refill, the probe is answered differently with and without the janitor. */
  lemma ShortTtlShows(cfg: Config, key: Name)
    requires Sensible(cfg) && cfg.burst >= 1 && cfg.rate * (cfg.ttl + 1) as real < cfg.burst as real
    ensures InOrder(Probe(cfg, key))
    ensures Answer(cfg, Probe(cfg, key), true) && !Answer(cfg, Probe(cfg, key), false)
  {
    ProbeInOrder(cfg, key);
    AnsweredWithJanitor(cfg, key);
    RefusedWithout(cfg, key);
  }

  lemma {:induction false} AnswersEnd(cfg: Config, ops: seq<Op>, janitor: bool)
    requires ops != []
    ensures Answers(cfg, ops, janitor) != [] && Last(Answers(cfg, ops, janitor)) == Answer(cfg, ops, janitor)
  {
  }

  /**
    The janitor changes no answer in any run exactly when a bucket idle for longer than the ttl must
    have refilled completely.
  */
  lemma JanitorInvisibleIff(cfg: Config)
    requires Sensible(cfg)
    ensures (forall ops: seq<Op> | InOrder(ops) :: Answers(cfg, ops, true) == Answers(cfg, ops, false))
       <==> cfg.rate * (cfg.ttl + 1) as real >= cfg.burst as real
  {
    if cfg.rate * (cfg.ttl + 1) as real >= cfg.burst as real {
      forall ops: seq<Op> | InOrder(ops) ensures Answers(cfg, ops, true) == Answers(cfg, ops, false) {
        SameAnswers(cfg, ops);
      }
    } else {
      assert cfg.rate * (cfg.ttl + 1) as real >= 0.0;
      var ops := Probe(cfg, "k");
      ShortTtlShows(cfg, "k");
      AnswersEnd(cfg, ops, true);
      AnswersEnd(cfg, ops, false);
      assert InOrder(ops) && Answers(cfg, ops, true) != Answers(cfg, ops, false);
    }
  }

  const SECOND: int := 1_000_000_000
  const MINUTE: int := 60 * SECOND
  const HOUR: int := 60 * MINUTE

  function PerMinute(n: nat, ttl: int): Config { Config(n as real / MINUTE as real, n, ttl) }
  function PerHour(n: nat, ttl: int): Config { Config(n as real / HOUR as real, n, ttl) }

  /** Every limiter the server builds (ttl 10 minutes per-minute, 2 hours per-hour) keeps its janitor invisible. */
  lemma ServerLimitersAreTransparent(n: nat, ops: seq<Op>)
    requires InOrder(ops)
    ensures Answers(PerMinute(n, 10 * MINUTE), ops, true) == Answers(PerMinute(n, 10 * MINUTE), ops, false)
    ensures Answers(PerHour(n, 2 * HOUR), ops, true) == Answers(PerHour(n, 2 * HOUR), ops, false)
  {
    SameAnswers(PerMinute(n, 10 * MINUTE), ops);
    SameAnswers(PerHour(n, 2 * HOUR), ops);
  }

  // ---------------------------------------------------------------- throughput

  /** Events of `key` let through among the operations i, ..., j-1, given the answers to all of them. */
  function Allowed(ops: seq<Op>, answers: seq<bool>, key: Name, i: nat, j: nat): nat
    requires i <= j <= |ops| == |answers|
    decreases j
  {
    if i == j then 0 else
    Allowed(ops, answers, key, i, j - 1)
      + if ops[j - 1].AllowOp? && ops[j - 1].key == key && answers[j - 1] then 1 else 0
  }

  lemma {:induction false} BucketsSound(cfg: Config, ops: seq<Op>)
    requires cfg.rate >= 0.0 && InOrder(ops) && ops != []
    ensures AllSound(cfg, Exec(cfg, ops, false), Last(ops).now)
  {
    var before, now := ops[..|ops| - 1], Last(ops).now;
    if before != [] {
      BucketsSound(cfg, before);
      assert ops[|ops| - 2].now <= now;
    }
    if Last(ops).AllowOp? {
      SpendSound(cfg, Exec(cfg, before, false), Last(ops).key, if before == [] then now else Last(before).now, now);
    }
  }

  /** Between two instants a key gains at most what the rate gives. */
  lemma TokensGrow(cfg: Config, m: Buckets, key: Name, t: Time, u: Time)
    requires cfg.rate >= 0.0 && t <= u && AllSound(cfg, m, t)
    ensures Tokens(cfg, m, key, u) <= Tokens(cfg, m, key, t) + Refill(cfg.rate, t, u)
  {
    if key in m {
      assert Sound(cfg, m[key], t);
      RefillAdds(cfg.rate, m[key].last, t, u);
    } else {
      RefillAdds(cfg.rate, t, t, u);
    }
  }

  lemma {:induction false} AnswersAt(cfg: Config, ops: seq<Op>, j: nat, janitor: bool)
    requires 0 < j <= |ops|
    ensures |Answers(cfg, ops, janitor)| == |ops| && Answers(cfg, ops, janitor)[j - 1] == Answer(cfg, ops[..j], janitor)
  {
    if j < |ops| {
      AnswersAt(cfg, ops[..|ops| - 1], j, janitor);
      assert ops[..|ops| - 1][..j] == ops[..j];
    } else {
      if |ops| > 1 { AnswersAt(cfg, ops[..|ops| - 1], 1, janitor); }
      assert ops[..j] == ops;
    }
  }

  lemma AllowedLast(cfg: Config, ops: seq<Op>, answers: seq<bool>, key: Name, i: nat, j: nat)
    requires answers == Answers(cfg, ops, false) && i < j <= |ops| == |answers|
    ensures Allowed(ops, answers, key, i, j)
         == Allowed(ops, answers, key, i, j - 1)
            + if Granted(cfg, Exec(cfg, ops[..j - 1], false), ops[j - 1], key) then 1 else 0
    ensures Exec(cfg, ops[..j], false) == Apply(cfg, Exec(cfg, ops[..j - 1], false), ops[j - 1], false)
  {
    AnswersAt(cfg, ops, j, false);
    assert ops[..j] == ops[..j - 1] + [ops[j - 1]];
    Snoc(cfg, ops[..j - 1], ops[j - 1], false);
  }

  lemma {:induction false} PaidFor(cfg: Config, ops: seq<Op>, answers: seq<bool>, key: Name, i: nat, j: nat)
    requires cfg.rate >= 0.0 && InOrder(ops) && i < j <= |ops| == |answers| && answers == Answers(cfg, ops, false)
    ensures Allowed(ops, answers, key, i, j) as real + Tokens(cfg, Exec(cfg, ops[..j], false), key, ops[j - 1].now)
              <= cfg.burst as real + Refill(cfg.rate, ops[i].now, ops[j - 1].now)
  {
    var m := Exec(cfg, ops[..j - 1], false);
    AllowedLast(cfg, ops, answers, key, i, j);
    OpPays(cfg, m, ops[j - 1], key);
    if j > i + 1 {
      PaidFor(cfg, ops, answers, key, i, j - 1);
      var t, u := ops[j - 2].now, ops[j - 1].now;
      assert AllSound(cfg, m, t) by { BucketsSound(cfg, ops[..j - 1]); }
      TokensGrow(cfg, m, key, t, u);
      RefillAdds(cfg.rate, ops[i].now, t, u);
    }
  }

  /** A granted event leaves the bucket at or above zero. */
  lemma TokensLeft(cfg: Config, ops: seq<Op>, key: Name)
    requires cfg.rate >= 0.0 && cfg.burst >= 0 && InOrder(ops) && ops != []
    ensures Tokens(cfg, Exec(cfg, ops, false), key, Last(ops).now) >= 0.0
  {
    BucketsSound(cfg, ops);
    var m := Exec(cfg, ops, false);
    if key in m {
      assert Sound(cfg, m[key], Last(ops).now);
      RefillAdds(cfg.rate, m[key].last, m[key].last, Last(ops).now);
    }
  }

  lemma NeverEvictingBound(cfg: Config, ops: seq<Op>, answers: seq<bool>, key: Name, i: nat, j: nat)
    requires cfg.rate >= 0.0 && cfg.burst >= 0 && InOrder(ops) && answers == Answers(cfg, ops, false)
    requires i < j <= |ops| == |answers|
    ensures Allowed(ops, answers, key, i, j) as real <= cfg.burst as real + Refill(cfg.rate, ops[i].now, ops[j - 1].now)
  {
    PaidFor(cfg, ops, answers, key, i, j);
    var left := Tokens(cfg, Exec(cfg, ops[..j], false), key, ops[j - 1].now);
    assert left >= 0.0 by { TokensLeft(cfg, ops[..j], key); }
  }

  lemma UnevictedAnswers(cfg: Config, ops: seq<Op>)
    requires Sensible(cfg) && cfg.rate * (cfg.ttl + 1) as real >= cfg.burst as real && InOrder(ops)
    ensures Answers(cfg, ops, true) == Answers(cfg, ops, false)
  {
    SameAnswers(cfg, ops);
  }

  lemma BoundInProducts(cfg: Config, ops: seq<Op>, answers: seq<bool>, key: Name, i: nat, j: nat)
    requires cfg.rate >= 0.0 && cfg.burst >= 0 && InOrder(ops) && answers == Answers(cfg, ops, false)
    requires i < j <= |ops| == |answers|
    ensures Allowed(ops, answers, key, i, j) as real <= cfg.burst as real + cfg.rate * (ops[j - 1].now - ops[i].now) as real
  {
    NeverEvictingBound(cfg, ops, answers, key, i, j);
    RefillIs(cfg.rate, ops[i].now, ops[j - 1].now);
  }

  /**
    Throughput. Whatever the other keys do and whenever the janitor cleans up, the events of one key let
    through from one operation to another number at most the burst plus what the rate gives in between.
  */
  lemma ThroughputBound(cfg: Config, ops: seq<Op>, answers: seq<bool>, key: Name, i: nat, j: nat)
    requires Sensible(cfg) && cfg.burst >= 0 && cfg.rate * (cfg.ttl + 1) as real >= cfg.burst as real
    requires InOrder(ops) && answers == Answers(cfg, ops, true) && i < j <= |ops| == |answers|
    ensures Allowed(ops, answers, key, i, j) as real <= cfg.burst as real + cfg.rate * (ops[j - 1].now - ops[i].now) as real
  {
    UnevictedAnswers(cfg, ops);
    BoundInProducts(cfg, ops, answers, key, i, j);
  }

  /** A limiter of n per minute lets at most 2n events of one key through in any minute. */
  lemma AtMostTwiceAMinute(n: nat, ops: seq<Op>, answers: seq<bool>, key: Name, i: nat, j: nat)
    requires InOrder(ops) && answers == Answers(PerMinute(n, 10 * MINUTE), ops, true) && i < j <= |ops| == |answers|
    requires ops[j - 1].now - ops[i].now <= MINUTE
    ensures Allowed(ops, answers, key, i, j) <= 2 * n
  {
    ThroughputBound(PerMinute(n, 10 * MINUTE), ops, answers, key, i, j);
    PartOfAMinute(n, ops[j - 1].now - ops[i].now);
  }

  lemma PartOfAMinute(n: nat, t: int)
    requires t <= MINUTE
    ensures n as real / MINUTE as real * t as real <= n as real
  {
    var r := n as real / MINUTE as real;
    assert r >= 0.0 && r * MINUTE as real == n as real;
    assert r * t as real <= r * MINUTE as real;
  }

  lemma RefillIs(rate: real, from: Time, to: Time)
    requires from <= to
    ensures Refill(rate, from, to) == rate * (to - from) as real
  {
    if from == to { assert rate * 0.0 == 0.0; }
  }
}
