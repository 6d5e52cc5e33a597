/**
  The keyed token-bucket limiter with its janitor (server/internal/ratelimit/ratelimit.go).

  Times are nanoseconds. The bucket is the one of golang.org/x/time/rate in exact arithmetic: it refills
  at `rate` tokens per nanosecond up to `burst`, and an event that finds a whole token spends it.
*/
module RateLimit {
  import opened Prelude

  type Time = int
  type Name = string

  datatype Config = Config(rate: real, burst: int, ttl: int)

  ghost predicate Sensible(cfg: Config) { cfg.rate >= 0.0 && cfg.ttl >= 0 }

  datatype Bucket = Bucket(tokens: real, last: Time, lastSeen: Time)

  type Buckets = map<Name, Bucket>

  function Refill(rate: real, from: Time, to: Time): real {
    if to <= from then 0.0 else rate * (to - from) as real
  }

  function Min(a: real, b: real): real { if a <= b then a else b }

  /** The tokens in the bucket at `now`. */
  function Level(cfg: Config, b: Bucket, now: Time): real {
    Min(cfg.burst as real, b.tokens + Refill(cfg.rate, b.last, now))
  }

  /** A new limiter is full, so the time it counts from does not matter. */
  function NewBucket(cfg: Config, now: Time): Bucket { Bucket(cfg.burst as real, now, now) }

  function BucketOf(cfg: Config, m: Buckets, key: Name, now: Time): Bucket {
    if key in m then m[key] else NewBucket(cfg, now)
  }

  predicate Permits(cfg: Config, b: Bucket, now: Time) {
    1 <= cfg.burst && Level(cfg, b, now) >= 1.0
  }

  /** A refused event changes only `lastSeen`. */
  function Spend(cfg: Config, b: Bucket, now: Time): Bucket {
    if Permits(cfg, b, now) then Bucket(Level(cfg, b, now) - 1.0, now, now) else b.(lastSeen := now)
  }

  function AllowIn(cfg: Config, m: Buckets, key: Name, now: Time): Buckets {
    m[key := Spend(cfg, BucketOf(cfg, m, key, now), now)]
  }

  function Cleaned(cfg: Config, m: Buckets, now: Time): Buckets {
    map k | k in m && m[k].lastSeen >= now - cfg.ttl :: m[k]
  }

  class KeyedLimiter {
    const cfg: Config
    var buckets: Buckets

    constructor (rate: real, burst: int, ttl: int)
      ensures cfg == Config(rate, burst, ttl) && buckets == map[]
    {
      cfg := Config(rate, burst, ttl);
      buckets := map[];
    }

    method Allow(key: Name, now: Time) returns (ok: bool)
      modifies this`buckets
      ensures ok <==> Permits(cfg, BucketOf(cfg, old(buckets), key, now), now)
      ensures buckets == AllowIn(cfg, old(buckets), key, now)
    {
      var b := if key in buckets then buckets[key] else NewBucket(cfg, now);
      var tokens := Level(cfg, b, now) - 1.0;
      ok := 1 <= cfg.burst && tokens >= 0.0;
      buckets := buckets[key := if ok then Bucket(tokens, now, now) else b.(lastSeen := now)];
    }

    method Cleanup(now: Time)
      modifies this`buckets
      ensures buckets == Cleaned(cfg, old(buckets), now)
    {
      var cutoff := now - cfg.ttl;
      var todo := buckets.Keys;
      while todo != {}
        invariant todo <= old(buckets).Keys
        invariant buckets == map k | k in old(buckets) && (k in todo || old(buckets)[k].lastSeen >= cutoff) :: old(buckets)[k]
      {
        var key :| key in todo;
        if buckets[key].lastSeen < cutoff {
          buckets := buckets - {key};
        }
        todo := todo - {key};
      }
    }
  }

  // ---------------------------------------------------------------- runs

  datatype Op = AllowOp(key: Name, now: Time) | CleanupOp(now: Time)

  ghost predicate InOrder(ops: seq<Op>) {
    forall i, j | 0 <= i < j < |ops| :: ops[i].now <= ops[j].now
  }

  /** The buckets after a run; without the janitor, cleanups do nothing. */
  function Exec(cfg: Config, ops: seq<Op>, janitor: bool): Buckets {
    if ops == [] then map[] else Apply(cfg, Exec(cfg, ops[..|ops| - 1], janitor), Last(ops), janitor)
  }

  function Apply(cfg: Config, m: Buckets, op: Op, janitor: bool): Buckets {
    match op
    case AllowOp(key, now) => AllowIn(cfg, m, key, now)
    case CleanupOp(now) => if janitor then Cleaned(cfg, m, now) else m
  }

  /** The answer to the last operation, if it asks for one. */
  predicate Answer(cfg: Config, ops: seq<Op>, janitor: bool)
    requires ops != []
  {
    Last(ops).AllowOp?
    && Permits(cfg, BucketOf(cfg, Exec(cfg, ops[..|ops| - 1], janitor), Last(ops).key, Last(ops).now), Last(ops).now)
  }

  function Answers(cfg: Config, ops: seq<Op>, janitor: bool): seq<bool> {
    if ops == [] then [] else Answers(cfg, ops[..|ops| - 1], janitor) + [Answer(cfg, ops, janitor)]
  }

  // ---------------------------------------------------------------- refilling

  lemma RefillAdds(rate: real, a: Time, b: Time, c: Time)
    requires rate >= 0.0 && a <= b <= c
    ensures Refill(rate, a, c) == Refill(rate, a, b) + Refill(rate, b, c)
    ensures Refill(rate, a, b) >= 0.0 && Refill(rate, b, c) >= 0.0
  {
    assert (c - a) as real == (b - a) as real + (c - b) as real;
  }

  /** The bucket is full at `t`, and therefore from then on. */
  predicate FullAt(cfg: Config, b: Bucket, t: Time) {
    Level(cfg, b, t) == cfg.burst as real
  }

  lemma StaysFull(cfg: Config, b: Bucket, t: Time, u: Time)
    requires cfg.rate >= 0.0 && t <= u && FullAt(cfg, b, t)
    ensures FullAt(cfg, b, u)
  {
    if b.last <= t { RefillAdds(cfg.rate, b.last, t, u); }
    else if b.last <= u { RefillAdds(cfg.rate, b.last, b.last, u); }
  }

  /** A bucket unused for longer than the ttl is full again: evicting it forgets nothing. */
  lemma IdleIsFull(cfg: Config, b: Bucket, now: Time)
    requires Sensible(cfg) && cfg.rate * (cfg.ttl + 1) as real >= cfg.burst as real
    requires b.last <= b.lastSeen < now - cfg.ttl && (b.tokens >= 0.0 || b.tokens >= cfg.burst as real)
    ensures FullAt(cfg, b, now)
  {
    RefillAdds(cfg.rate, b.last, now - cfg.ttl - 1, now);
    assert Refill(cfg.rate, now - cfg.ttl - 1, now) == cfg.rate * (cfg.ttl + 1) as real;
    RefillAdds(cfg.rate, b.last, b.last, now);
  }

  // ---------------------------------------------------------------- the janitor is invisible

  /** The two limiters agree on a key from time `t` on. */
  predicate Agree(cfg: Config, e: Buckets, n: Buckets, key: Name, t: Time) {
    if key in e && key in n then
      || e[key] == n[key]
      || (FullAt(cfg, e[key], t) && FullAt(cfg, n[key], t))
    else key !in e && (key in n ==> FullAt(cfg, n[key], t))
  }

  predicate Sound(cfg: Config, b: Bucket, t: Time) {
    b.last <= b.lastSeen <= t && (b.tokens >= 0.0 || b.tokens >= cfg.burst as real)
  }

  ghost predicate AllSound(cfg: Config, m: Buckets, t: Time) {
    forall k <- m :: Sound(cfg, m[k], t)
  }

  lemma SpendSound(cfg: Config, m: Buckets, key: Name, t: Time, now: Time)
    requires cfg.rate >= 0.0 && t <= now && AllSound(cfg, m, t)
    ensures AllSound(cfg, AllowIn(cfg, m, key, now), now)
  {
  }

  lemma AgreeLater(cfg: Config, e: Buckets, n: Buckets, key: Name, t: Time, u: Time)
    requires cfg.rate >= 0.0 && t <= u && Agree(cfg, e, n, key, t)
    ensures Agree(cfg, e, n, key, u)
  {
    if key in n && FullAt(cfg, n[key], t) { StaysFull(cfg, n[key], t, u); }
    if key in e && FullAt(cfg, e[key], t) { StaysFull(cfg, e[key], t, u); }
  }

  lemma AgreeSpend(cfg: Config, e: Buckets, n: Buckets, key: Name, now: Time)
    requires cfg.rate >= 0.0 && Agree(cfg, e, n, key, now)
    ensures Permits(cfg, BucketOf(cfg, e, key, now), now) <==> Permits(cfg, BucketOf(cfg, n, key, now), now)
    ensures Agree(cfg, AllowIn(cfg, e, key, now), AllowIn(cfg, n, key, now), key, now)
  {
  }

  ghost predicate AllAgree(cfg: Config, e: Buckets, n: Buckets, t: Time) {
    forall key :: Agree(cfg, e, n, key, t)
  }

  lemma {:induction false} SameAnswers(cfg: Config, ops: seq<Op>)
    requires Sensible(cfg) && cfg.rate * (cfg.ttl + 1) as real >= cfg.burst as real && InOrder(ops)
    ensures Answers(cfg, ops, true) == Answers(cfg, ops, false)
    ensures ops != [] ==> AllSound(cfg, Exec(cfg, ops, true), Last(ops).now)
                          && AllAgree(cfg, Exec(cfg, ops, true), Exec(cfg, ops, false), Last(ops).now)
  {
    if ops != [] {
      var before, now := ops[..|ops| - 1], Last(ops).now;
      var t := if before == [] then now else Last(before).now;
      assert t <= now by { if before != [] { assert ops[|ops| - 2].now <= ops[|ops| - 1].now; } }
      SameAnswers(cfg, before);
      var e, n := Exec(cfg, before, true), Exec(cfg, before, false);
      forall key ensures Agree(cfg, e, n, key, now) {
        assert Agree(cfg, e, n, key, t);
        AgreeLater(cfg, e, n, key, t, now);
      }
      match Last(ops)
      case AllowOp(key, _) =>
        SpendSound(cfg, e, key, t, now);
        AgreeSpend(cfg, e, n, key, now);
        forall k ensures Agree(cfg, Exec(cfg, ops, true), Exec(cfg, ops, false), k, now) {
          assert Agree(cfg, e, n, k, now);
        }
      case CleanupOp(_) =>
        forall k ensures Agree(cfg, Exec(cfg, ops, true), Exec(cfg, ops, false), k, now) {
          assert Agree(cfg, e, n, k, now);
          if k in e && k !in Cleaned(cfg, e, now) {
            assert Sound(cfg, e[k], t);
            IdleIsFull(cfg, e[k], now);
          }
        }
    }
  }
}
