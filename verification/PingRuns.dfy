/**
  Pings that arrive while the table is pruned: exactly when a pruned table answers the map as one that was
  never pruned (server/internal/store/pings.sql.go, misc.sql.go).
*/
module PingRuns {
  import opened Prelude
  import opened RetentionSpec
  import R = Retention

  /** Inserts keep one row per device, client id and capture time. */
  predicate SameKey(p: Ping, q: Ping) { p.device == q.device && p.client == q.client && p.captured == q.captured }

  predicate HasKey(t: Table, p: Ping) { exists n <- t :: SameKey(t[n], p) }

  /** ON CONFLICT DO NOTHING. */
  function Inserted(t: Table, id: Id, p: Ping): Table { if HasKey(t, p) then t else t[id := p] }

  datatype Op = Insert(id: Id, p: Ping) | Prune(rules: seq<Rule>) | Horizon(at: Time)

  /** The table with the prunes, and the one without; the horizon deletion applies to both. */
  datatype Both = Both(pruned: Table, full: Table)

  /** An insert whose id is taken does not happen. */
  function Next(b: Both, op: Op): Both {
    match op
    case Insert(id, p) => if id in b.pruned || id in b.full then b else Both(Inserted(b.pruned, id, p), Inserted(b.full, id, p))
    case Prune(rules) => b.(pruned := Pruned(b.pruned, rules))
    case Horizon(at) => Both(Since(b.pruned, at), Since(b.full, at))
  }

  function Exec(t: Table, ops: seq<Op>): Both {
    if ops == [] then Both(t, t) else Next(Exec(t, ops[..|ops| - 1]), Last(ops))
  }

  /** The map shows the same rows. */
  ghost predicate SameAnswers(b: Both) {
    forall c, d, id :: IsNewest(b.pruned, c, d, id) <==> IsNewest(b.full, c, d, id)
  }

  /** A ping dropped as a retry by the full table is new to the pruned one, and the newest there. */
  predicate Slips(b: Both, op: Op) {
    op.Insert? && op.id !in b.pruned && op.id !in b.full
    && HasKey(b.full, op.p) && !HasKey(b.pruned, op.p) && !Superseded(b.pruned, op.p)
  }

  // ---------------------------------------------------------------- what holds until an insert slips

  /** The tables differ in superseded rows only, and every key of the pruned one is a key of the full one. */
  ghost predicate Agree(b: Both) {
    && (forall id <- b.full :: (id in b.pruned && b.pruned[id] == b.full[id]) || Superseded(b.full, b.full[id]))
    && (forall id <- b.pruned :: (id in b.full && b.full[id] == b.pruned[id]) || Superseded(b.pruned, b.pruned[id]))
    && (forall id <- b.pruned :: HasKey(b.full, b.pruned[id]))
  }

  lemma SameOrder(b: Both, p: Ping)
    requires Agree(b)
    ensures Superseded(b.pruned, p) <==> Superseded(b.full, p)
  {
    if Superseded(b.full, p) {
      var n := NewestAbove(b.full, p);
      assert n in b.pruned && Newer(b.pruned[n], p);
    }
    if Superseded(b.pruned, p) {
      var n := NewestAbove(b.pruned, p);
      assert n in b.full && Newer(b.full[n], p);
    }
  }

  lemma AgreeAnswers(b: Both)
    requires Agree(b)
    ensures SameAnswers(b)
  {
    forall c, d, id ensures IsNewest(b.pruned, c, d, id) <==> IsNewest(b.full, c, d, id) {
      if id in b.pruned { SameOrder(b, b.pruned[id]); }
      if id in b.full { SameOrder(b, b.full[id]); }
    }
  }

  lemma PruneAgrees(b: Both, rules: seq<Rule>)
    requires Agree(b)
    ensures Agree(Next(b, Prune(rules)))
  {
    var u := Pruned(b.pruned, rules);
    PrunedThins(b.pruned, rules);
    forall id | id in b.full ensures (id in u && u[id] == b.full[id]) || Superseded(b.full, b.full[id]) {
      if id in b.pruned && b.pruned[id] == b.full[id] { SameOrder(b, b.full[id]); }
    }
    forall id | id in u ensures (id in b.full && b.full[id] == u[id]) || Superseded(u, u[id]) {
      ThinnedKeepsOrder(b.pruned, u, u[id]);
    }
  }

  /** The row that supersedes is newer, so the horizon takes it later. */
  lemma SinceKeepsOrder(t: Table, at: Time, p: Ping)
    requires p.captured >= at && Superseded(t, p)
    ensures Superseded(Since(t, at), p)
  {
    var n :| n in t && Newer(t[n], p);
    assert n in Since(t, at);
  }

  lemma HorizonAgrees(b: Both, at: Time)
    requires Agree(b)
    ensures Agree(Next(b, Horizon(at)))
  {
    var u := Next(b, Horizon(at));
    forall id | id in u.full ensures (id in u.pruned && u.pruned[id] == u.full[id]) || Superseded(u.full, u.full[id]) {
      if Superseded(b.full, b.full[id]) { SinceKeepsOrder(b.full, at, b.full[id]); }
    }
    forall id | id in u.pruned ensures (id in u.full && u.full[id] == u.pruned[id]) || Superseded(u.pruned, u.pruned[id]) {
      if Superseded(b.pruned, b.pruned[id]) { SinceKeepsOrder(b.pruned, at, b.pruned[id]); }
    }
    forall id | id in u.pruned ensures HasKey(u.full, u.pruned[id]) {
      var n :| n in b.full && SameKey(b.full[n], b.pruned[id]);
      assert n in u.full;
    }
  }

  lemma MoreRowsSupersede(t: Table, id: Id, p: Ping, q: Ping)
    requires id !in t && Superseded(t, q)
    ensures Superseded(Inserted(t, id, p), q)
  {
    var n :| n in t && Newer(t[n], q);
    assert n in Inserted(t, id, p);
  }

  lemma MoreRowsHaveKey(t: Table, id: Id, p: Ping, q: Ping)
    requires id !in t
    ensures HasKey(Inserted(t, id, p), p)
    ensures HasKey(t, q) ==> HasKey(Inserted(t, id, p), q)
  {
    if HasKey(t, q) {
      var n :| n in t && SameKey(t[n], q);
      assert n in Inserted(t, id, p);
    }
    if !HasKey(t, p) { assert SameKey(Inserted(t, id, p)[id], p); }
  }

  lemma InsertAgrees(b: Both, id: Id, p: Ping)
    requires Agree(b) && !Slips(b, Insert(id, p))
    ensures Agree(Next(b, Insert(id, p)))
  {
    var u := Next(b, Insert(id, p));
    if u != b {
      forall x | x in u.full ensures (x in u.pruned && u.pruned[x] == u.full[x]) || Superseded(u.full, u.full[x]) {
        if x in b.full && Superseded(b.full, b.full[x]) { MoreRowsSupersede(b.full, id, p, b.full[x]); }
      }
      forall x | x in u.pruned ensures (x in u.full && u.full[x] == u.pruned[x]) || Superseded(u.pruned, u.pruned[x]) {
        if Superseded(b.pruned, u.pruned[x]) { MoreRowsSupersede(b.pruned, id, p, u.pruned[x]); }
      }
      forall x | x in u.pruned ensures HasKey(u.full, u.pruned[x]) {
        MoreRowsHaveKey(b.full, id, p, u.pruned[x]);
      }
    }
  }

  lemma NextAgrees(b: Both, op: Op)
    requires Agree(b) && !Slips(b, op)
    ensures Agree(Next(b, op))
  {
    match op
    case Insert(id, p) => InsertAgrees(b, id, p);
    case Prune(rules) => PruneAgrees(b, rules);
    case Horizon(at) => HorizonAgrees(b, at);
  }

  /** A slipped row is on the pruned table's map and not in the full table. */
  lemma SlipShows(b: Both, op: Op)
    requires Slips(b, op)
    ensures !SameAnswers(Next(b, op))
  {
    var u := Next(b, op);
    assert u.pruned == b.pruned[op.id := op.p] && u.full == b.full;
    assert IsNewest(u.pruned, op.p.circle, op.p.device, op.id);
  }

  // ---------------------------------------------------------------- whole runs

  ghost predicate AlwaysSame(t: Table, ops: seq<Op>) { forall n | 0 <= n <= |ops| :: SameAnswers(Exec(t, ops[..n])) }

  ghost predicate NothingSlips(t: Table, ops: seq<Op>) { forall n | 0 <= n < |ops| :: !Slips(Exec(t, ops[..n]), ops[n]) }

  lemma ExecNext(t: Table, ops: seq<Op>, n: nat)
    requires n < |ops|
    ensures Exec(t, ops[..n + 1]) == Next(Exec(t, ops[..n]), ops[n])
  {
    assert ops[..n + 1][..n] == ops[..n];
  }

  lemma {:induction false} AgreeUpTo(t: Table, ops: seq<Op>, n: nat)
    requires n <= |ops| && NothingSlips(t, ops)
    ensures Agree(Exec(t, ops[..n]))
  {
    if n == 0 {
      assert forall id <- t :: SameKey(t[id], t[id]);
    } else {
      AgreeUpTo(t, ops, n - 1);
      ExecNext(t, ops, n - 1);
      NextAgrees(Exec(t, ops[..n - 1]), ops[n - 1]);
    }
  }

  /**
    Over every interleaving of inserts, prunes and horizon deletions, the map always shows what it would
    show had no prune ever run, exactly when no insert slips: no ping that the full table drops as a retry
    is taken by the pruned one as a device's newest in its circle.
  */
  lemma PruningInvisibleIff(t: Table, ops: seq<Op>)
    ensures AlwaysSame(t, ops) <==> NothingSlips(t, ops)
  {
    if NothingSlips(t, ops) {
      forall n | 0 <= n <= |ops| ensures SameAnswers(Exec(t, ops[..n])) {
        AgreeUpTo(t, ops, n);
        AgreeAnswers(Exec(t, ops[..n]));
      }
    }
    if AlwaysSame(t, ops) {
      forall n | 0 <= n < |ops| ensures !Slips(Exec(t, ops[..n]), ops[n]) {
        ExecNext(t, ops, n);
        if Slips(Exec(t, ops[..n]), ops[n]) { SlipShows(Exec(t, ops[..n]), ops[n]); }
      }
    }
  }

  // ---------------------------------------------------------------- keys that stay in one circle

  predicate InOneCircle(p: Ping, q: Ping) { SameKey(p, q) ==> p.circle == q.circle }

  /** No two pings, of the table or inserted, share a key and differ in their circle. */
  ghost predicate KeysKeepTheirCircle(t: Table, ops: seq<Op>) {
    && (forall op <- ops, id <- t :: op.Insert? ==> InOneCircle(t[id], op.p))
    && (forall op <- ops, other <- ops :: op.Insert? && other.Insert? ==> InOneCircle(op.p, other.p))
  }

  ghost predicate FromRun(t: Table, ops: seq<Op>, p: Ping) {
    (exists id <- t :: t[id] == p) || exists op <- ops :: op.Insert? && op.p == p
  }

  lemma {:induction false} RowsFromRun(t: Table, ops: seq<Op>, n: nat, id: Id)
    requires n <= |ops| && id in Exec(t, ops[..n]).full
    ensures FromRun(t, ops, Exec(t, ops[..n]).full[id])
  {
    if n > 0 {
      ExecNext(t, ops, n - 1);
      if id in Exec(t, ops[..n - 1]).full { RowsFromRun(t, ops, n - 1, id); }
      assert ops[n - 1] in ops;
    }
  }

  /** A retry that the prune has forgotten is superseded, as the row it repeats was. */
  lemma RetryIsSuperseded(b: Both, op: Op)
    requires Agree(b) && op.Insert? && HasKey(b.full, op.p) && !HasKey(b.pruned, op.p)
    requires forall id <- b.full :: InOneCircle(b.full[id], op.p)
    ensures Superseded(b.pruned, op.p)
  {
    var n :| n in b.full && SameKey(b.full[n], op.p);
    assert n !in b.pruned || b.pruned[n] != b.full[n];
    assert Superseded(b.full, b.full[n]);
    var m :| m in b.full && Newer(b.full[m], b.full[n]);
    assert Newer(b.full[m], op.p);
    SameOrder(b, op.p);
  }

  lemma {:induction false} OneCircleAgrees(t: Table, ops: seq<Op>, n: nat)
    requires n <= |ops| && KeysKeepTheirCircle(t, ops)
    ensures Agree(Exec(t, ops[..n])) && (n < |ops| ==> !Slips(Exec(t, ops[..n]), ops[n]))
  {
    if n == 0 {
      assert forall id <- t :: SameKey(t[id], t[id]);
    } else {
      OneCircleAgrees(t, ops, n - 1);
      ExecNext(t, ops, n - 1);
      NextAgrees(Exec(t, ops[..n - 1]), ops[n - 1]);
    }
    if n < |ops| && Slips(Exec(t, ops[..n]), ops[n]) {
      var b, op := Exec(t, ops[..n]), ops[n];
      forall id | id in b.full ensures InOneCircle(b.full[id], op.p) { RowsFromRun(t, ops, n, id); }
      RetryIsSuperseded(b, op);
    }
  }

  /** If no key is used in two circles, pruning is never seen on the map, however pings arrive and are retried. */
  lemma OneCircleInvisible(t: Table, ops: seq<Op>)
    requires KeysKeepTheirCircle(t, ops)
    ensures AlwaysSame(t, ops)
  {
    forall n | 0 <= n < |ops| ensures !Slips(Exec(t, ops[..n]), ops[n]) { OneCircleAgrees(t, ops, n); }
    PruningInvisibleIff(t, ops);
  }

  /** A key used again in another circle: dropped by the full table, on the map of the pruned one. */
  lemma SecondCircleShows(a: Id, b: Id, d: Device, k: Client, l: Client, c: Circle, e: Circle, at: Time)
    requires a != b && c != e && k != l
    ensures var t := map[a := Ping(c, d, k, at), b := Ping(c, d, l, at + 1)];
      forall id | id !in t :: !AlwaysSame(t, [Prune([Rule(None, at + 1)]), Insert(id, Ping(e, d, k, at))])
  {
    var t := map[a := Ping(c, d, k, at), b := Ping(c, d, l, at + 1)];
    forall id | id !in t ensures !AlwaysSame(t, [Prune([Rule(None, at + 1)]), Insert(id, Ping(e, d, k, at))]) {
      PrunedKeyIsFree(t, a, b, at);
      var ops := [Prune([Rule(None, at + 1)]), Insert(id, Ping(e, d, k, at))];
      assert ops[..0] == [] && ops[..1] == [ops[0]] && ops[..1][..0] == [];
      assert Exec(t, ops[..1]) == Both(map[b := t[b]], t);
      assert SameKey(t[a], ops[1].p);
      assert Slips(Exec(t, ops[..1]), ops[1]);
      PruningInvisibleIff(t, ops);
    }
  }

  lemma PrunedKeyIsFree(t: Table, a: Id, b: Id, at: Time)
    requires a != b && t.Keys == {a, b} && t[a].captured == at && t[b].captured == at + 1 && SameDevice(t[a], t[b])
    ensures Pruned(t, [Rule(None, at + 1)]) == map[b := t[b]]
  {
    var rules := [Rule(None, at + 1)];
    assert rules[0] in rules && Covers(rules[0], t[a]) && Newer(t[b], t[a]);
    assert forall r <- rules :: !Covers(r, t[b]);
  }

  // ---------------------------------------------------------------- the worker's passes

  function OpsOf(pass: R.Pass, maxDays: int, pingHours: int): seq<Op>
    requires pass.Complete()
  {
    (if pass.horizonFails then [] else [Horizon(pass.now - maxDays * R.DAY)]) + [Prune(R.PruneRules(pass, pingHours))]
  }

  lemma {:induction false} ExecTwoMore(t: Table, a: seq<Op>, b: seq<Op>, n: nat)
    requires |b| == n <= 2
    ensures n == 0 ==> Exec(t, a + b) == Exec(t, a)
    ensures n == 1 ==> Exec(t, a + b) == Next(Exec(t, a), b[0])
    ensures n == 2 ==> Exec(t, a + b) == Next(Next(Exec(t, a), b[0]), b[1])
  {
    if n == 0 {
      assert a + b == a;
    } else {
      ExecTwoMore(t, a, b[..n - 1], n - 1);
      assert (a + b)[..|a + b| - 1] == a + b[..n - 1];
    }
  }

  /** A pass of the worker is a horizon deletion, unless it fails, and a prune with the rules that went through. */
  lemma PassIsOps(t: Table, ops: seq<Op>, pass: R.Pass, maxDays: int, pingHours: int)
    requires pass.Complete()
    ensures Exec(t, ops + OpsOf(pass, maxDays, pingHours)).pruned == R.AfterPass(Exec(t, ops).pruned, pass, maxDays, pingHours)
  {
    ExecTwoMore(t, ops, OpsOf(pass, maxDays, pingHours), |OpsOf(pass, maxDays, pingHours)|);
  }
}
