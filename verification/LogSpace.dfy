// begin_op's reservation against log_write's guard: when operations that keep their
// MAXOPBLOCKS promise can still meet the panic "too big a transaction".

module LogSpace {
  import opened DiskBlocks
  import opened LogCache
  import opened RedoLog

  /** cap is LOGSIZE; limit is the header length at which log_write panics. */
  datatype Params = Params(cap: nat, maxop: nat, limit: nat)

  /** The blocks in the header, and the blocks each open operation has logged. */
  datatype Space = Space(header: seq<int>, ops: map<Op, seq<int>>)

  const EMPTY := Space([], map[])

  ghost predicate Begin(p: Params, s: Space, t: Space, op: Op) {
    op !in s.ops && |s.header| + (|s.ops| + 1) * p.maxop <= p.cap && t == s.(ops := s.ops[op := []])
  }

  /** An open operation may log b and stay within its promise: a new block, one another
      operation has logged, or one it has logged itself. */
  ghost predicate MayLog(p: Params, s: Space, op: Op, b: int) {
    op in s.ops && |Absorb(s.ops[op], b)| <= p.maxop
  }

  /** log_write of b; a block already in the header is absorbed, but only past the guard. */
  ghost predicate Write(p: Params, s: Space, t: Space, op: Op, b: int) {
    MayLog(p, s, op, b) && |s.header| < p.limit && t == Space(Absorb(s.header, b), s.ops[op := Absorb(s.ops[op], b)])
  }

  /** end_op; the last one commits and empties the header. */
  ghost predicate End(p: Params, s: Space, t: Space, op: Op) {
    op in s.ops && t == (if s.ops - {op} == map[] then EMPTY else Space(s.header, s.ops - {op}))
  }

  ghost predicate Step(p: Params, s: Space, t: Space, op: Op, b: int) {
    Begin(p, s, t, op) || Write(p, s, t, op, b) || End(p, s, t, op)
  }

  ghost predicate Next(p: Params, s: Space, t: Space) {
    exists op: Op, b: int :: Step(p, s, t, op, b)
  }

  ghost predicate IsRun(p: Params, ss: seq<Space>) {
    && |ss| > 0 && ss[0] == EMPTY
    && forall k :: 0 < k < |ss| ==> Next(p, ss[k - 1], ss[k])
  }

  ghost predicate Reachable(p: Params, s: Space) {
    exists ss :: IsRun(p, ss) && ss[|ss| - 1] == s
  }

  /** Some operation within its promise calls log_write, and log_write panics. */
  ghost predicate Panics(p: Params, s: Space) {
    |s.header| >= p.limit && exists op: Op, b: int :: MayLog(p, s, op, b)
  }

  ghost predicate NeverPanics(p: Params) {
    forall s :: Reachable(p, s) ==> !Panics(p, s)
  }

  // ---------------------------------------------------------------- what every run keeps

  ghost function Counts(ops: map<Op, seq<int>>): (c: map<Op, nat>) {
    map o | o in ops :: |ops[o]|
  }

  /** Slots in use plus slots still promised fit the header. */
  ghost predicate Reserved(p: Params, s: Space) {
    && (forall o :: o in s.ops ==> |s.ops[o]| <= p.maxop)
    && |s.header| + Unused(Counts(s.ops), p.maxop) <= p.cap
  }

  ghost predicate Within(a: seq<int>, h: seq<int>) {
    forall b :: b in a ==> b in h
  }

  /** What an operation has logged is in the header; a header too small for two operations
      admits one at a time. */
  ghost predicate Alone(p: Params, s: Space) {
    && (forall o :: o in s.ops ==> Within(s.ops[o], s.header))
    && (p.cap < 2 * p.maxop ==> forall o :: o in s.ops ==> s.ops == map[o := s.header])
    && (p.cap < p.maxop ==> s.ops == map[])
    && (s.ops == map[] ==> s.header == [])
  }

  lemma ReservedBegin(p: Params, s: Space, t: Space, op: Op)
    requires Reserved(p, s) && Begin(p, s, t, op)
    ensures Reserved(p, t)
  {
    UnusedBounds(Counts(s.ops), p.maxop);
    UnusedRemove(Counts(t.ops), p.maxop, op);
    assert Counts(t.ops) - {op} == Counts(s.ops);
    assert Counts(s.ops).Keys == s.ops.Keys;
    TimesSucc(|s.ops|, p.maxop);
  }

  lemma ReservedWrite(p: Params, s: Space, t: Space, op: Op, b: int)
    requires Reserved(p, s) && Write(p, s, t, op, b) && Within(s.ops[op], s.header)
    ensures Reserved(p, t)
  {
    UnusedRemove(Counts(s.ops), p.maxop, op);
    UnusedRemove(Counts(t.ops), p.maxop, op);
    assert Counts(t.ops) - {op} == Counts(s.ops) - {op};
  }

  lemma ReservedEnd(p: Params, s: Space, t: Space, op: Op)
    requires Reserved(p, s) && End(p, s, t, op)
    ensures Reserved(p, t)
  {
    UnusedRemove(Counts(s.ops), p.maxop, op);
    assert Counts(s.ops - {op}) == Counts(s.ops) - {op};
    assert s.ops - {op} == map[] ==> Counts(t.ops) == map[];
  }

  lemma ReservedNext(p: Params, s: Space, t: Space)
    requires Reserved(p, s) && Alone(p, s) && Next(p, s, t)
    ensures Reserved(p, t)
  {
    var op: Op, b: int :| Step(p, s, t, op, b);
    if Begin(p, s, t, op) {
      ReservedBegin(p, s, t, op);
    } else if Write(p, s, t, op, b) {
      ReservedWrite(p, s, t, op, b);
    } else {
      ReservedEnd(p, s, t, op);
    }
  }

  lemma AtLeast(k: nat, j: nat, m: nat)
    requires j <= k
    ensures j * m <= k * m
  {
  }

  lemma AloneBegin(p: Params, s: Space, t: Space, op: Op)
    requires Alone(p, s) && Begin(p, s, t, op)
    ensures Alone(p, t)
  {
    AtLeast(|s.ops| + 1, 1, p.maxop);
    if s.ops == map[] {
      assert t.ops == map[op := []];
    } else {
      assert |s.ops| >= 1 by { var o :| o in s.ops; }
      AtLeast(|s.ops| + 1, 2, p.maxop);
    }
  }

  lemma AloneWrite(p: Params, s: Space, t: Space, op: Op, b: int)
    requires Alone(p, s) && Write(p, s, t, op, b)
    ensures Alone(p, t)
  {
    if p.cap < 2 * p.maxop {
      assert s.ops == map[op := s.header];
      assert t.ops == map[op := t.header];
    }
  }

  lemma AloneNext(p: Params, s: Space, t: Space)
    requires Alone(p, s) && Next(p, s, t)
    ensures Alone(p, t)
  {
    var op: Op, b: int :| Step(p, s, t, op, b);
    if Begin(p, s, t, op) {
      AloneBegin(p, s, t, op);
    } else if Write(p, s, t, op, b) {
      AloneWrite(p, s, t, op, b);
    } else if p.cap < 2 * p.maxop {
      assert s.ops == map[op := s.header];
      assert s.ops - {op} == map[];
    }
  }

  lemma {:induction false} RunReserved(p: Params, ss: seq<Space>)
    requires IsRun(p, ss)
    ensures Reserved(p, ss[|ss| - 1]) && Alone(p, ss[|ss| - 1])
  {
    if |ss| > 1 {
      RunReserved(p, ss[..|ss| - 1]);
      ReservedNext(p, ss[|ss| - 2], ss[|ss| - 1]);
      AloneNext(p, ss[|ss| - 2], ss[|ss| - 1]);
    }
  }

  /** The most slots ever used while an operation is open, when any can be. */
  function Most(p: Params): (k: nat) {
    if p.cap < 2 * p.maxop then p.maxop else p.cap
  }

  /** No operation may log anything, or none is ever let in, or the guard is out of reach. */
  predicate OutOfReach(p: Params) {
    p.maxop == 0 || p.cap < p.maxop || Most(p) < p.limit
  }

  lemma NeverMet(p: Params, s: Space)
    requires Reachable(p, s) && OutOfReach(p)
    ensures !Panics(p, s)
  {
    var ss :| IsRun(p, ss) && ss[|ss| - 1] == s;
    RunReserved(p, ss);
    UnusedBounds(Counts(s.ops), p.maxop);
    forall op: Op, b: int | MayLog(p, s, op, b) ensures |s.header| < p.limit {
      assert p.cap < 2 * p.maxop ==> s.ops[op] == s.header;
    }
  }

  // ---------------------------------------------------------------- the runs that do panic

  lemma Start(p: Params)
    ensures Reachable(p, EMPTY)
  {
    assert IsRun(p, [EMPTY]);
  }

  lemma Extend(p: Params, s: Space, t: Space, op: Op, b: int)
    requires Reachable(p, s) && Step(p, s, t, op, b)
    ensures Reachable(p, t)
  {
    var ss :| IsRun(p, ss) && ss[|ss| - 1] == s;
    var tt := ss + [t];
    assert Next(p, s, t);
    assert IsRun(p, tt) && tt[|tt| - 1] == t;
  }

  /** Block numbers lo up to hi. */
  function Between(lo: nat, hi: nat): (r: seq<int>)
    ensures forall b :: b in r ==> lo <= b < hi
    ensures lo <= hi ==> |r| == hi - lo
  {
    if hi <= lo then [] else Between(lo, hi - 1) + [hi - 1]
  }

  lemma Opens(p: Params, h: seq<int>, ops: map<Op, seq<int>>, op: Op)
    requires Reachable(p, Space(h, ops)) && op !in ops && |h| + (|ops| + 1) * p.maxop <= p.cap
    ensures Reachable(p, Space(h, ops[op := []]))
  {
    var s, t := Space(h, ops), Space(h, ops[op := []]);
    assert Begin(p, s, t, op);
    Extend(p, s, t, op, 0);
  }

  lemma Logs(p: Params, h: seq<int>, ops: map<Op, seq<int>>, op: Op, b: int)
    requires Reachable(p, Space(h, ops)) && op in ops && |Absorb(ops[op], b)| <= p.maxop && |h| < p.limit
    ensures Reachable(p, Space(Absorb(h, b), ops[op := Absorb(ops[op], b)]))
  {
    var s, t := Space(h, ops), Space(Absorb(h, b), ops[op := Absorb(ops[op], b)]);
    assert Write(p, s, t, op, b);
    Extend(p, s, t, op, b);
  }

  lemma Closes(p: Params, h: seq<int>, ops: map<Op, seq<int>>, op: Op)
    requires Reachable(p, Space(h, ops)) && op in ops && ops - {op} != map[]
    ensures Reachable(p, Space(h, ops - {op}))
  {
    var s, t := Space(h, ops), Space(h, ops - {op});
    assert End(p, s, t, op);
    Extend(p, s, t, op, 0);
  }

  /** What operation 0 finds when it has just begun. */
  function JustOne(): (ops: map<Op, seq<int>>)
    ensures |ops| == 1
  {
    map[0 := []]
  }

  lemma FirstOpens(p: Params)
    requires p.maxop <= p.cap
    ensures Reachable(p, Space(Between(0, 0), JustOne()))
  {
    Start(p);
    assert EMPTY.ops[0 := []] == JustOne();
    Opens(p, [], map[], 0);
  }

  /** While operation 0 stays open, operation 1 leaves one block behind. */
  lemma ShortOp(p: Params, k: nat)
    requires 0 < p.maxop && k + 2 * p.maxop <= p.cap < p.limit && Reachable(p, Space(Between(0, k), JustOne()))
    ensures Reachable(p, Space(Between(0, k + 1), JustOne()))
  {
    var ops := JustOne();
    Opens(p, Between(0, k), ops, 1);
    var two := ops[1 := []];
    Logs(p, Between(0, k), two, 1, k);
    var used := two[1 := Absorb([], k)];
    assert used - {1} == ops;
    Closes(p, Between(0, k + 1), used, 1);
  }

  lemma {:induction false} ShortOps(p: Params, k: nat)
    requires 0 < p.maxop && k + 2 * p.maxop <= p.cap < p.limit
    ensures Reachable(p, Space(Between(0, k), JustOne()))
  {
    if k == 0 {
      FirstOpens(p);
    } else {
      ShortOps(p, k - 1);
      ShortOp(p, k - 1);
    }
  }

  /** An operation that found blocks 0..n in the header has logged the next j. */
  function Wrote(n: nat, ops: map<Op, seq<int>>, op: Op, j: nat): (s: Space) {
    Space(Between(0, n + j), ops[op := Between(n, n + j)])
  }

  lemma WritesNext(p: Params, n: nat, ops: map<Op, seq<int>>, op: Op, j: nat)
    requires Reachable(p, Wrote(n, ops, op, j)) && j < p.maxop && n + j < p.limit
    ensures Reachable(p, Wrote(n, ops, op, j + 1))
  {
    var now := ops[op := Between(n, n + j)];
    assert Between(0, n + j + 1) == Absorb(Between(0, n + j), n + j);
    assert Between(n, n + j + 1) == Absorb(now[op], n + j);
    Logs(p, Between(0, n + j), now, op, n + j);
    assert now[op := Between(n, n + j + 1)] == ops[op := Between(n, n + j + 1)];
  }

  lemma {:induction false} Writes(p: Params, n: nat, ops: map<Op, seq<int>>, op: Op, j: nat)
    requires Reachable(p, Space(Between(0, n), ops)) && op in ops && ops[op] == [] && j <= p.maxop && n + j <= p.limit
    ensures Reachable(p, Wrote(n, ops, op, j))
  {
    if j == 0 {
      assert Wrote(n, ops, op, 0) == Space(Between(0, n), ops);
    } else {
      Writes(p, n, ops, op, j - 1);
      WritesNext(p, n, ops, op, j - 1);
    }
  }

  /** Operation 0 has logged its last block, and may log it again. */
  lemma LastBlock(p: Params, n: nat, ops: map<Op, seq<int>>) returns (s: Space, b: int)
    requires Reachable(p, Space(Between(0, n), ops)) && 0 in ops && ops[0] == []
    requires 0 < p.maxop && n + p.maxop <= p.limit
    ensures Reachable(p, s) && |s.header| == n + p.maxop && MayLog(p, s, 0, b)
  {
    var m := p.maxop;
    Writes(p, n, ops, 0, m);
    s, b := Wrote(n, ops, 0, m), n + m - 1;
    assert b in s.ops[0];
  }

  /** The header as full as it gets with an operation open that may still call log_write. */
  lemma FullHeader(p: Params) returns (s: Space, b: int)
    requires 0 < p.maxop <= p.cap < p.limit
    ensures Reachable(p, s) && |s.header| == Most(p) && MayLog(p, s, 0, b)
  {
    var m := p.maxop;
    if p.cap < 2 * m {
      FirstOpens(p);
      s, b := LastBlock(p, 0, JustOne());
    } else {
      var k := p.cap - 2 * m;
      ShortOps(p, k);
      Opens(p, Between(0, k), JustOne(), 1);
      var two := JustOne()[1 := []];
      Writes(p, k, two, 1, m);
      s, b := LastBlock(p, k + m, two[1 := Between(k, k + m)]);
    }
  }

  /** A run of a machine with another guard is a run of this one, or this one panics on the way. */
  lemma {:induction false} SameUntilPanic(p: Params, limit: nat, ss: seq<Space>)
    requires IsRun(p.(limit := limit), ss)
    ensures IsRun(p, ss) || !NeverPanics(p)
  {
    if |ss| > 1 {
      var n := |ss| - 1;
      SameUntilPanic(p, limit, ss[..n]);
      if IsRun(p, ss[..n]) {
        var s, t := ss[n - 1], ss[n];
        assert s == ss[..n][|ss[..n]| - 1] && Reachable(p, s);
        assert Next(p.(limit := limit), s, t);
        var op: Op, b: int :| Step(p.(limit := limit), s, t, op, b);
        if Write(p.(limit := limit), s, t, op, b) && |s.header| >= p.limit {
          assert MayLog(p, s, op, b) && Panics(p, s);
        } else {
          assert Step(p, s, t, op, b) && Next(p, s, t);
        }
      }
    }
  }

  /** Operations that keep their promise never meet the panic exactly when it is out of reach. */
  lemma GuardExact(p: Params)
    ensures NeverPanics(p) <==> OutOfReach(p)
  {
    if OutOfReach(p) {
      forall s | Reachable(p, s) ensures !Panics(p, s) {
        NeverMet(p, s);
      }
    } else {
      var q := p.(limit := p.cap + 1);
      var s, b := FullHeader(q);
      var ss :| IsRun(q, ss) && ss[|ss| - 1] == s;
      SameUntilPanic(p, q.limit, ss);
      if IsRun(p, ss) {
        assert Reachable(p, s) && MayLog(p, s, 0, b) && Panics(p, s);
      }
    }
  }

  /** The guard log_write has: the smaller of LOGSIZE and the log's entries on disk. Only a
      header between one and two operations long, with enough log behind it, is safe. */
  lemma SourceGuard(g: Geometry, maxop: nat)
    ensures NeverPanics(Params(g.cap, maxop, g.Limit())) <==>
              maxop == 0 || g.cap < maxop || (maxop < g.cap < 2 * maxop && maxop + 1 < g.size)
  {
    GuardExact(Params(g.cap, maxop, g.Limit()));
  }

  /** With room for two operations the panic is reachable however long the log is. */
  lemma RoomForTwoPanics(g: Geometry, maxop: nat)
    requires 0 < 2 * maxop <= g.cap
    ensures exists s :: Reachable(Params(g.cap, maxop, g.Limit()), s) && Panics(Params(g.cap, maxop, g.Limit()), s)
  {
    SourceGuard(g, maxop);
  }

  /** LOGSIZE 30, MAXOPBLOCKS 10, and mkfs's 30 log blocks, of which one is the header. */
  lemma ShippedSizesPanic()
    ensures var g := Geometry(2, 30, 30, 2000);
            g.Limit() == 29 && exists s :: Reachable(Params(30, 10, 29), s) && Panics(Params(30, 10, 29), s)
  {
    RoomForTwoPanics(Geometry(2, 30, 30, 2000), 10);
  }
}
