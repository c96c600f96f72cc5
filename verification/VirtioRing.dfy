// The ring buffers and descriptor chains of kernel/virtio_disk.c as values: what the
// driver and the device agree on (sections 2.6 and 5.2 of virtio 1.1).

module VirtioRing {
  datatype Option<T> = None | Some(value: T)

  /** Indices are uint16 and wrap at this; the ring size must divide it. */
  const WRAP: nat := 65536

  // Descriptor flags.
  const NEXT: nat := 1
  const WRITE: nat := 2

  const BSIZE: nat := 1024
  const REQSIZE: nat := 16

  // ---------------------------------------------------------------- rings

  predicate GoodSize(n: nat) { n > 0 && WRAP % n == 0 }

  function Slot(n: nat, x: nat): (k: nat)
    requires n > 0
    ensures k < n
  {
    x % WRAP % n
  }

  lemma MulAtLeast(n: nat, t: int)
    requires t >= 1
    ensures n * t >= n
    decreases t
  {
    if t > 1 {
      MulAtLeast(n, t - 1);
      assert n * t == n * (t - 1) + n;
    }
  }

  /** A remainder is determined by being one. */
  lemma ModUnique(n: nat, x: nat, q: int, r: nat)
    requires n > 0 && x == n * q + r && r < n
    ensures x % n == r
  {
    var p := x / n;
    assert x == n * p + x % n;
    assert n * (p - q) == n * p - n * q && n * (q - p) == n * q - n * p;
    if p > q {
      MulAtLeast(n, p - q);
    } else if q > p {
      MulAtLeast(n, q - p);
    }
  }

  /** Wrapping the index at 65536 does not disturb the ring position. */
  lemma SlotIsMod(n: nat, x: nat)
    requires GoodSize(n)
    ensures Slot(n, x) == x % n
  {
    var q, t, r := WRAP / n, x / WRAP, x % WRAP;
    assert WRAP == n * q;
    assert x == WRAP * t + r && r == n * (r / n) + r % n;
    assert WRAP * t == n * (q * t);
    assert n * (q * t) + n * (r / n) == n * (q * t + r / n);
    ModUnique(n, x, q * t + r / n, r % n);
  }

  /** Positions less than a ring apart are different slots. */
  lemma SlotsDiffer(n: nat, x: nat, d: nat)
    requires GoodSize(n) && 0 < d < n
    ensures Slot(n, x + d) != Slot(n, x)
  {
    SlotIsMod(n, x);
    SlotIsMod(n, x + d);
    NotCongruent(n, x, d);
  }

  lemma NotCongruent(n: nat, x: nat, d: nat)
    requires 0 < d < n
    ensures (x + d) % n != x % n
  {
    var p, q := x / n, (x + d) / n;
    assert x == n * p + x % n && x + d == n * q + (x + d) % n;
    assert n * (q - p) == n * q - n * p && n * (p - q + 1) == n * p - n * q + n;
    if q - p >= 1 {
      MulAtLeast(n, q - p);
    } else {
      MulAtLeast(n, p - q + 1);
    }
  }

  lemma SlotCong(n: nat, x: nat, y: nat)
    requires n > 0 && x % WRAP == y % WRAP
    ensures Slot(n, x) == Slot(n, y)
  {
  }

  /** Entries from `head` up to `tail`, both wrapped, hold q in order. */
  ghost predicate RingOk(n: nat, ring: seq<nat>, head: nat, tail: nat, q: seq<nat>) {
    && n > 0 && |ring| == n && |q| <= n && head < WRAP && tail == (head + |q|) % WRAP
    && forall k: nat {:trigger q[k]} :: k < |q| ==> ring[Slot(n, head + k)] == q[k]
  }

  /** The two indices tell an empty ring from any other. */
  lemma EmptyRing(n: nat, ring: seq<nat>, head: nat, tail: nat, q: seq<nat>)
    requires RingOk(n, ring, head, tail, q) && n < WRAP
    ensures head == tail <==> q == []
  {
  }

  lemma PushAt(n: nat, ring: seq<nat>, head: nat, tail: nat, q: seq<nat>, x: nat, k: nat)
    requires GoodSize(n) && RingOk(n, ring, head, tail, q) && |q| < n && k <= |q|
    ensures ring[Slot(n, tail) := x][Slot(n, head + k)] == if k < |q| then q[k] else x
  {
    SlotCong(n, head + |q|, tail);
    if k < |q| {
      SlotsDiffer(n, head + k, |q| - k);
      assert head + k + (|q| - k) == head + |q|;
    }
  }

  /** Adding an entry overwrites none that has yet to be read. */
  lemma PushRing(n: nat, ring: seq<nat>, head: nat, tail: nat, q: seq<nat>, x: nat)
    requires GoodSize(n) && RingOk(n, ring, head, tail, q) && |q| < n
    ensures RingOk(n, ring[Slot(n, tail) := x], head, (tail + 1) % WRAP, q + [x])
  {
    var ring2, q2 := ring[Slot(n, tail) := x], q + [x];
    forall k: nat | k < |q2| ensures ring2[Slot(n, head + k)] == q2[k] {
      PushAt(n, ring, head, tail, q, x, k);
    }
    WrapSucc(head + |q|);
  }

  lemma WrapSucc(x: nat)
    ensures (x % WRAP + 1) % WRAP == (x + 1) % WRAP
  {
  }

  lemma WrapAdd(x: nat, k: nat)
    ensures ((x + 1) % WRAP + k) % WRAP == (x + (k + 1)) % WRAP
  {
  }

  lemma PopSlot(n: nat, head: nat, k: nat)
    requires n > 0
    ensures Slot(n, (head + 1) % WRAP + k) == Slot(n, head + (k + 1))
  {
    WrapAdd(head, k);
    SlotCong(n, (head + 1) % WRAP + k, head + (k + 1));
  }

  /** Reading the oldest entry. */
  lemma PopRing(n: nat, ring: seq<nat>, head: nat, tail: nat, q: seq<nat>)
    requires RingOk(n, ring, head, tail, q) && q != []
    ensures ring[Slot(n, head)] == q[0] && RingOk(n, ring, (head + 1) % WRAP, tail, q[1..])
  {
    assert head + 0 == head;
    var q2 := q[1..];
    forall k: nat | k < |q2| ensures ring[Slot(n, (head + 1) % WRAP + k)] == q2[k] {
      PopSlot(n, head, k);
      assert q2[k] == q[k + 1];
    }
    WrapAdd(head, |q2|);
  }

  // ---------------------------------------------------------------- chains

  datatype Addr = Null | Op(i: nat) | Data(b: nat) | Status(i: nat)

  datatype Desc = Desc(addr: Addr, len: nat, flags: nat, next: nat)

  const CLEAR := Desc(Null, 0, 0, 0)

  /** A block command header. */
  datatype Command = Command(write: bool, sector: nat)

  datatype Phase = Queued | Flying | Done | Cleared

  /** A request under way: its buffer, its command, its other two descriptors, how far it is. */
  datatype Req = Req(b: nat, cmd: Command, mid: nat, tail: nat, phase: Phase)

  type Reqs = map<nat, Req>

  predicate InChain(r: Req, h: nat, i: nat) { i == h || i == r.mid || i == r.tail }

  /** What the device reads when it follows the chain from h: header, data, status. */
  ghost predicate Describes(desc: seq<Desc>, ops: seq<Command>, info: seq<Option<nat>>, h: nat, r: Req) {
    && h < |desc| && r.mid < |desc| && r.tail < |desc| && |ops| == |desc| && |info| == |desc|
    && h != r.mid && h != r.tail && r.mid != r.tail
    && desc[h] == Desc(Op(h), REQSIZE, NEXT, r.mid) && ops[h] == r.cmd
    && desc[r.mid] == Desc(Data(r.b), BSIZE, if r.cmd.write then NEXT else WRITE + NEXT, r.tail)
    && desc[r.tail] == Desc(Status(h), 1, WRITE, 0)
    && info[h] == Some(r.b)
  }

  /** own[i] is the head of the chain descriptor i is part of. */
  datatype Chains = Chains(free: seq<bool>, desc: seq<Desc>, ops: seq<Command>, info: seq<Option<nat>>,
    own: seq<Option<nat>>, reqs: Reqs)

  ghost predicate DescOk(s: Chains, i: nat)
    requires |s.free| == |s.desc| == |s.own| && i < |s.free|
  {
    && (s.free[i] <==> s.own[i] == None) && (s.free[i] ==> s.desc[i] == CLEAR)
    && (s.own[i].Some? ==> s.own[i].value in s.reqs && InChain(s.reqs[s.own[i].value], s.own[i].value, i))
  }

  ghost predicate ReqOk(s: Chains, h: nat)
    requires h in s.reqs
  {
    var r := s.reqs[h];
    && Describes(s.desc, s.ops, s.info, h, r) && |s.own| == |s.desc|
    && s.own[h] == Some(h) && s.own[r.mid] == Some(h) && s.own[r.tail] == Some(h)
  }

  function Count(free: seq<bool>): (c: nat) {
    if free == [] then 0 else Count(free[..|free| - 1]) + if free[|free| - 1] then 1 else 0
  }

  ghost predicate ChainsOk(s: Chains) {
    && |s.free| == |s.desc| == |s.own| == |s.ops| == |s.info|
    && (forall i: nat {:trigger DescOk(s, i)} :: i < |s.free| ==> DescOk(s, i))
    && (forall h: nat {:trigger ReqOk(s, h)} :: h in s.reqs ==> ReqOk(s, h))
    && Count(s.free) + 3 * |s.reqs| == |s.free|
  }

  /** Live chains are disjoint triples of descriptors in use. */
  lemma ChainsDisjoint(s: Chains, h: nat, k: nat, i: nat)
    requires ChainsOk(s) && h in s.reqs && k in s.reqs && InChain(s.reqs[h], h, i) && InChain(s.reqs[k], k, i)
    ensures h == k && i < |s.free| && !s.free[i]
  {
    assert ReqOk(s, h) && ReqOk(s, k) && DescOk(s, i);
  }

  lemma {:induction false} CountSet(free: seq<bool>, i: nat, v: bool)
    requires i < |free| && free[i] != v
    ensures Count(free[i := v]) == Count(free) + if v then 1 else -1
  {
    var last := |free| - 1;
    if i < last {
      CountSet(free[..last], i, v);
      assert free[i := v][..last] == free[..last][i := v];
    } else {
      assert free[i := v][..last] == free[..last];
    }
  }

  // ---------------------------------------------------------------- queues of heads

  /** The heads waiting in one place: requests in that phase, each once. */
  ghost predicate QueueOk(reqs: Reqs, q: seq<nat>, phase: Phase) {
    && (forall k: nat {:trigger q[k]} :: k < |q| ==> q[k] in reqs && reqs[q[k]].phase == phase)
    && forall j: nat, k: nat :: j < k < |q| ==> q[j] != q[k]
  }

  predicate Waits(q: seq<nat>, h: nat) { h in q }

  /** Every request in that phase waits there. */
  ghost predicate NoneLost(reqs: Reqs, q: seq<nat>, phase: Phase) {
    forall h: nat {:trigger Waits(q, h)} :: h in reqs && reqs[h].phase == phase ==> Waits(q, h)
  }

  lemma {:induction false} QueueFits(reqs: Reqs, q: seq<nat>, phase: Phase)
    requires QueueOk(reqs, q, phase)
    ensures |q| <= |reqs|
  {
    if q != [] {
      var last := q[|q| - 1];
      var rest := reqs - {last};
      var front := q[..|q| - 1];
      forall k: nat | k < |front| ensures front[k] in rest && rest[front[k]].phase == phase {
        assert front[k] == q[k] && q[k] != last;
      }
      QueueFits(rest, front, phase);
      assert reqs.Keys == rest.Keys + {last};
      assert |reqs| == |reqs.Keys| && |rest| == |rest.Keys|;
    }
  }

  // ---------------------------------------------------------------- a chain is built and freed

  /** The chains after virtio_disk_rw has filled in descriptors i, j, k for buffer b. */
  function Built(s: Chains, b: nat, cmd: Command, i: nat, j: nat, k: nat): (r: Chains)
    requires |s.free| == |s.desc| == |s.own| == |s.ops| == |s.info| && i < |s.free| && j < |s.free| && k < |s.free|
  {
    Chains(
      s.free[i := false][j := false][k := false],
      s.desc[i := Desc(Op(i), REQSIZE, NEXT, j)]
        [j := Desc(Data(b), BSIZE, if cmd.write then NEXT else WRITE + NEXT, k)][k := Desc(Status(i), 1, WRITE, 0)],
      s.ops[i := cmd], s.info[i := Some(b)],
      s.own[i := Some(i)][j := Some(i)][k := Some(i)],
      s.reqs[i := Req(b, cmd, j, k, Queued)])
  }

  ghost predicate ThreeFree(s: Chains, i: nat, j: nat, k: nat) {
    && |s.free| == |s.desc| == |s.own| == |s.ops| == |s.info| && i < |s.free| && j < |s.free| && k < |s.free|
    && i != j && i != k && j != k && s.free[i] && s.free[j] && s.free[k]
  }

  lemma BuiltReq(s: Chains, b: nat, cmd: Command, i: nat, j: nat, k: nat, h: nat)
    requires ChainsOk(s) && ThreeFree(s, i, j, k) && h in Built(s, b, cmd, i, j, k).reqs
    ensures ReqOk(Built(s, b, cmd, i, j, k), h)
  {
    if h != i {
      assert ReqOk(s, h);
      assert DescOk(s, i) && DescOk(s, j) && DescOk(s, k);
    }
  }

  lemma BuiltDesc(s: Chains, b: nat, cmd: Command, i: nat, j: nat, k: nat, d: nat)
    requires ChainsOk(s) && ThreeFree(s, i, j, k) && d < |s.free|
    ensures DescOk(Built(s, b, cmd, i, j, k), d)
  {
    assert DescOk(s, d) && DescOk(s, i);
    assert s.own[i] == None && (i in s.reqs ==> ReqOk(s, i));
  }

  lemma BuiltOk(s: Chains, b: nat, cmd: Command, i: nat, j: nat, k: nat)
    requires ChainsOk(s) && ThreeFree(s, i, j, k)
    ensures ChainsOk(Built(s, b, cmd, i, j, k)) && i !in s.reqs
  {
    var r := Built(s, b, cmd, i, j, k);
    forall d: nat | d < |r.free| ensures DescOk(r, d) {
      BuiltDesc(s, b, cmd, i, j, k, d);
    }
    forall h: nat | h in r.reqs ensures ReqOk(r, h) {
      BuiltReq(s, b, cmd, i, j, k, h);
    }
    assert i !in s.reqs by {
      assert DescOk(s, i) && (i in s.reqs ==> ReqOk(s, i));
    }
    CountSet(s.free, i, false);
    CountSet(s.free[i := false], j, false);
    CountSet(s.free[i := false][j := false], k, false);
    assert r.reqs.Keys == s.reqs.Keys + {i};
    assert |r.reqs| == |r.reqs.Keys| && |s.reqs| == |s.reqs.Keys|;
  }

  /** The chains after free_chain(h): its three descriptors, and no other, are free and clear. */
  function Unchained(s: Chains, h: nat): (r: Chains)
    requires h in s.reqs && |s.free| == |s.desc| == |s.own| == |s.ops| == |s.info|
    requires h < |s.free| && s.reqs[h].mid < |s.free| && s.reqs[h].tail < |s.free|
  {
    var j, k := s.reqs[h].mid, s.reqs[h].tail;
    Chains(s.free[h := true][j := true][k := true], s.desc[h := CLEAR][j := CLEAR][k := CLEAR], s.ops,
      s.info[h := None],
           s.own[h := None][j := None][k := None], s.reqs - {h})
  }

  lemma UnchainedDesc(s: Chains, h: nat, d: nat)
    requires ChainsOk(s) && h in s.reqs && ReqOk(s, h) && d < |s.free|
    ensures DescOk(Unchained(s, h), d)
  {
    assert DescOk(s, d);
  }

  lemma UnchainedReq(s: Chains, h: nat, g: nat)
    requires ChainsOk(s) && h in s.reqs && ReqOk(s, h) && g in s.reqs && g != h
    ensures ReqOk(Unchained(s, h), g)
  {
    assert ReqOk(s, g);
  }

  lemma UnchainedOk(s: Chains, h: nat)
    requires ChainsOk(s) && h in s.reqs && ReqOk(s, h)
    ensures ChainsOk(Unchained(s, h))
  {
    var r := Unchained(s, h);
    var j, k := s.reqs[h].mid, s.reqs[h].tail;
    forall d: nat | d < |r.free| ensures DescOk(r, d) {
      UnchainedDesc(s, h, d);
    }
    forall g: nat | g in r.reqs ensures ReqOk(r, g) {
      UnchainedReq(s, h, g);
    }
    assert DescOk(s, h) && DescOk(s, j) && DescOk(s, k);
    CountSet(s.free, h, true);
    CountSet(s.free[h := true], j, true);
    CountSet(s.free[h := true][j := true], k, true);
    assert s.reqs.Keys == r.reqs.Keys + {h};
    assert |r.reqs| == |r.reqs.Keys| && |s.reqs| == |s.reqs.Keys|;
  }

  // ---------------------------------------------------------------- the whole disk

  datatype State = State(
    n: nat, ch: Chains, status: seq<nat>, busy: set<nat>,
    avail: seq<nat>, taken: nat, availIdx: nat, used: seq<nat>, seen: nat, usedIdx: nat,
    queued: seq<nat>, done: seq<nat>)

  /** b->disk is set exactly for the buffers of requests not yet completed; a finished one succeeded. */
  ghost predicate BufsOk(s: State) {
    && |s.status| == s.n
    && (forall h: nat {:trigger s.ch.reqs[h]} :: h in s.ch.reqs ==>
          h < s.n && (s.ch.reqs[h].b in s.busy <==> s.ch.reqs[h].phase != Cleared)
            && (s.ch.reqs[h].phase == Done ==> s.status[h] == 0))
    && (forall g: nat, h: nat {:trigger s.ch.reqs[g], s.ch.reqs[h]} ::
         g in s.ch.reqs && h in s.ch.reqs && s.ch.reqs[g].b == s.ch.reqs[h].b ==> g == h)
  }

  ghost predicate Good(s: State) {
    && GoodSize(s.n) && s.n < WRAP && |s.ch.free| == s.n && ChainsOk(s.ch) && BufsOk(s)
    && RingOk(s.n, s.avail, s.taken, s.availIdx, s.queued) && RingOk(s.n, s.used, s.seen, s.usedIdx, s.done)
    && QueueOk(s.ch.reqs, s.queued, Queued) && QueueOk(s.ch.reqs, s.done, Done)
    && NoneLost(s.ch.reqs, s.queued, Queued) && NoneLost(s.ch.reqs, s.done, Done)
  }

  function SetPhase(ch: Chains, h: nat, phase: Phase): (r: Chains)
    requires h in ch.reqs
  {
    ch.(reqs := ch.reqs[h := ch.reqs[h].(phase := phase)])
  }

  lemma SetPhaseOk(ch: Chains, h: nat, phase: Phase)
    requires ChainsOk(ch) && h in ch.reqs
    ensures ChainsOk(SetPhase(ch, h, phase))
  {
    var r := SetPhase(ch, h, phase);
    assert r.reqs.Keys == ch.reqs.Keys;
    assert |r.reqs| == |r.reqs.Keys| && |ch.reqs| == |ch.reqs.Keys|;
    forall d: nat | d < |r.free| ensures DescOk(r, d) {
      assert DescOk(ch, d);
    }
    forall g: nat | g in r.reqs ensures ReqOk(r, g) {
      assert ReqOk(ch, g);
    }
  }

  /** Fewer heads wait in either ring than it has slots. */
  lemma RingsFit(s: State)
    requires Good(s)
    ensures 3 * |s.ch.reqs| <= s.n && 3 * |s.queued| <= s.n && 3 * |s.done| <= s.n
  {
    QueueFits(s.ch.reqs, s.queued, Queued);
    QueueFits(s.ch.reqs, s.done, Done);
  }
}
