// The buffer list of kernel/bio.c: a doubly linked ring in recency order.

module BufList {
  datatype Option<T> = None | Some(value: T)

  /** A buffer's key; (0, 0) until it is first used. */
  datatype Key = Key(dev: nat, blockno: nat)

  function Step(i: nat, n: nat): (j: nat)
    requires i < n
    ensures j < n
  {
    if i + 1 < n then i + 1 else 0
  }

  /** c is one cycle: every link forward is a link back. */
  ghost predicate Ring(c: seq<nat>, next: seq<nat>, prev: seq<nat>) {
    && |c| > 0 && |next| == |prev| && (forall i :: 0 <= i < |c| ==> c[i] < |next|)
    && (forall i, j :: 0 <= i < j < |c| ==> c[i] != c[j])
    && forall i: nat {:trigger LinkOk(c, next, prev, i)} :: i < |c| ==> LinkOk(c, next, prev, i)
  }

  ghost predicate LinkOk(c: seq<nat>, next: seq<nat>, prev: seq<nat>, i: nat)
    requires |next| == |prev| && i < |c| && forall k :: 0 <= k < |c| ==> c[k] < |next|
  {
    next[c[i]] == c[Step(i, |c|)] && prev[c[Step(i, |c|)]] == c[i]
  }

  /** next and prev are inverse to each other all the way round. */
  lemma MutuallyInverse(c: seq<nat>, next: seq<nat>, prev: seq<nat>, i: nat)
    requires Ring(c, next, prev) && i < |c|
    ensures prev[c[i]] < |next| && next[prev[c[i]]] == c[i] && next[c[i]] < |prev| && prev[next[c[i]]] == c[i]
  {
    assert LinkOk(c, next, prev, i);
    var k := if i > 0 then i - 1 else |c| - 1;
    assert LinkOk(c, next, prev, k);
  }

  // ---------------------------------------------------------------- unlinking and inserting

  function Without(c: seq<nat>, k: nat): (r: seq<nat>)
    requires k < |c|
    ensures |r| == |c| - 1 && forall i :: 0 <= i < |r| ==> r[i] == if i < k then c[i] else c[i + 1]
  {
    c[..k] + c[k + 1..]
  }

  /** b->next->prev = b->prev; b->prev->next = b->next. */
  lemma Unlinked(c: seq<nat>, next: seq<nat>, prev: seq<nat>, k: nat)
    requires Ring(c, next, prev) && 0 < k < |c|
    ensures next[c[k]] < |prev| && prev[c[k]] < |next|
    ensures Ring(Without(c, k), next[prev[c[k]] := next[c[k]]], prev[next[c[k]] := prev[c[k]]])
  {
    assert LinkOk(c, next, prev, k) && LinkOk(c, next, prev, k - 1);
    var r := Without(c, k);
    var next2, prev2 := next[prev[c[k]] := next[c[k]]], prev[next[c[k]] := prev[c[k]]];
    forall i: nat | i < |r| ensures LinkOk(r, next2, prev2, i) {
      UnlinkedAt(c, next, prev, k, i);
    }
    forall i, j | 0 <= i < j < |r| ensures r[i] != r[j] {
    }
  }

  lemma UnlinkedAt(c: seq<nat>, next: seq<nat>, prev: seq<nat>, k: nat, i: nat)
    requires Ring(c, next, prev) && 0 < k < |c| && i < |c| - 1
    requires LinkOk(c, next, prev, k) && LinkOk(c, next, prev, k - 1)
    ensures LinkOk(Without(c, k), next[prev[c[k]] := next[c[k]]], prev[next[c[k]] := prev[c[k]]], i)
  {
    var m := if i < k then i else i + 1;
    assert LinkOk(c, next, prev, m);
    assert prev[c[k]] == c[k - 1] && next[c[k]] == c[Step(k, |c|)];
    assert Without(c, k)[Step(i, |c| - 1)] == if i == k - 1 then c[Step(k, |c|)] else c[Step(m, |c|)];
    assert m != k - 1 ==> c[m] != c[k - 1];
    assert m != k && m != k - 1 ==> c[Step(m, |c|)] != c[Step(k, |c|)];
  }

  /** b->next = head.next; b->prev = head; head.next->prev = b; head.next = b. */
  lemma Inserted(c: seq<nat>, next: seq<nat>, prev: seq<nat>, b: nat)
    requires Ring(c, next, prev) && b < |next| && b !in c
    ensures next[c[0]] < |prev|
    ensures Ring([c[0], b] + c[1..], next[b := next[c[0]]][c[0] := b], prev[b := c[0]][next[c[0]] := b])
  {
    assert LinkOk(c, next, prev, 0);
    var r := [c[0], b] + c[1..];
    var next2, prev2 := next[b := next[c[0]]][c[0] := b], prev[b := c[0]][next[c[0]] := b];
    forall i: nat | i < |r| ensures LinkOk(r, next2, prev2, i) {
      InsertedAt(c, next, prev, b, i);
    }
    forall i, j | 0 <= i < j < |r| ensures r[i] != r[j] {
      assert r[i] == (if i == 0 then c[0] else if i == 1 then b else c[i - 1]);
      assert r[j] == (if j == 1 then b else c[j - 1]);
    }
  }

  lemma InsertedAt(c: seq<nat>, next: seq<nat>, prev: seq<nat>, b: nat, i: nat)
    requires Ring(c, next, prev) && b < |next| && b !in c && i < |c| + 1 && LinkOk(c, next, prev, 0)
    ensures LinkOk([c[0], b] + c[1..], next[b := next[c[0]]][c[0] := b], prev[b := c[0]][next[c[0]] := b], i)
  {
    var r := [c[0], b] + c[1..];
    if i >= 2 {
      assert LinkOk(c, next, prev, i - 1);
      assert r[i] == c[i - 1] && r[Step(i, |r|)] == c[Step(i - 1, |c|)];
      assert c[Step(i - 1, |c|)] != c[Step(0, |c|)];
    } else if i == 1 {
      assert r[Step(1, |r|)] == c[Step(0, |c|)];
    }
  }

  // ---------------------------------------------------------------- the cache

  /** The list as a value: head is number n, c the ring from it, stamp when each was last moved to the front. */
  datatype List = List(n: nat, next: seq<nat>, prev: seq<nat>, c: seq<nat>, stamp: seq<nat>, clock: nat)

  /** One cycle through head and every buffer, most recently moved first. */
  ghost predicate Sorted(l: List) {
    && |l.next| == l.n + 1 && |l.stamp| == l.n && |l.c| == l.n + 1 && l.c[0] == l.n && Ring(l.c, l.next, l.prev)
    && (forall b :: 0 <= b <= l.n ==> b in l.c)
    && (forall b :: 0 <= b < l.n ==> l.stamp[b] < l.clock)
    && (forall i, j :: 1 <= i < j < |l.c| ==> l.c[i] < l.n && l.c[j] < l.n && l.stamp[l.c[i]] > l.stamp[l.c[j]])
  }

  /** Where buffer b is in the ring. */
  lemma Position(l: List, b: nat) returns (k: nat)
    requires Sorted(l) && b <= l.n
    ensures k < |l.c| && l.c[k] == b && (b < l.n ==> k > 0)
  {
    assert b in l.c;
    k :| k < |l.c| && l.c[k] == b;
  }

  /** brelse's six assignments. */
  function ToFront(l: List, k: nat, next: seq<nat>, prev: seq<nat>): (r: List)
    requires 0 < k < |l.c| && l.c[k] < |l.stamp|
  {
    l.(next := next, prev := prev, c := [l.c[0], l.c[k]] + Without(l.c, k)[1..], stamp := l.stamp[l.c[k] := l.clock],
      clock := l.clock + 1)
  }

  lemma BuffersBelow(l: List, i: nat)
    requires Sorted(l) && 0 < i < |l.c|
    ensures l.c[i] < l.n
  {
    assert l.c[i] != l.c[0];
  }

  lemma ToFrontSorted(l: List, k: nat, next: seq<nat>, prev: seq<nat>)
    requires Sorted(l) && 0 < k < |l.c| && |next| == l.n + 1 && Ring([l.n, l.c[k]] + Without(l.c, k)[1..], next, prev)
    ensures l.c[k] < l.n && Sorted(ToFront(l, k, next, prev))
  {
    BuffersBelow(l, k);
    var r := ToFront(l, k, next, prev);
    forall x | 0 <= x <= l.n ensures x in r.c {
      var i := Position(l, x);
      if i == 0 {
        assert r.c[0] == x;
      } else if i == k {
        assert r.c[1] == x;
      } else if i < k {
        assert r.c[i + 1] == x;
      } else {
        assert r.c[i] == x;
      }
    }
    forall i, j | 1 <= i < j < |r.c| ensures r.c[i] < l.n && r.c[j] < l.n && r.stamp[r.c[i]] > r.stamp[r.c[j]] {
      FrontOrder(l, k, i, j);
    }
  }

  lemma FrontOrder(l: List, k: nat, i: nat, j: nat)
    requires Sorted(l) && 0 < k < |l.c| && l.c[k] < l.n && 1 <= i < j < |l.c|
    ensures var c, stamp := [l.c[0], l.c[k]] + Without(l.c, k)[1..], l.stamp[l.c[k] := l.clock];
            |c| == |l.c| && c[i] < l.n && c[j] < l.n && stamp[c[i]] > stamp[c[j]]
  {
    var c := [l.c[0], l.c[k]] + Without(l.c, k)[1..];
    var m := if j - 1 < k then j - 1 else j;
    assert c[j] == l.c[m] && m != k && m > 0;
    BuffersBelow(l, m);
    if i > 1 {
      var p := if i - 1 < k then i - 1 else i;
      assert c[i] == l.c[p] && p != k && 0 < p < m;
    }
  }

  class Bcache {
    const n: nat
    var next: seq<nat>
    var prev: seq<nat>
    var key: seq<Key>
    var valid: seq<bool>
    var refcnt: seq<int>

    ghost var c: seq<nat>
    ghost var stamp: seq<nat>
    ghost var clock: nat

    /** How many have or wait for each buffer, and how often it is pinned. */
    ghost var gets: seq<nat>
    ghost var pins: seq<nat>

    ghost function Now(): (l: List)
      reads this
    {
      List(n, next, prev, c, stamp, clock)
    }

    ghost predicate Valid()
      reads this
    {
      && Sorted(Now()) && |key| == |valid| == |refcnt| == |gets| == |pins| == n
      && (forall b :: 0 <= b < n ==> refcnt[b] == gets[b] + pins[b])
      && (forall b, d :: 0 <= b < n && 0 <= d < n && key[b] == key[d] && key[b].dev != 0 ==> b == d)
    }

    /** binit: each buffer goes in right behind head. */
    constructor (n: nat)
      ensures Valid() && this.n == n && forall b :: 0 <= b < n ==> refcnt[b] == 0 && key[b] == Key(0, 0)
    {
      this.n := n;
      next, prev := seq(n + 1, _ => n), seq(n + 1, _ => n);
      key, valid, refcnt := seq(n, _ => Key(0, 0)), seq(n, _ => false), seq(n, _ => 0);
      gets, pins := seq(n, _ => 0), seq(n, _ => 0);
      c, stamp, clock := [n], [], n;
      new;
      var b := 0;
      assert LinkOk(c, next, prev, 0);
      while b < n
        invariant 0 <= b <= n && |next| == n + 1 && |c| == b + 1 && c[0] == n && Ring(c, next, prev) && clock == n
        invariant (forall i :: 1 <= i < |c| ==> c[i] == b - i) && |stamp| == b
        invariant forall i :: 0 <= i < b ==> stamp[i] == i
        invariant |key| == |valid| == |refcnt| == |gets| == |pins| == n
        invariant forall d :: 0 <= d < n ==> refcnt[d] == gets[d] == pins[d] == 0 && key[d] == Key(0, 0)
      {
        InsertFront(b);
        stamp := stamp + [b];
        b := b + 1;
      }
      forall x | 0 <= x <= n ensures x in c {
        assert x < n ==> c[n - x] == x;
      }
    }

    /** The four assignments that put b right behind head. */
    method InsertFront(b: nat)
      requires Ring(c, next, prev) && c[0] == n && b < |next| && b !in c
      modifies `next, `prev, `c
      ensures Ring(c, next, prev) && c == [n, b] + old(c)[1..] && |next| == |old(next)|
      ensures LinkOk(old(c), old(next), old(prev), 0)
      ensures next == old(next)[b := old(next)[n]][n := b] && prev == old(prev)[b := n][old(next)[n] := b]
    {
      Inserted(c, next, prev, b);
      assert LinkOk(c, next, prev, 0);
      next := next[b := next[n]];
      prev := prev[b := n];
      prev := prev[next[n] := b];
      next := next[n := b];
      c := [c[0], b] + c[1..];
    }

    /** bget's first loop: the buffer holding this block. */
    method FindCached(k: Key) returns (b: Option<nat>)
      requires Sorted(Now()) && |key| == n
      ensures b.Some? ==> b.value < n && key[b.value] == k
      ensures b.None? ==> forall d :: 0 <= d < n ==> key[d] != k
    {
      ghost var i := Step(0, |c|);
      assert LinkOk(c, next, prev, 0);
      var p := next[n];
      ghost var turns := 1;
      while p != n
        invariant 1 <= turns <= |c| && i == (if turns < |c| then turns else 0) && p == c[i]
        invariant forall j :: 1 <= j < turns ==> c[j] < n && key[c[j]] != k
        decreases |c| - turns
      {
        BuffersBelow(Now(), i);
        assert LinkOk(c, next, prev, i);
        if key[p] == k {
          return Some(p);
        }
        p := next[p];
        turns := turns + 1;
        i := Step(i, |c|);
      }
      AllSeen(Now(), turns);
      forall d | 0 <= d < n ensures key[d] != k {
        ghost var j := Position(Now(), d);
        assert key[c[j]] != k;
      }
      return None;
    }

    /** bget's second loop: from the least recently used end, the first buffer nobody holds. */
    method FindUnused() returns (b: Option<nat>)
      requires Sorted(Now()) && |refcnt| == n
      ensures b.Some? ==> b.value < n && refcnt[b.value] == 0 && forall d :: 0 <= d < n && refcnt[d] == 0 ==>
              stamp[b.value] <= stamp[d]
      ensures b.None? ==> forall d :: 0 <= d < n ==> refcnt[d] != 0
    {
      ghost var i := |c| - 1;
      assert LinkOk(c, next, prev, |c| - 1);
      var p := prev[n];
      while p != n
        invariant 0 <= i < |c| && p == c[i] && forall j :: i < j < |c| ==> c[j] < n && refcnt[c[j]] != 0
        decreases i
      {
        BuffersBelow(Now(), i);
        assert LinkOk(c, next, prev, i - 1);
        if refcnt[p] == 0 {
          OldestUnused(Now(), refcnt, i);
          return Some(p);
        }
        p := prev[p];
        i := i - 1;
      }
      NoneUnused(Now(), refcnt);
      return None;
    }

    /** bget: the cached buffer, or the least recently used unused one taken over; None is the panic. */
    method Bget(k: Key) returns (b: Option<nat>)
      requires Valid()
      modifies `key, `valid, `refcnt, `gets
      ensures Valid()
      ensures b.None? <==> (forall d :: 0 <= d < n ==> old(key)[d] != k && old(refcnt)[d] != 0)
      ensures b.None? ==> key == old(key) && valid == old(valid) && refcnt == old(refcnt)
      ensures b.Some? ==>
                && b.value < n && key == old(key)[b.value := k]
                && refcnt == old(refcnt)[b.value := old(refcnt)[b.value] + 1]
                && gets == old(gets)[b.value := old(gets)[b.value] + 1]
      ensures b.Some? && old(key)[b.value] == k ==> valid == old(valid)
      ensures b.Some? && old(key)[b.value] != k ==>
                && (forall d :: 0 <= d < n ==> old(key)[d] != k) && valid == old(valid)[b.value := false]
                     && old(refcnt)[b.value] == 0
                && forall d :: 0 <= d < n && old(refcnt)[d] == 0 ==> stamp[b.value] <= stamp[d]
    {
      b := FindCached(k);
      if b.Some? {
        refcnt := refcnt[b.value := refcnt[b.value] + 1];
        gets := gets[b.value := gets[b.value] + 1];
        assert key == key[b.value := k];
        return;
      }
      b := FindUnused();
      if b.Some? {
        key := key[b.value := k];
        valid := valid[b.value := false];
        refcnt := refcnt[b.value := 1];
        gets := gets[b.value := gets[b.value] + 1];
      }
    }

    /** brelse's list surgery: out of its place, in behind head. */
    method MoveToFront(b: nat, ghost k: nat)
      requires Sorted(Now()) && 0 < k < |c| && c[k] == b
      modifies `next, `prev, `c, `stamp, `clock
      ensures b < n && Sorted(Now()) && Now() == ToFront(old(Now()), k, next, prev)
    {
      ghost var l := Now();
      BuffersBelow(l, k);
      Unlinked(c, next, prev, k);
      var p, q := prev[b], next[b];
      prev := prev[q := p];
      next := next[p := q];
      c := Without(c, k);
      assert b !in c;
      InsertFront(b);
      ToFrontSorted(l, k, next, prev);
      stamp, clock := stamp[b := clock], clock + 1;
      assert Now() == ToFront(l, k, next, prev);
    }

    /** brelse: the last holder moves the buffer to the front. */
    method Brelse(b: nat) returns (ghost k: nat)
      requires Valid() && b < n && gets[b] > 0
      modifies `refcnt, `gets, `next, `prev, `c, `stamp, `clock
      ensures Valid() && refcnt == old(refcnt)[b := old(refcnt)[b] - 1] && gets == old(gets)[b := old(gets)[b] - 1]
      ensures refcnt[b] != 0 ==> Now() == old(Now())
      ensures refcnt[b] == 0 ==>
                && 0 < k < |old(c)| && old(c)[k] == b && b < |old(stamp)|
                && Now() == ToFront(old(Now()), k, next, prev)
    {
      k := Position(Now(), b);
      refcnt := refcnt[b := refcnt[b] - 1];
      gets := gets[b := gets[b] - 1];
      if refcnt[b] == 0 {
        MoveToFront(b, k);
      }
    }

    method Bpin(b: nat)
      requires Valid() && b < n
      modifies `refcnt, `pins
      ensures Valid() && refcnt == old(refcnt)[b := old(refcnt)[b] + 1] && pins == old(pins)[b := old(pins)[b] + 1]
    {
      refcnt := refcnt[b := refcnt[b] + 1];
      pins := pins[b := pins[b] + 1];
    }

    method Bunpin(b: nat)
      requires Valid() && b < n && pins[b] > 0
      modifies `refcnt, `pins
      ensures Valid() && refcnt == old(refcnt)[b := old(refcnt)[b] - 1] && pins == old(pins)[b := old(pins)[b] - 1]
    {
      refcnt := refcnt[b := refcnt[b] - 1];
      pins := pins[b := pins[b] - 1];
    }
  }

  // ---------------------------------------------------------------- what a scan has seen

  lemma AllSeen(l: List, turns: nat)
    requires Sorted(l) && turns <= |l.c| && (turns < |l.c| ==> turns > 0 && l.c[turns] == l.n)
    ensures turns == |l.c|
  {
    if turns < |l.c| {
      BuffersBelow(l, turns);
    }
  }

  lemma OldestUnused(l: List, refcnt: seq<int>, i: nat)
    requires Sorted(l) && |refcnt| == l.n && 0 < i < |l.c| && l.c[i] < l.n && refcnt[l.c[i]] == 0
    requires forall j :: i < j < |l.c| ==> l.c[j] < l.n && refcnt[l.c[j]] != 0
    ensures forall d :: 0 <= d < l.n && refcnt[d] == 0 ==> l.stamp[l.c[i]] <= l.stamp[d]
  {
    forall d | 0 <= d < l.n && refcnt[d] == 0 ensures l.stamp[l.c[i]] <= l.stamp[d] {
      var j := Position(l, d);
      assert j <= i;
    }
  }

  lemma NoneUnused(l: List, refcnt: seq<int>)
    requires Sorted(l) && |refcnt| == l.n && forall j :: 0 < j < |l.c| ==> l.c[j] < l.n && refcnt[l.c[j]] != 0
    ensures forall d :: 0 <= d < l.n ==> refcnt[d] != 0
  {
    forall d | 0 <= d < l.n ensures refcnt[d] != 0 {
      var j := Position(l, d);
    }
  }
}
