// The free list of user/umalloc.c as a sequence of blocks. Addresses and sizes count
// header-sized units; a block at a of size s covers units a..a+s.

module FreeList {
  datatype Block = Block(a: nat, s: nat)

  predicate Covers(b: Block, x: nat) { b.a <= x < b.a + b.s }

  predicate Apart(b: Block, c: Block) { b.a + b.s <= c.a || c.a + c.s <= b.a }

  /** Some block of f covers unit x. */
  ghost predicate Free(f: seq<Block>, x: nat) {
    exists i :: 0 <= i < |f| && Covers(f[i], x)
  }

  function Total(f: seq<Block>): (n: nat) {
    if f == [] then 0 else Total(f[..|f| - 1]) + f[|f| - 1].s
  }

  /** The ring starts at the empty base block, goes up, and no two blocks overlap or touch. */
  ghost predicate Tidy(f: seq<Block>) {
    && |f| > 0 && f[0].s == 0 && (forall i :: 0 < i < |f| ==> f[i].s > 0)
    && forall i, j :: 0 <= i < j < |f| ==> f[i].a + f[i].s < f[j].a
  }

  // ---------------------------------------------------------------- totals

  lemma {:induction false} TotalAppend(f: seq<Block>, g: seq<Block>)
    ensures Total(f + g) == Total(f) + Total(g)
  {
    if g == [] {
      assert f + g == f;
    } else {
      TotalAppend(f, g[..|g| - 1]);
      assert (f + g)[..|f + g| - 1] == f + g[..|g| - 1];
    }
  }

  lemma TotalOne(b: Block)
    ensures Total([b]) == b.s
  {
    assert [b][..0] == [];
  }

  /** Replacing the middle changes the total by the middle's. */
  lemma TotalSplice(f: seq<Block>, i: nat, j: nat, mid: seq<Block>)
    requires i <= j <= |f|
    ensures Total(f[..i] + mid + f[j..]) == Total(f) - Total(f[i..j]) + Total(mid)
  {
    assert f == f[..i] + f[i..j] + f[j..];
    TotalAppend(f[..i] + f[i..j], f[j..]);
    TotalAppend(f[..i], f[i..j]);
    TotalAppend(f[..i] + mid, f[j..]);
    TotalAppend(f[..i], mid);
  }

  // ---------------------------------------------------------------- replacing a stretch by one block

  function Spliced(f: seq<Block>, lo: nat, hi: nat, c: Block): (g: seq<Block>)
    requires lo <= hi <= |f|
    ensures |g| == lo + 1 + |f| - hi && g[lo] == c
    ensures forall k :: 0 <= k < lo ==> g[k] == f[k]
    ensures forall k :: lo < k < |g| ==> g[k] == f[k - lo - 1 + hi]
  {
    f[..lo] + [c] + f[hi..]
  }

  lemma SplicedTotal(f: seq<Block>, lo: nat, hi: nat, c: Block)
    requires lo <= hi <= |f|
    ensures Total(Spliced(f, lo, hi, c)) == Total(f) - Total(f[lo..hi]) + c.s
  {
    TotalSplice(f, lo, hi, [c]);
    TotalOne(c);
  }

  lemma SplicedTidy(f: seq<Block>, lo: nat, hi: nat, c: Block)
    requires Tidy(f) && 1 <= lo <= hi <= |f| && c.s > 0 && f[lo - 1].a + f[lo - 1].s < c.a
    requires (hi < |f| ==> c.a + c.s < f[hi].a)
    ensures Tidy(Spliced(f, lo, hi, c))
  {
    var g := Spliced(f, lo, hi, c);
    forall i, j | 0 <= i < j < |g| ensures g[i].a + g[i].s < g[j].a {
      SplicedOrder(f, lo, hi, c, i, j);
    }
  }

  lemma SplicedOrder(f: seq<Block>, lo: nat, hi: nat, c: Block, i: nat, j: nat)
    requires Tidy(f) && 1 <= lo <= hi <= |f| && f[lo - 1].a + f[lo - 1].s < c.a && (hi < |f| ==> c.a + c.s < f[hi].a)
    requires i < j < |Spliced(f, lo, hi, c)|
    ensures var g := Spliced(f, lo, hi, c); g[i].a + g[i].s < g[j].a
  {
    if i < lo && j == lo && i < lo - 1 {
      assert f[i].a + f[i].s < f[lo - 1].a;
    } else if i == lo && hi < j - lo - 1 + hi {
      assert f[hi].a + f[hi].s < f[j - lo - 1 + hi].a;
    }
  }

  lemma SplicedCovers(f: seq<Block>, lo: nat, hi: nat, c: Block, x: nat)
    requires lo <= hi <= |f|
    ensures Free(Spliced(f, lo, hi, c), x) <==> Free(f[..lo], x) || Covers(c, x) || Free(f[hi..], x)
  {
    var g := Spliced(f, lo, hi, c);
    if Free(g, x) {
      var i :| 0 <= i < |g| && Covers(g[i], x);
      if i < lo {
        assert Covers(f[..lo][i], x);
      } else if i > lo {
        assert Covers(f[hi..][i - lo - 1], x);
      }
    }
    if Free(f[..lo], x) {
      var i :| 0 <= i < |f[..lo]| && Covers(f[..lo][i], x);
      assert Covers(g[i], x);
    }
    if Free(f[hi..], x) {
      var i :| 0 <= i < |f[hi..]| && Covers(f[hi..][i], x);
      assert Covers(g[i + lo + 1], x);
    }
    assert Covers(c, x) ==> Covers(g[lo], x);
  }

  lemma FreeSplit(f: seq<Block>, lo: nat, hi: nat, x: nat)
    requires lo <= hi <= |f|
    ensures Free(f, x) <==> Free(f[..lo], x) || Free(f[lo..hi], x) || Free(f[hi..], x)
  {
    if Free(f, x) {
      var i :| 0 <= i < |f| && Covers(f[i], x);
      if i < lo {
        assert Covers(f[..lo][i], x);
      } else if i < hi {
        assert Covers(f[lo..hi][i - lo], x);
      } else {
        assert Covers(f[hi..][i - hi], x);
      }
    }
    if Free(f[..lo], x) {
      var i :| 0 <= i < lo && Covers(f[..lo][i], x);
      assert Covers(f[i], x);
    }
    if Free(f[lo..hi], x) {
      var i :| 0 <= i < hi - lo && Covers(f[lo..hi][i], x);
      assert Covers(f[lo + i], x);
    }
    if Free(f[hi..], x) {
      var i :| 0 <= i < |f| - hi && Covers(f[hi..][i], x);
      assert Covers(f[hi + i], x);
    }
  }

  // ---------------------------------------------------------------- free's insertion

  /** b lies in the gap after block i. */
  ghost predicate Gap(f: seq<Block>, i: nat, b: Block) {
    i < |f| && b.s > 0 && f[i].a + f[i].s <= b.a && f[i].a < b.a && (i + 1 < |f| ==> b.a + b.s <= f[i + 1].a)
  }

  predicate JoinsNext(f: seq<Block>, i: nat, b: Block) { i + 1 < |f| && b.a + b.s == f[i + 1].a }

  predicate JoinsPrev(f: seq<Block>, i: nat, b: Block) { i < |f| && f[i].a + f[i].s == b.a }

  function Lo(f: seq<Block>, i: nat, b: Block): (r: nat) { if JoinsPrev(f, i, b) then i else i + 1 }

  function Hi(f: seq<Block>, i: nat, b: Block): (r: nat) { if JoinsNext(f, i, b) then i + 2 else i + 1 }

  /** First with the upper neighbour, then with the lower one, as free does it. */
  function Merged(f: seq<Block>, i: nat, b: Block): (c: Block)
    requires i < |f|
  {
    var up := if JoinsNext(f, i, b) then Block(b.a, b.s + f[i + 1].s) else b;
    if JoinsPrev(f, i, b) then Block(f[i].a, f[i].s + up.s) else up
  }

  function Inserted(f: seq<Block>, i: nat, b: Block): (g: seq<Block>)
    requires i < |f|
  {
    Spliced(f, Lo(f, i, b), Hi(f, i, b), Merged(f, i, b))
  }

  lemma Pair(f: seq<Block>, i: nat)
    requires i + 1 < |f|
    ensures f[i..i + 2] == [f[i], f[i + 1]] && Total(f[i..i + 2]) == f[i].s + f[i + 1].s
  {
    assert f[i..i + 2] == [f[i]] + [f[i + 1]];
    TotalAppend([f[i]], [f[i + 1]]);
    TotalOne(f[i]);
    TotalOne(f[i + 1]);
  }

  lemma Single(f: seq<Block>, i: nat)
    requires i < |f|
    ensures f[i..i + 1] == [f[i]] && Total(f[i..i + 1]) == f[i].s
  {
    TotalOne(f[i]);
  }

  lemma InsertedTotal(f: seq<Block>, i: nat, b: Block)
    requires i < |f|
    ensures Total(Inserted(f, i, b)) == Total(f) + b.s
  {
    SplicedTotal(f, Lo(f, i, b), Hi(f, i, b), Merged(f, i, b));
    if JoinsPrev(f, i, b) && JoinsNext(f, i, b) {
      Pair(f, i);
    } else if JoinsPrev(f, i, b) {
      Single(f, i);
    } else if JoinsNext(f, i, b) {
      Single(f, i + 1);
    }
  }

  lemma InsertedTidy(f: seq<Block>, i: nat, b: Block)
    requires Tidy(f) && Gap(f, i, b)
    ensures Tidy(Inserted(f, i, b)) && Inserted(f, i, b)[0] == f[0]
  {
    assert i == 0 ==> !JoinsPrev(f, i, b);
    var lo, hi, c := Lo(f, i, b), Hi(f, i, b), Merged(f, i, b);
    assert f[lo - 1].a + f[lo - 1].s < c.a;
    assert hi < |f| ==> c.a + c.s < f[hi].a;
    SplicedTidy(f, lo, hi, c);
  }

  /** What the merged block covers: b and the blocks it swallowed. */
  lemma MergedCovers(f: seq<Block>, i: nat, b: Block, x: nat)
    requires i < |f|
    ensures Covers(Merged(f, i, b), x) <==> Covers(b, x) || Free(f[Lo(f, i, b)..Hi(f, i, b)], x)
  {
    var lo, hi := Lo(f, i, b), Hi(f, i, b);
    if JoinsPrev(f, i, b) && JoinsNext(f, i, b) {
      Pair(f, i);
      FreeTwo(f[i], f[i + 1], x);
    } else if JoinsPrev(f, i, b) {
      Single(f, i);
      FreeOne(f[i], x);
    } else if JoinsNext(f, i, b) {
      Single(f, i + 1);
      FreeOne(f[i + 1], x);
    } else {
      assert f[lo..hi] == [];
    }
  }

  lemma FreeOne(b: Block, x: nat)
    ensures Free([b], x) <==> Covers(b, x)
  {
    assert Covers(b, x) ==> Covers([b][0], x);
  }

  lemma FreeTwo(b: Block, c: Block, x: nat)
    ensures Free([b, c], x) <==> Covers(b, x) || Covers(c, x)
  {
    assert Covers(b, x) ==> Covers([b, c][0], x);
    assert Covers(c, x) ==> Covers([b, c][1], x);
  }

  /** Exactly b's units become free. */
  lemma InsertedCovers(f: seq<Block>, i: nat, b: Block, x: nat)
    requires i < |f|
    ensures Free(Inserted(f, i, b), x) <==> Free(f, x) || Covers(b, x)
  {
    var lo, hi := Lo(f, i, b), Hi(f, i, b);
    SplicedCovers(f, lo, hi, Merged(f, i, b), x);
    FreeSplit(f, lo, hi, x);
    MergedCovers(f, i, b, x);
  }

  // ---------------------------------------------------------------- malloc's removal

  /** Block i less its last n units, or gone when it is exactly n units. */
  function Carved(f: seq<Block>, i: nat, n: nat): (g: seq<Block>)
    requires i < |f| && n <= f[i].s
  {
    if f[i].s == n then f[..i] + f[i + 1..] else f[i := Block(f[i].a, f[i].s - n)]
  }

  /** What malloc hands out of block i. */
  function Piece(f: seq<Block>, i: nat, n: nat): (b: Block)
    requires i < |f| && n <= f[i].s
  {
    Block(f[i].a + f[i].s - n, n)
  }

  lemma CarvedTidy(f: seq<Block>, i: nat, n: nat)
    requires Tidy(f) && i < |f| && 0 < n <= f[i].s
    ensures i > 0 && Tidy(Carved(f, i, n)) && Carved(f, i, n)[0] == f[0]
  {
  }

  lemma DroppedTotal(f: seq<Block>, i: nat)
    requires i < |f|
    ensures Total(f[..i] + f[i + 1..]) == Total(f) - f[i].s
  {
    Single(f, i);
    TotalSplice(f, i, i + 1, []);
    assert f[..i] + [] == f[..i];
  }

  lemma ShortenedTotal(f: seq<Block>, i: nat, b: Block)
    requires i < |f|
    ensures Total(f[i := b]) == Total(f) - f[i].s + b.s
  {
    Single(f, i);
    SplicedTotal(f, i, i + 1, b);
    assert f[i := b] == Spliced(f, i, i + 1, b);
  }

  lemma CarvedTotal(f: seq<Block>, i: nat, n: nat)
    requires i < |f| && n <= f[i].s
    ensures Total(Carved(f, i, n)) == Total(f) - n
  {
    if f[i].s == n {
      DroppedTotal(f, i);
    } else {
      ShortenedTotal(f, i, Block(f[i].a, f[i].s - n));
    }
  }

  /** Exactly the piece's units stop being free. */
  lemma CarvedCovers(f: seq<Block>, i: nat, n: nat, x: nat)
    requires Tidy(f) && i < |f| && 0 < n <= f[i].s
    ensures Free(Carved(f, i, n), x) <==> Free(f, x) && !Covers(Piece(f, i, n), x)
    ensures Covers(Piece(f, i, n), x) ==> Free(f, x)
  {
    FreeSplit(f, i, i + 1, x);
    Single(f, i);
    FreeOne(f[i], x);
    if Covers(f[i], x) {
      CarvedSides(f, i, x);
    }
    if f[i].s == n {
      FreeSplit(f[..i] + f[i + 1..], i, i, x);
      assert (f[..i] + f[i + 1..])[..i] == f[..i] && (f[..i] + f[i + 1..])[i..] == f[i + 1..];
      assert (f[..i] + f[i + 1..])[i..i] == [];
    } else {
      SplicedCovers(f, i, i + 1, Block(f[i].a, f[i].s - n), x);
      assert Carved(f, i, n) == Spliced(f, i, i + 1, Block(f[i].a, f[i].s - n));
    }
  }

  /** A unit of block i is in no other block. */
  lemma CarvedSides(f: seq<Block>, i: nat, x: nat)
    requires Tidy(f) && i < |f| && Covers(f[i], x)
    ensures !Free(f[..i], x) && !Free(f[i + 1..], x)
  {
    forall k | 0 <= k < i ensures !Covers(f[..i][k], x) {
      assert f[k].a + f[k].s < f[i].a;
    }
    var above := f[i + 1..];
    forall k | 0 <= k < |above| ensures !Covers(above[k], x) {
      assert f[i].a + f[i].s < f[i + 1 + k].a;
    }
  }
}
