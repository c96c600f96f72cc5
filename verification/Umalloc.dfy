// malloc and free of user/umalloc.c on headers linked through memory.

module Umalloc {
  import opened FreeList

  datatype Option<T> = None | Some(value: T)

  /** Units for nbytes and a header, 16 bytes each. */
  function Units(nbytes: nat): (n: nat)
    ensures n >= 1
  {
    (nbytes + 15) / 16 + 1
  }

  /** Units morecore asks sbrk for. */
  function Core(n: nat): (m: nat)
    ensures m >= n
  {
    if n < 4096 then 4096 else n
  }

  /** sbrk takes an int, so morecore's byte count is cut to 32 bits, the top one a sign. */
  function SbrkArgument(units: nat): (bytes: int) {
    (units * 16 + 0x8000_0000) % 0x1_0000_0000 - 0x8000_0000
  }

  /** The largest request for which that loses nothing. */
  const MAX_REQUEST: nat := 0x7fff_ffe0

  /** morecore asks for what it needs exactly when the request is at most MAX_REQUEST bytes. */
  lemma AskedExactly(nbytes: nat)
    requires nbytes < 0x1_0000_0000
    ensures SbrkArgument(Core(Units(nbytes))) == Core(Units(nbytes)) * 16 <==> nbytes <= MAX_REQUEST
  {
    var n := (nbytes + 15) / 16;
    assert 16 * n <= nbytes + 15 < 16 * n + 16;
  }

  /** The largest request of all: 16 bytes asked for, 2^28 + 1 units recorded as obtained. */
  lemma HugeRequest()
    ensures Core(Units(0xffff_ffff)) == 0x1000_0001 && SbrkArgument(Core(Units(0xffff_ffff))) == 16
  {
  }

  function Next(i: nat, n: nat): (j: nat)
    requires i < n
    ensures j < n
  {
    if i + 1 < n then i + 1 else 0
  }

  /** Headers in memory: ptr and size of every block on the free list. */
  ghost predicate Ring(f: seq<Block>, ptr: map<nat, nat>, size: map<nat, nat>) {
    forall i: nat {:trigger RingAt(f, ptr, size, i)} :: i < |f| ==> RingAt(f, ptr, size, i)
  }

  ghost predicate RingAt(f: seq<Block>, ptr: map<nat, nat>, size: map<nat, nat>, i: nat)
    requires i < |f|
  {
    f[i].a in ptr && f[i].a in size && size[f[i].a] == f[i].s && ptr[f[i].a] == f[Next(i, |f|)].a
  }

  /** Blocks given out: apart from each other and from the free ones, below the break, headers intact. */
  ghost predicate Given(live: seq<Block>, f: seq<Block>, size: map<nat, nat>, brk: nat) {
    && (forall j :: 0 <= j < |live| ==>
        live[j].s > 0 && live[j].a in size && size[live[j].a] == live[j].s && live[j].a + live[j].s <= brk)
    && (forall j, k :: 0 <= j < k < |live| ==> FreeList.Apart(live[j], live[k]))
    && (forall i, j :: 0 <= i < |f| && 0 <= j < |live| ==> FreeList.Apart(f[i], live[j]) && f[0].a < live[j].a)
    && (forall i :: 0 <= i < |f| ==> f[i].a + f[i].s <= brk)
  }

  /** The allocator's memory with its two lists, as a value. */
  datatype State = State(base: nat, brk: nat, obtained: nat, freep: Option<nat>, ptr: map<nat, nat>, size: map<nat,
    nat>, f: seq<Block>, live: seq<Block>)

  ghost predicate OnRing(f: seq<Block>, p: nat) {
    exists i :: 0 <= i < |f| && f[i].a == p
  }

  /** Free plus live units are the units obtained; the ring is tidy; live blocks are nobody else's. */
  ghost predicate Good(s: State) {
    && s.base < s.brk && Total(s.f) + Total(s.live) == s.obtained
    && (s.freep.None? ==> s.f == [] && s.live == [])
    && (s.freep.Some? ==>
          Tidy(s.f) && s.f[0].a == s.base && Ring(s.f, s.ptr, s.size) && Given(s.live, s.f, s.size, s.brk)
            && OnRing(s.f, s.freep.value))
  }

  /** A block that is on neither list. */
  ghost predicate Outside(s: State, b: Block) {
    && s.base < b.a && b.s > 0 && b.a + b.s <= s.brk && b.a in s.size && s.size[b.a] == b.s
    && (forall k :: 0 <= k < |s.f| ==> FreeList.Apart(s.f[k], b))
    && (forall k :: 0 <= k < |s.live| ==> FreeList.Apart(s.live[k], b))
  }

  /** The state after free has put b after block i. */
  function Released(s: State, i: nat, b: Block, ptr: map<nat, nat>, size: map<nat, nat>): (r: State)
    requires i < |s.f|
  {
    s.(f := Inserted(s.f, i, b), obtained := s.obtained + b.s, freep := Some(s.f[i].a), ptr := ptr, size := size)
  }

  lemma ReleasedGood(s: State, i: nat, b: Block, ptr: map<nat, nat>, size: map<nat, nat>)
    requires Good(s) && s.freep.Some? && Outside(s, b) && Gap(s.f, i, b)
    requires Relinked(s.f, i, b, s.ptr, s.size, ptr, size)
    ensures Good(Released(s, i, b, ptr, size)) && i < |Inserted(s.f, i, b)| && Inserted(s.f, i, b)[i].a == s.f[i].a
  {
    InsertedTidy(s.f, i, b);
    InsertedTotal(s.f, i, b);
    RingInserted(s.f, i, b, s.ptr, s.size, ptr, size);
    RelinkedSame(s.f, i, b, s.ptr, s.size, ptr, size);
    GivenInserted(s.live, s.f, i, b, s.size, size, s.brk);
    InsertedAt(s.f, i, b);
    assert OnRing(Inserted(s.f, i, b), s.f[i].a);
  }

  lemma InsertedAt(f: seq<Block>, i: nat, b: Block)
    requires i < |f|
    ensures i < |Inserted(f, i, b)| && Inserted(f, i, b)[i].a == f[i].a
  {
  }

  class Heap {
    var ptr: map<nat, nat>
    var size: map<nat, nat>
    var freep: Option<nat>
    const base: nat

    /** The end of the data segment, and the units sbrk has given in all. */
    var brk: nat
    ghost var obtained: nat

    /** The free list from base upwards, and the blocks malloc has given out. */
    ghost var f: seq<Block>
    ghost var live: seq<Block>

    ghost function Now(): (s: State)
      reads this
    {
      State(base, brk, obtained, freep, ptr, size, f, live)
    }

    ghost predicate Valid()
      reads this
    {
      Good(Now())
    }

    constructor (base: nat, brk: nat)
      requires base < brk
      ensures Valid() && freep.None? && obtained == 0
    {
      this.base, this.brk, freep := base, brk, None;
      ptr, size, f, live, obtained := map[], map[], [], [], 0;
    }

    /** The loop of free: from freep round the ring to the gap bp falls into. */
    method FindGap(bp: nat, ghost b: Block) returns (p: nat, ghost i: nat)
      requires freep.Some? && Tidy(f) && f[0].a < bp && Ring(f, ptr, size)
      requires exists i :: 0 <= i < |f| && f[i].a == freep.value
      requires b.a == bp && b.s > 0 && forall k :: 0 <= k < |f| ==> FreeList.Apart(f[k], b)
      ensures i < |f| && f[i].a == p && Gap(f, i, b)
    {
      p := freep.value;
      i :| i < |f| && f[i].a == p;
      ghost var g := FindHere(f, b);
      StopsOnlyHere(f, b, g);
      assert RingAt(f, ptr, size, i);
      while !(bp > p && bp < ptr[p])
        invariant i < |f| && f[i].a == p && RingAt(f, ptr, size, i)
        decreases Turns(i, g, |f|)
      {
        assert Stops(f, bp, i) <==> i == g;
        if p >= ptr[p] && (bp > p || bp < ptr[p]) {
          break;
        }
        p := ptr[p];
        i := Next(i, |f|);
        assert RingAt(f, ptr, size, i);
      }
      assert Stops(f, bp, i);
    }

    /** free's assignments: merge upwards, then merge downwards, then move freep. */
    method Relink(p: nat, bp: nat, ghost i: nat, ghost b: Block)
      requires i < |f| && f[i].a == p && b.a == bp && bp != p && bp in size && size[bp] == b.s
      requires RingAt(f, ptr, size, i) && (f[Next(i, |f|)].a == b.a + b.s <==> JoinsNext(f, i, b))
      requires JoinsNext(f, i, b) ==> RingAt(f, ptr, size, i + 1) && f[i + 1].a != b.a
      modifies `ptr, `size, `freep
      ensures Relinked(f, i, b, old(ptr), old(size), ptr, size) && freep == Some(p)
    {
      var q := ptr[p];
      if bp + size[bp] == q {
        size := size[bp := size[bp] + size[q]];
        ptr := ptr[bp := ptr[q]];
      } else {
        ptr := ptr[bp := q];
      }
      if p + size[p] == bp {
        size := size[p := size[p] + size[bp]];
        ptr := ptr[p := ptr[bp]];
      } else {
        ptr := ptr[p := bp];
      }
      freep := Some(p);
    }

    method Locate(bp: nat, ghost b: Block) returns (p: nat, ghost i: nat)
      requires Valid() && freep.Some? && b.a == bp && Outside(Now(), b)
      ensures i < |f| && f[i].a == p && Gap(f, i, b) && RingAt(f, ptr, size, i)
      ensures (f[Next(i, |f|)].a == b.a + b.s <==> JoinsNext(f, i, b))
      ensures (JoinsNext(f, i, b) ==> RingAt(f, ptr, size, i + 1))
    {
      p, i := FindGap(bp, b);
      NextIsAbove(f, i, b);
      assert RingAt(f, ptr, size, i) && (JoinsNext(f, i, b) ==> RingAt(f, ptr, size, i + 1));
    }

    /** free of a block that is on neither list. */
    method Release(bp: nat, ghost b: Block) returns (ghost i: nat)
      requires Valid() && freep.Some? && b.a == bp && Outside(Now(), b)
      modifies `ptr, `size, `freep, `f, `obtained
      ensures Valid() && i < |old(f)| && Now() == Released(old(Now()), i, b, ptr, size)
      ensures i < |f| && freep == Some(f[i].a)
    {
      ghost var s := Now();
      var p;
      p, i := Locate(bp, b);
      Relink(p, bp, i, b);
      ReleasedGood(s, i, b, ptr, size);
      f, obtained := Inserted(f, i, b), obtained + b.s;
      assert Now() == Released(s, i, b, ptr, size);
    }

    /** free of a pointer malloc returned: block j of the live ones. */
    method Free(ap: nat, ghost j: nat)
      requires Valid() && j < |live| && live[j].a + 1 == ap
      modifies `ptr, `size, `freep, `f, `live, `obtained
      ensures Valid() && live == Without(old(live), j) && obtained == old(obtained)
      ensures Total(f) == Total(old(f)) + old(live)[j].s
      ensures forall x: nat :: FreeList.Free(f, x) <==> FreeList.Free(old(f), x) || Covers(old(live)[j], x)
    {
      ghost var b := live[j];
      TakeBack(Now(), j);
      live, obtained := Without(live, j), obtained - b.s;
      assert Now() == Back(old(Now()), j);
      ghost var i := Release(ap - 1, b);
      InsertedTotal(old(f), i, b);
      forall x: nat ensures FreeList.Free(f, x) <==> FreeList.Free(old(f), x) || Covers(b, x) {
        InsertedCovers(old(f), i, b, x);
      }
    }

    /** morecore, where `core` is what sbrk answers; a large enough block is on the ring afterwards. */
    method Morecore(nu: nat, core: Option<nat>) returns (r: Option<nat>, ghost w: nat, ghost k: nat)
      requires Valid() && freep.Some? && nu > 0 && (core.Some? ==> core.value >= brk)
      modifies `ptr, `size, `freep, `f, `obtained, `brk
      ensures core.None? ==> r.None? && Now() == old(Now())
      ensures core.Some? ==>
                && Valid() && r == freep && r.Some? && live == old(live) && obtained == old(obtained) + Core(nu)
                && brk == core.value + Core(nu)
      ensures core.Some? ==> w < |f| && f[w].s >= nu && k < |f| && freep == Some(f[k].a)
      ensures core.Some? ==> forall x: nat :: FreeList.Free(f, x) <==>
              FreeList.Free(old(f), x) || core.value <= x < core.value + Core(nu)
    {
      if core.None? {
        return None, 0, 0;
      }
      var n, hp := Core(nu), core.value;
      ghost var b := Block(hp, n);
      Grown(Now(), b);
      size, brk := size[hp := n], hp + n;
      assert Now() == WithCore(old(Now()), b);
      ghost var i := Release(hp, b);
      forall x: nat ensures FreeList.Free(f, x) <==> FreeList.Free(old(f), x) || Covers(b, x) {
        InsertedCovers(old(f), i, b, x);
      }
      MergedIsBig(old(f), i, b);
      return freep, Lo(old(f), i, b), i;
    }

    /** malloc's assignments at its end: unlink block p, or cut its tail off. */
    method CutMemory(prevp: nat, p: nat, n: nat, ghost i: nat) returns (h: nat)
      requires 0 < i < |f| && f[i].a == p && f[i - 1].a == prevp && 0 < n <= f[i].s && RingAt(f, ptr, size, i)
      modifies `ptr, `size, `freep
      ensures h == Piece(f, i, n).a && freep == Some(prevp) && CutLinks(old(Now()), i, n, ptr, size)
    {
      h := p;
      if size[p] == n {
        ptr := ptr[prevp := ptr[p]];
      } else {
        size := size[p := size[p] - n];
        h := h + size[p];
        size := size[h := n];
      }
      freep := Some(prevp);
    }

    /** malloc's end. */
    method Carve(prevp: nat, p: nat, n: nat, ghost i: nat) returns (h: nat)
      requires Valid() && freep.Some? && 0 < i < |f| && f[i].a == p && f[i - 1].a == prevp && 0 < n <= f[i].s
      modifies `ptr, `size, `freep, `f, `live
      ensures Valid() && h == Piece(old(f), i, n).a
      ensures live == old(live) + [Block(h, n)] && freep.Some?
      ensures forall x: nat :: FreeList.Free(f, x) <==> FreeList.Free(old(f), x) && !Covers(Block(h, n), x)
    {
      ghost var s := Now();
      assert RingAt(f, ptr, size, i);
      h := CutMemory(prevp, p, n, i);
      CarvedGood(s, i, n, ptr, size);
      f, live := Carved(f, i, n), live + [Block(h, n)];
      assert Now() == Cut(s, i, n, ptr, size);
      forall x: nat ensures FreeList.Free(f, x) <==> FreeList.Free(s.f, x) && !Covers(Block(h, n), x) {
        CarvedCovers(s.f, i, n, x);
      }
    }

    /** The ring with just base on it, the first time malloc is called. */
    method Start()
      requires Valid()
      modifies `ptr, `size, `freep, `f
      ensures Valid() && freep.Some? && (old(freep).Some? ==> Now() == old(Now()))
      ensures old(freep).None? ==> f == [Block(base, 0)]
      ensures forall x: nat :: FreeList.Free(f, x) <==> FreeList.Free(old(f), x)
    {
      if freep.None? {
        ptr, size, freep := ptr[base := base], size[base := 0], Some(base);
        f := [Block(base, 0)];
        TotalOne(f[0]);
        assert RingAt(f, ptr, size, 0) && f[0].a == base;
      }
    }

    /** One trip of malloc's loop round the ring, from the block after freep up to freep itself. */
    method Search(n: nat, ghost k: nat) returns (found: bool, prevp: nat, p: nat, ghost i: nat)
      requires n > 0 && k < |f| && f[0].s == 0 && Ring(f, ptr, size) && freep == Some(f[k].a) && Only(f, k)
      ensures found ==> 0 < i < |f| && f[i].a == p && f[i - 1].a == prevp && f[i].s >= n
      ensures !found ==> forall m :: 0 <= m < |f| ==> f[m].s < n
    {
      ghost var j: nat := k;
      assert RingAt(f, ptr, size, k);
      prevp, i := freep.value, Next(k, |f|);
      p := ptr[prevp];
      assert RingAt(f, ptr, size, i);
      assert Visited(f, i, k, n);
      while size[p] < n
        invariant i < |f| && j < |f| && f[i].a == p && f[j].a == prevp && i == Next(j, |f|) && RingAt(f, ptr, size, i)
        invariant Visited(f, i, k, n)
        decreases Turns(i, k, |f|)
      {
        if p == freep.value {
          VisitedAll(f, k, n);
          return false, prevp, p, i;
        }
        VisitedNext(f, i, k, n);
        prevp, j := p, i;
        p := ptr[p];
        i := Next(i, |f|);
        assert RingAt(f, ptr, size, i);
      }
      return true, prevp, p, i;
    }

    method Scan(n: nat) returns (found: bool, prevp: nat, p: nat, ghost i: nat)
      requires Valid() && n > 0 && freep.Some?
      ensures found ==> 0 < i < |f| && f[i].a == p && f[i - 1].a == prevp && f[i].s >= n
      ensures !found ==> AllBelow(f, n)
    {
      ghost var k: nat :| k < |f| && f[k].a == freep.value;
      forall m: nat | m < |f| && m != k ensures f[m].a != f[k].a {
        TidyDistinct(f, m, k);
      }
      found, prevp, p, i := Search(n, k);
    }

    /** The end of malloc when a block fits. */
    method Take(prevp: nat, p: nat, n: nat, ghost i: nat) returns (h: nat)
      requires Valid() && freep.Some? && 0 < i < |f| && f[i].a == p && f[i - 1].a == prevp && 0 < n <= f[i].s
      modifies `ptr, `size, `freep, `f, `live
      ensures Valid() && Taken(old(f), f, h, n) && live == old(live) + [Block(h, n)]
    {
      h := Carve(prevp, p, n, i);
    }

    /** malloc's loop after morecore: what it added fits. */
    method Retry(n: nat, core: Option<nat>) returns (h: Option<nat>)
      requires Valid() && n > 0 && freep.Some? && (core.Some? ==> core.value >= brk)
      modifies `ptr, `size, `freep, `f, `live, `obtained, `brk
      ensures Valid() && (h.None? <==> core.None?) && (h.None? ==> Now() == old(Now()))
      ensures h.Some? ==> live == old(live) + [Block(h.value, n)] && obtained == old(obtained) + Core(n)
      ensures h.Some? ==> TakenGrown(old(f), f, core.value, Core(n), h.value, n)
    {
      ghost var w, k;
      h, w, k := Morecore(n, core);
      if h.None? {
        return;
      }
      ghost var f1 := f;
      var found, prevp, p;
      ghost var i;
      found, prevp, p, i := Scan(n);
      assert found;
      var a := Take(prevp, p, n, i);
      h := Some(a);
    }

    /** malloc's loop: search, ask for more when nothing fits, and then the search succeeds. */
    method Allocate(n: nat, core: Option<nat>) returns (h: Option<nat>, ghost asked: bool)
      requires Valid() && n > 0 && freep.Some? && (core.Some? ==> core.value >= brk)
      modifies `ptr, `size, `freep, `f, `live, `obtained, `brk
      ensures Valid() && (asked <==> AllBelow(old(f), n))
      ensures h.None? ==> asked && core.None? && Now() == old(Now())
      ensures h.Some? ==> live == old(live) + [Block(h.value, n)] && (asked ==> core.Some?)
      ensures h.Some? ==> obtained == old(obtained) + if asked then Core(n) else 0
      ensures h.Some? ==> if asked then TakenGrown(old(f), f, core.value, Core(n), h.value, n)
              else Taken(old(f), f, h.value, n)
    {
      ghost var i;
      var found, prevp, p;
      found, prevp, p, i := Scan(n);
      asked := !found;
      if found {
        var a := Take(prevp, p, n, i);
        h := Some(a);
      } else {
        h := Retry(n, core);
      }
    }

    /**
     * malloc, where `core` is what sbrk answers if it is asked. It asks at most once, and only
     * when nothing on the ring is large enough; the block it returns was free or is new.
     */
    method Malloc(nbytes: nat, core: Option<nat>) returns (r: Option<nat>, ghost asked: bool)
      requires Valid() && (core.Some? ==> core.value >= brk) && nbytes <= MAX_REQUEST
      modifies `ptr, `size, `freep, `f, `live, `obtained, `brk
      ensures Valid() && (asked <==> AllBelow(old(f), Units(nbytes)))
      ensures r.None? ==> asked && core.None? && live == old(live) && obtained == old(obtained) && forall x: nat ::
              FreeList.Free(f, x) <==> FreeList.Free(old(f), x)
      ensures r.Some? ==>
                r.value > 0 && live == old(live) + [Block(r.value - 1, Units(nbytes))] && (asked ==> core.Some?)
      ensures r.Some? ==> obtained == old(obtained) + if asked then Core(Units(nbytes)) else 0
      ensures r.Some? ==> forall x: nat :: FreeList.Free(f, x) <==>
                (FreeList.Free(old(f), x) || (asked && core.value <= x < core.value + Core(Units(nbytes))))
                  && !Covers(Block(r.value - 1, Units(nbytes)), x)
    {
      Start();
      var h;
      h, asked := Allocate(Units(nbytes), core);
      r := if h.None? then None else Some(h.value + 1);
      assert r.Some? ==> Block(r.value - 1, Units(nbytes)) == Block(h.value, Units(nbytes));
    }
  }

  /** From f to g exactly the units h..h+n have stopped being free. */
  ghost predicate Taken(f: seq<Block>, g: seq<Block>, h: nat, n: nat) {
    forall x: nat {:trigger FreeList.Free(g, x)} :: FreeList.Free(g, x) <==>
      FreeList.Free(f, x) && !Covers(Block(h, n), x)
  }

  /** And the units from..from+m have joined them first. */
  ghost predicate TakenGrown(f: seq<Block>, g: seq<Block>, from: nat, m: nat, h: nat, n: nat) {
    forall x: nat {:trigger FreeList.Free(g, x)} :: FreeList.Free(g, x) <==>
      (FreeList.Free(f, x) || from <= x < from + m) && !Covers(Block(h, n), x)
  }

  /** No block has n units. */
  ghost predicate AllBelow(f: seq<Block>, n: nat) {
    forall m :: 0 <= m < |f| ==> f[m].s < n
  }

  // ---------------------------------------------------------------- giving back and growing

  function Back(s: State, j: nat): (r: State)
    requires j < |s.live| && s.live[j].s <= s.obtained
  {
    s.(live := Without(s.live, j), obtained := s.obtained - s.live[j].s)
  }

  /** A live list without its block j. */
  function Without(live: seq<Block>, j: nat): (r: seq<Block>)
    requires j < |live|
    ensures |r| == |live| - 1 && forall k :: 0 <= k < |r| ==> r[k] == live[if k < j then k else k + 1]
  {
    live[..j] + live[j + 1..]
  }

  lemma WithoutGiven(live: seq<Block>, f: seq<Block>, size: map<nat, nat>, brk: nat, j: nat)
    requires Given(live, f, size, brk) && j < |live|
    ensures Given(Without(live, j), f, size, brk)
    ensures forall k :: 0 <= k < |live| - 1 ==> FreeList.Apart(Without(live, j)[k], live[j])
  {
    var rest := Without(live, j);
    forall k | 0 <= k < |rest| ensures FreeList.Apart(rest[k], live[j]) {
      assert rest[k] == if k < j then live[k] else live[k + 1];
    }
    forall k, m | 0 <= k < m < |rest| ensures FreeList.Apart(rest[k], rest[m]) {
      assert rest[k] == live[if k < j then k else k + 1] && rest[m] == live[if m < j then m else m + 1];
    }
  }

  lemma TakeBack(s: State, j: nat)
    requires Good(s) && j < |s.live|
    ensures s.live[j].s <= s.obtained && Good(Back(s, j)) && Outside(Back(s, j), s.live[j]) && s.freep.Some?
  {
    WithoutTotal(s.live, j);
    WithoutGiven(s.live, s.f, s.size, s.brk, j);
    forall k | 0 <= k < |s.f| ensures FreeList.Apart(s.f[k], s.live[j]) && s.f[0].a < s.live[j].a {
    }
  }

  lemma WithoutTotal(live: seq<Block>, j: nat)
    requires j < |live|
    ensures Total(Without(live, j)) == Total(live) - live[j].s
  {
    TotalSplice(live, j, j + 1, []);
    Single(live, j);
    assert live[..j] + [] + live[j + 1..] == Without(live, j);
  }

  function WithCore(s: State, b: Block): (r: State) {
    s.(size := s.size[b.a := b.s], brk := b.a + b.s)
  }

  lemma Grown(s: State, b: Block)
    requires Good(s) && s.freep.Some? && s.brk <= b.a && b.s > 0
    ensures Good(WithCore(s, b)) && Outside(WithCore(s, b), b)
  {
    var r := WithCore(s, b);
    forall i: nat | i < |s.f| ensures RingAt(r.f, r.ptr, r.size, i) {
      assert RingAt(s.f, s.ptr, s.size, i) && s.f[i].a + s.f[i].s <= s.brk;
    }
  }

  lemma MergedIsBig(f: seq<Block>, i: nat, b: Block)
    requires i < |f|
    ensures Lo(f, i, b) < |Inserted(f, i, b)| && Inserted(f, i, b)[Lo(f, i, b)].s >= b.s
  {
  }

  // ---------------------------------------------------------------- handing out

  function Cut(s: State, i: nat, n: nat, ptr: map<nat, nat>, size: map<nat, nat>): (r: State)
    requires 0 < i < |s.f| && n <= s.f[i].s
  {
    s.(f := Carved(s.f, i, n), live := s.live + [Piece(s.f, i, n)], freep := Some(s.f[i - 1].a), ptr := ptr,
      size := size)
  }

  /** What malloc's assignments leave in memory. */
  ghost predicate CutLinks(s: State, i: nat, n: nat, ptr: map<nat, nat>, size: map<nat, nat>)
    requires 0 < i < |s.f| && n <= s.f[i].s
  {
    if s.f[i].s == n then
      ptr == s.ptr[s.f[i - 1].a := s.f[Next(i, |s.f|)].a] && size == s.size
    else
      ptr == s.ptr && size == s.size[s.f[i].a := s.f[i].s - n][Piece(s.f, i, n).a := n]
  }

  lemma CarvedGood(s: State, i: nat, n: nat, ptr: map<nat, nat>, size: map<nat, nat>)
    requires Good(s) && s.freep.Some? && 0 < i < |s.f| && 0 < n <= s.f[i].s && CutLinks(s, i, n, ptr, size)
    ensures Good(Cut(s, i, n, ptr, size))
  {
    var g, b := Carved(s.f, i, n), Piece(s.f, i, n);
    CarvedTidy(s.f, i, n);
    CarvedTotal(s.f, i, n);
    TotalAppend(s.live, [b]);
    TotalOne(b);
    forall k: nat | k < |g| ensures RingAt(g, ptr, size, k) {
      CarvedRing(s, i, n, ptr, size, k);
    }
    CarvedGiven(s, i, n, ptr, size);
    assert g[i - 1].a == s.f[i - 1].a;
  }

  lemma TidyDistinct(f: seq<Block>, i: nat, j: nat)
    requires Tidy(f) && i < |f| && j < |f| && i != j
    ensures f[i].a != f[j].a && (f[j].s > 0 ==> !(f[j].a <= f[i].a < f[j].a + f[j].s))
  {
    assert i < j ==> f[i].a + f[i].s < f[j].a;
    assert j < i ==> f[j].a + f[j].s < f[i].a;
  }

  lemma UnlinkedNext(f: seq<Block>, i: nat, k: nat)
    requires 0 < i < |f| && k < |f| - 1
    ensures var g := f[..i] + f[i + 1..]; var m := if k >= i then k + 1 else k;
            |g| == |f| - 1 && g[k] == f[m] && g[Next(k, |g|)] == if k == i - 1 then f[Next(i, |f|)] else f[Next(m, |f|)]
  {
  }

  lemma UnlinkedRing(f: seq<Block>, ptr: map<nat, nat>, size: map<nat, nat>, i: nat, k: nat)
    requires Tidy(f) && 0 < i < |f| && k < |f| - 1 && RingAt(f, ptr, size, if k >= i then k + 1 else k)
    ensures RingAt(f[..i] + f[i + 1..], ptr[f[i - 1].a := f[Next(i, |f|)].a], size, k)
  {
    UnlinkedNext(f, i, k);
    var m := if k >= i then k + 1 else k;
    if m != i - 1 {
      TidyDistinct(f, m, i - 1);
    }
  }

  lemma ShortenedRing(f: seq<Block>, ptr: map<nat, nat>, size: map<nat, nat>, i: nat, n: nat, k: nat)
    requires Tidy(f) && i < |f| && 0 < n < f[i].s && k < |f| && RingAt(f, ptr, size, k)
    ensures RingAt(f[i := Block(f[i].a, f[i].s - n)], ptr, size[f[i].a := f[i].s - n][f[i].a + f[i].s - n := n], k)
  {
    var g := f[i := Block(f[i].a, f[i].s - n)];
    assert g[Next(k, |g|)].a == f[Next(k, |f|)].a;
    if k != i {
      TidyDistinct(f, k, i);
    }
  }

  lemma CarvedRing(s: State, i: nat, n: nat, ptr: map<nat, nat>, size: map<nat, nat>, k: nat)
    requires Tidy(s.f) && Ring(s.f, s.ptr, s.size) && 0 < i < |s.f| && 0 < n <= s.f[i].s && CutLinks(s, i, n, ptr, size)
    requires k < |Carved(s.f, i, n)|
    ensures RingAt(Carved(s.f, i, n), ptr, size, k)
  {
    if s.f[i].s == n {
      assert RingAt(s.f, s.ptr, s.size, if k >= i then k + 1 else k);
      UnlinkedRing(s.f, s.ptr, s.size, i, k);
    } else {
      assert RingAt(s.f, s.ptr, s.size, k);
      ShortenedRing(s.f, s.ptr, s.size, i, n, k);
    }
  }

  /** Each block left on the ring is, or is the front of, a block that was there, and clear of the piece. */
  lemma CarvedFrom(f: seq<Block>, i: nat, n: nat, k: nat)
    requires Tidy(f) && 0 < i < |f| && 0 < n <= f[i].s && k < |Carved(f, i, n)|
    ensures var g, m := Carved(f, i, n), if f[i].s == n && k >= i then k + 1 else k;
            m < |f| && g[k].a == f[m].a && g[k].s <= f[m].s && (g[k].s == 0 ==> f[m].s == 0)
              && FreeList.Apart(g[k], Piece(f, i, n))
  {
    var m := if f[i].s == n && k >= i then k + 1 else k;
    assert m < i ==> f[m].a + f[m].s < f[i].a;
    assert m > i ==> f[i].a + f[i].s < f[m].a;
  }

  lemma CarvedGiven(s: State, i: nat, n: nat, ptr: map<nat, nat>, size: map<nat, nat>)
    requires Good(s) && s.freep.Some? && 0 < i < |s.f| && 0 < n <= s.f[i].s && CutLinks(s, i, n, ptr, size)
    ensures Given(s.live + [Piece(s.f, i, n)], Carved(s.f, i, n), size, s.brk)
  {
    var g, b := Carved(s.f, i, n), Piece(s.f, i, n);
    assert RingAt(s.f, s.ptr, s.size, i);
    forall k | 0 <= k < |g| ensures FreeList.Apart(g[k], b) && g[k].a + g[k].s <= s.brk {
      CarvedFrom(s.f, i, n, k);
    }
    forall k, j | 0 <= k < |g| && 0 <= j < |s.live| ensures FreeList.Apart(g[k], s.live[j]) {
      CarvedFrom(s.f, i, n, k);
      var m := if s.f[i].s == n && k >= i then k + 1 else k;
      assert FreeList.Apart(s.f[m], s.live[j]);
    }
    forall j | 0 <= j < |s.live| ensures FreeList.Apart(s.live[j], b) && s.live[j].a in size
      && size[s.live[j].a] == s.live[j].s {
      assert FreeList.Apart(s.f[i], s.live[j]);
    }
    assert s.f[0].a < s.f[i].a && g[0].a == s.f[0].a;
  }

  // ---------------------------------------------------------------- the ring after an insertion

  lemma NextIsAbove(f: seq<Block>, i: nat, b: Block)
    requires Tidy(f) && Gap(f, i, b)
    ensures b.a + b.s == f[Next(i, |f|)].a <==> JoinsNext(f, i, b)
  {
    assert i > 0 ==> f[0].a < f[i].a;
  }

  /** What free's assignments leave in memory. */
  ghost predicate Relinked(f: seq<Block>, i: nat, b: Block, ptr: map<nat, nat>, size: map<nat, nat>, ptr2: map<nat,
      nat>, size2: map<nat, nat>)
    requires i < |f|
  {
    var p := f[i].a;
    var up := if JoinsNext(f, i, b) then Block(b.a, b.s + f[i + 1].s) else b;
    var after := f[Next(Hi(f, i, b) - 1, |f|)].a;
    if JoinsPrev(f, i, b) then
      ptr2 == ptr[b.a := after][p := after] && size2 == size[b.a := up.s][p := f[i].s + up.s]
    else
      ptr2 == ptr[b.a := after][p := b.a] && size2 == size[b.a := up.s]
  }

  lemma RingAbove(f: seq<Block>, i: nat, b: Block, ptr: map<nat, nat>, size: map<nat, nat>, ptr2: map<nat, nat>,
      size2: map<nat, nat>, k: nat)
    requires Tidy(f) && Gap(f, i, b) && Relinked(f, i, b, ptr, size, ptr2, size2)
    requires Lo(f, i, b) < k < |Inserted(f, i, b)|
    requires RingAt(f, ptr, size, k - Lo(f, i, b) - 1 + Hi(f, i, b))
    ensures RingAt(Inserted(f, i, b), ptr2, size2, k)
  {
    var m := k - Lo(f, i, b) - 1 + Hi(f, i, b);
    assert i == 0 ==> !JoinsPrev(f, i, b);
    SplicedNext(f, Lo(f, i, b), Hi(f, i, b), Merged(f, i, b), k);
    AboveGap(f, i, b, m);
    RelinkedOthers(f, i, b, ptr, size, ptr2, size2, f[m].a);
  }

  lemma RingMiddle(f: seq<Block>, i: nat, b: Block, ptr: map<nat, nat>, size: map<nat, nat>, ptr2: map<nat, nat>,
      size2: map<nat, nat>)
    requires Tidy(f) && Gap(f, i, b) && Relinked(f, i, b, ptr, size, ptr2, size2)
    ensures RingAt(Inserted(f, i, b), ptr2, size2, Lo(f, i, b))
  {
    assert i == 0 ==> !JoinsPrev(f, i, b);
  }

  lemma RingInserted(f: seq<Block>, i: nat, b: Block, ptr: map<nat, nat>, size: map<nat, nat>, ptr2: map<nat, nat>,
      size2: map<nat, nat>)
    requires Tidy(f) && Gap(f, i, b) && Ring(f, ptr, size) && Relinked(f, i, b, ptr, size, ptr2, size2)
    ensures Ring(Inserted(f, i, b), ptr2, size2)
  {
    forall k: nat | k < |Inserted(f, i, b)| ensures RingAt(Inserted(f, i, b), ptr2, size2, k) {
      if k < Lo(f, i, b) {
        RingBelow(f, i, b, ptr, size, ptr2, size2, k);
      } else if k == Lo(f, i, b) {
        RingMiddle(f, i, b, ptr, size, ptr2, size2);
      } else {
        assert RingAt(f, ptr, size, k - Lo(f, i, b) - 1 + Hi(f, i, b));
        RingAbove(f, i, b, ptr, size, ptr2, size2, k);
      }
    }
  }

  lemma RelinkedOthers(f: seq<Block>, i: nat, b: Block, ptr: map<nat, nat>, size: map<nat, nat>, ptr2: map<nat, nat>,
      size2: map<nat, nat>, x: nat)
    requires i < |f| && Relinked(f, i, b, ptr, size, ptr2, size2) && x != b.a && x != f[i].a
    ensures (x in ptr ==> x in ptr2 && ptr2[x] == ptr[x]) && (x in size ==> x in size2 && size2[x] == size[x])
  {
  }

  lemma RingBelow(f: seq<Block>, i: nat, b: Block, ptr: map<nat, nat>, size: map<nat, nat>, ptr2: map<nat, nat>,
      size2: map<nat, nat>, k: nat)
    requires Tidy(f) && Gap(f, i, b) && Ring(f, ptr, size) && Relinked(f, i, b, ptr, size, ptr2, size2)
    requires k < Lo(f, i, b)
    ensures RingAt(Inserted(f, i, b), ptr2, size2, k)
  {
    assert RingAt(f, ptr, size, k);
    assert k < i ==> f[k].a < f[i].a;
  }

  lemma SplicedNext(f: seq<Block>, lo: nat, hi: nat, c: Block, k: nat)
    requires 1 <= lo <= hi <= |f| && lo < k < |Spliced(f, lo, hi, c)|
    ensures var g := Spliced(f, lo, hi, c); var m := k - lo - 1 + hi;
            m < |f| && g[k] == f[m] && g[Next(k, |g|)] == f[Next(m, |f|)]
  {
  }

  lemma AboveGap(f: seq<Block>, i: nat, b: Block, m: nat)
    requires Tidy(f) && Gap(f, i, b) && i < m < |f|
    ensures f[m].a != b.a && f[m].a != f[i].a
  {
    assert m == i + 1 || f[i + 1].a < f[m].a;
  }

  ghost predicate SameElse(size: map<nat, nat>, size2: map<nat, nat>, a: nat, b: nat) {
    forall x: nat {:trigger size[x]} :: x in size && x != a && x != b ==> x in size2 && size2[x] == size[x]
  }

  lemma RelinkedSame(f: seq<Block>, i: nat, b: Block, ptr: map<nat, nat>, size: map<nat, nat>, ptr2: map<nat, nat>,
      size2: map<nat, nat>)
    requires i < |f| && Relinked(f, i, b, ptr, size, ptr2, size2)
    ensures SameElse(size, size2, b.a, f[i].a)
  {
    forall x: nat | x in size && x != b.a && x != f[i].a ensures x in size2 && size2[x] == size[x] {
      RelinkedOthers(f, i, b, ptr, size, ptr2, size2, x);
    }
  }

  lemma MergedApart(f: seq<Block>, i: nat, b: Block, d: Block)
    requires i < |f| && d.s > 0 && b.s > 0 && FreeList.Apart(f[i], d) && FreeList.Apart(d, b)
    requires (i + 1 < |f| ==> FreeList.Apart(f[i + 1], d))
    requires JoinsPrev(f, i, b) ==> f[i].s > 0
    requires JoinsNext(f, i, b) ==> f[i + 1].s > 0
    ensures FreeList.Apart(Merged(f, i, b), d)
  {
  }

  lemma InsertedApart(f: seq<Block>, i: nat, b: Block, d: Block, k: nat)
    requires Tidy(f) && Gap(f, i, b) && d.s > 0 && FreeList.Apart(d, b) && k < |Inserted(f, i, b)|
    requires forall m :: 0 <= m < |f| ==> FreeList.Apart(f[m], d)
    ensures FreeList.Apart(Inserted(f, i, b)[k], d)
  {
    var lo := Lo(f, i, b);
    if k < lo {
      assert Inserted(f, i, b)[k] == f[k];
    } else if k > lo {
      assert Inserted(f, i, b)[k] == f[k - lo - 1 + Hi(f, i, b)];
    } else {
      MergedApart(f, i, b, d);
    }
  }

  lemma InsertedBelow(f: seq<Block>, i: nat, b: Block, brk: nat, k: nat)
    requires Tidy(f) && Gap(f, i, b) && b.a + b.s <= brk && k < |Inserted(f, i, b)|
    requires forall m :: 0 <= m < |f| ==> f[m].a + f[m].s <= brk
    ensures Inserted(f, i, b)[k].a + Inserted(f, i, b)[k].s <= brk
  {
    var lo := Lo(f, i, b);
    if k < lo {
      assert Inserted(f, i, b)[k] == f[k];
    } else if k > lo {
      assert Inserted(f, i, b)[k] == f[k - lo - 1 + Hi(f, i, b)];
    }
  }

  lemma GivenInserted(live: seq<Block>, f: seq<Block>, i: nat, b: Block, size: map<nat, nat>, size2: map<nat, nat>,
      brk: nat)
    requires Tidy(f) && Gap(f, i, b) && Given(live, f, size, brk) && b.a + b.s <= brk
    requires forall k :: 0 <= k < |live| ==> FreeList.Apart(live[k], b)
    requires SameElse(size, size2, b.a, f[i].a)
    ensures Given(live, Inserted(f, i, b), size2, brk)
  {
    var g := Inserted(f, i, b);
    assert g[0] == f[0] by {
      InsertedTidy(f, i, b);
    }
    forall k, j | 0 <= k < |g| && 0 <= j < |live| ensures FreeList.Apart(g[k], live[j]) {
      InsertedApart(f, i, b, live[j], k);
    }
    forall k | 0 <= k < |g| ensures g[k].a + g[k].s <= brk {
      InsertedBelow(f, i, b, brk, k);
    }
    forall j | 0 <= j < |live| ensures live[j].a in size2 && size2[live[j].a] == live[j].s {
      assert FreeList.Apart(f[i], live[j]) && FreeList.Apart(live[j], b) && f[0].a < live[j].a;
      assert size[live[j].a] == live[j].s;
    }
  }

  // ---------------------------------------------------------------- the search round the ring

  /** Turns from ring position i to position g. */
  function Turns(i: nat, g: nat, n: nat): (t: int) { if i <= g then g - i else g - i + n }

  /** No other block is where block k is. */
  ghost predicate Only(f: seq<Block>, k: nat)
    requires k < |f|
  {
    forall m: nat :: m < |f| && f[m].a == f[k].a ==> m == k
  }

  /** From the block after k round to the one before i, every block is smaller than n. */
  ghost predicate Visited(f: seq<Block>, i: nat, k: nat, n: nat) {
    forall m: nat :: m < |f| && Turns(i, m, |f|) > Turns(i, k, |f|) ==> f[m].s < n
  }

  lemma VisitedNext(f: seq<Block>, i: nat, k: nat, n: nat)
    requires i < |f| && k < |f| && i != k && Visited(f, i, k, n) && f[i].s < n
    ensures Visited(f, Next(i, |f|), k, n)
    ensures 0 <= Turns(Next(i, |f|), k, |f|) < Turns(i, k, |f|)
  {
  }

  lemma VisitedAll(f: seq<Block>, k: nat, n: nat)
    requires k < |f| && Visited(f, k, k, n) && f[k].s < n
    ensures forall m :: 0 <= m < |f| ==> f[m].s < n
  {
  }

  /** free's loop ends at block i. */
  predicate Stops(f: seq<Block>, bp: nat, i: nat)
    requires i < |f|
  {
    var p, q := f[i].a, f[Next(i, |f|)].a;
    (bp > p && bp < q) || (p >= q && (bp > p || bp < q))
  }

  /** The one block b belongs after. */
  function FindHere(f: seq<Block>, b: Block, from: nat := 0): (g: nat)
    requires from < |f| && f[from].a < b.a
    ensures from <= g < |f| && f[g].a < b.a && (g + 1 < |f| ==> b.a <= f[g + 1].a)
    decreases |f| - from
  {
    if from + 1 == |f| || b.a <= f[from + 1].a then from else FindHere(f, b, from + 1)
  }

  lemma StopsOnlyHere(f: seq<Block>, b: Block, g: nat)
    requires Tidy(f) && g < |f| && f[0].a < b.a && b.s > 0
    requires f[g].a < b.a && (g + 1 < |f| ==> b.a <= f[g + 1].a)
    requires forall k :: 0 <= k < |f| ==> FreeList.Apart(f[k], b)
    ensures forall i: nat {:trigger Stops(f, b.a, i)} :: i < |f| ==> (Stops(f, b.a, i) <==> i == g)
    ensures Gap(f, g, b)
  {
    forall i: nat | i < |f| ensures Stops(f, b.a, i) <==> i == g {
      StopsIffHere(f, b, i, g);
    }
    StopsIffHere(f, b, g, g);
  }

  lemma StopsIffHere(f: seq<Block>, b: Block, i: nat, g: nat)
    requires Tidy(f) && i < |f| && g < |f| && f[0].a < b.a && b.s > 0
    requires f[g].a < b.a && (g + 1 < |f| ==> b.a <= f[g + 1].a)
    requires forall k :: 0 <= k < |f| ==> FreeList.Apart(f[k], b)
    ensures Stops(f, b.a, i) <==> i == g
    ensures Gap(f, g, b)
  {
    if i < g {
      assert f[i + 1].a < b.a by {
        assert i + 1 == g || f[i + 1].a < f[g].a;
      }
    } else if i > g {
      assert b.a < f[i].a by {
        assert i == g + 1 || f[g + 1].a < f[i].a;
      }
    }
    assert i + 1 < |f| ==> f[i].a < f[i + 1].a;
    assert i > 0 ==> f[0].a < f[i].a;
  }
}
