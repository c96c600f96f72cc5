// Address spaces over their whole life: create, grow, shrink, fork's copy and free keep every
// page with exactly one owner, whatever runs out on the way.

module AddressSpaces {
  import opened Sv39
  import opened PageTables
  import opened PageOps

  /** Where a page can be; a page kalloc manages is in exactly one such place. */
  datatype Place = OnFreeList(i: nat) | Held | Root | In(s: Slot)

  ghost predicate IsAt(m: Mem, p: nat, w: Place) {
    match w
    case OnFreeList(i) => i < |m.free| && m.free[i] == p
    case Held => p in m.held
    case Root => p in m.roots
    case In(s) => Live(m, s) && Ref(m.nodes, s) == Some(p)
  }

  /** Ownership in one sentence: some place, and no second one. */
  lemma ExactlyOnePlace(m: Mem, pages: set<nat>, p: nat)
    requires Owned(m, pages) && p in pages
    ensures exists w: Place :: IsAt(m, p, w)
    ensures forall a: Place, b: Place :: IsAt(m, p, a) && IsAt(m, p, b) ==> a == b
  {
    assert Accounted(m, p);
    if p in m.free {
      var i :| 0 <= i < |m.free| && m.free[i] == p;
      assert IsAt(m, p, OnFreeList(i));
    } else if p in m.held {
      assert IsAt(m, p, Held);
    } else if p in m.roots {
      assert IsAt(m, p, Root);
    } else {
      var s: Slot :| Live(m, s) && Ref(m.nodes, s) == Some(p);
      assert IsAt(m, p, In(s));
    }
    forall a: Place, b: Place | IsAt(m, p, a) && IsAt(m, p, b) ensures a == b {
      OnePlace(m, p, a, b);
    }
  }

  lemma OnePlace(m: Mem, p: nat, a: Place, b: Place)
    requires Sound(m) && IsAt(m, p, a) && IsAt(m, p, b)
    ensures a == b
  {
    if a.In? {
      assert SlotOk(m, a.s);
    }
    if b.In? {
      assert SlotOk(m, b.s);
    }
    assert a.In? && b.In? ==> a.s == b.s || Apart(m, a.s, b.s);
  }

  /** A user page belongs to one page number of one address space. */
  lemma NoSharing(m: Mem, q: nat, v: nat, r: nat, w: nat)
    requires Sound(m) && q in m.roots && r in m.roots && v < TRAPFRAME_VPN && w < TRAPFRAME_VPN
    requires Flat(m, q, v).Leaf? && Flat(m, r, w).Leaf? && Flat(m, q, v).ppn == Flat(m, r, w).ppn
    ensures q == r && v == w
  {
    PagesInTree(q, v);
    PagesInTree(r, w);
    var s, t := Slot(q, 0, v), Slot(r, 0, w);
    assert s == t || Apart(m, s, t);
  }

  lemma SpaceKept(m: Mem, n: Mem, r: nat, q: nat, k: nat)
    requires OthersKept(m, n, r) && q in m.roots && q != r && Space(m, q, k)
    ensures Space(n, q, k)
  {
    forall v: nat | InRange(v) ensures Flat(n, q, v) == Flat(m, q, v) {
      PagesInTree(q, v);
    }
  }

  lemma SpaceGrown(m: Mem, n: Mem, r: nat, k: nat, l: nat)
    requires Space(m, r, k) && k <= l <= TRAPFRAME_VPN && FlatKept(m, n, r, k, l) && FromFree(m, n, r, k, l)
    ensures Space(n, r, l)
  {
    forall v: nat | InRange(v) && !(k <= v < l) ensures Flat(n, r, v) == Flat(m, r, v) {
    }
  }

  lemma SpaceShrunk(m: Mem, n: Mem, r: nat, k: nat, l: nat)
    requires Space(m, r, l) && k <= l && FlatKept(m, n, r, k, l)
    requires forall w: nat :: k <= w < l ==> Flat(n, r, w) == Empty
    ensures Space(n, r, k)
  {
    forall v: nat | InRange(v) && !(k <= v < l) ensures Flat(n, r, v) == Flat(m, r, v) {
    }
  }

  class Spaces {
    const mem: Memory

    /** p->sz of each process, by its page table. */
    var sizes: map<nat, nat>

    constructor (mem: Memory)
      requires mem.Valid() && mem.m.roots == {}
      ensures Valid() && this.mem == mem && sizes == map[]
    {
      this.mem := mem;
      sizes := map[];
    }

    ghost predicate Valid()
      reads this, mem
    {
      mem.Valid() && sizes.Keys == mem.m.roots && forall r :: r in sizes ==> SizeOk(mem.m, sizes, r)
    }

    static ghost predicate SizeOk(m: Mem, sizes: map<nat, nat>, r: nat)
      requires r in sizes
    {
      sizes[r] <= TRAPFRAME && Space(m, r, PagesUp(sizes[r]))
    }

    /** allocproc's page table. */
    method Create(trampoline: nat, trapframe: nat) returns (r: Option<nat>)
      requires Valid()
      modifies this`sizes, mem`free, mem`words, mem`m
      ensures Valid() && mem.m.held == old(mem.m.held)
      ensures r.Some? ==> r.value !in old(sizes) && sizes == old(sizes)[r.value := 0]
      ensures r.None? ==> sizes == old(sizes) && forall p :: p in mem.pages ==>
              (p in old(mem.m.free) <==> p in mem.m.free)
    {
      ghost var m0 := mem.m;
      ghost var root;
      r, root := mem.ProcPagetable(trampoline, trapframe);
      if r.Some? {
        sizes := sizes[r.value := 0];
      }
      forall q | q in sizes ensures SizeOk(mem.m, sizes, q) {
        if q in old(sizes) {
          assert SizeOk(m0, old(sizes), q);
          if mem.m != m0 {
            SpaceKept(m0, mem.m, root, q, PagesUp(old(sizes)[q]));
          }
        }
      }
    }

    /** growproc with n > 0, however large n is. */
    method Grow(r: nat, n: nat) returns (res: Result)
      requires Valid() && r in sizes
      modifies this`sizes, mem`free, mem`words, mem`m
      ensures Valid() && mem.m.held == old(mem.m.held)
      ensures sizes == if res.Ok? then old(sizes)[r := old(sizes)[r] + n] else old(sizes)
      ensures res.Error? ==> FlatKept(old(mem.m), mem.m, r, 0, 0) && TablesKept(old(mem.m), mem.m)
    {
      ghost var m0 := mem.m;
      ghost var sizes0 := sizes;
      assert SizeOk(m0, sizes, r);
      PagesMonotone(sizes[r], sizes[r] + n);
      var sz := mem.Uvmalloc(r, sizes[r], sizes[r] + n, W);
      if sz.None? {
        FrameSpaces(m0, mem.m, sizes0, sizes, r);
        FlatSpace(m0, mem.m, r, PagesUp(sizes[r]));
        return Error;
      }
      SpaceGrown(m0, mem.m, r, PagesUp(sizes[r]), PagesUp(sizes[r] + n));
      PagesMonotone(TRAPFRAME, sizes[r] + n);
      sizes := sizes[r := sz.value];
      FrameSpaces(m0, mem.m, sizes0, sizes, r);
      return Ok;
    }

    /** growproc with -n < 0; taking off more than there is wraps around and changes nothing. */
    method Shrink(r: nat, n: nat)
      requires Valid() && r in sizes
      modifies this`sizes, mem`free, mem`words, mem`m
      ensures Valid() && mem.m.held == old(mem.m.held)
      ensures sizes == if n <= old(sizes)[r] then old(sizes)[r := old(sizes)[r] - n] else old(sizes)
    {
      if n <= sizes[r] {
        ghost var m0 := mem.m;
        ghost var sizes0 := sizes;
        assert SizeOk(m0, sizes, r);
        PagesMonotone(sizes[r] - n, sizes[r]);
        var sz := mem.Uvmdealloc(r, sizes[r], sizes[r] - n);
        SpaceShrunk(m0, mem.m, r, PagesUp(sizes[r] - n), PagesUp(sizes[r]));
        sizes := sizes[r := sz];
        FrameSpaces(m0, mem.m, sizes0, sizes, r);
      }
    }

    /** fork's uvmcopy into a new, empty address space. */
    method Copy(r: nat, child: nat) returns (res: Result)
      requires Valid() && r in sizes && child in sizes && r != child && sizes[child] == 0
      modifies this`sizes, mem`free, mem`words, mem`m
      ensures Valid() && mem.m.held == old(mem.m.held)
      ensures sizes == if res.Ok? then old(sizes)[child := old(sizes)[r]] else old(sizes)
      ensures res.Ok? ==> SameFlags(old(mem.m), mem.m, r, child, PagesUp(old(sizes)[r]))
      ensures res.Error? ==> FlatKept(old(mem.m), mem.m, child, 0, 0) && TablesKept(old(mem.m), mem.m)
    {
      ghost var m0 := mem.m;
      ghost var sizes0 := sizes;
      assert SizeOk(m0, sizes, r) && SizeOk(m0, sizes, child);
      res := mem.Uvmcopy(r, child, sizes[r]);
      if res.Error? {
        FrameSpaces(m0, mem.m, sizes0, sizes, child);
        FlatSpace(m0, mem.m, child, 0);
        return;
      }
      SpaceGrown(m0, mem.m, child, 0, PagesUp(sizes[r]));
      sizes := sizes[child := sizes[r]];
      FrameSpaces(m0, mem.m, sizes0, sizes, child);
    }

    /** freeproc's proc_freepagetable: everything the tree owned is free. */
    method Free(r: nat)
      requires Valid() && r in sizes
      modifies this`sizes, mem`free, mem`words, mem`m
      ensures Valid() && mem.m.held == old(mem.m.held) && sizes == old(sizes) - {r}
      ensures forall p :: p in mem.pages && (p in old(mem.m.free) || p == r) ==> p in mem.m.free
      ensures forall s: Slot :: TreeOwns(old(mem.m), r, s) && Ref(old(mem.m.nodes), s).value in mem.pages ==>
                Ref(old(mem.m.nodes), s).value in mem.m.free
    {
      ghost var m0 := mem.m;
      assert SizeOk(m0, sizes, r);
      mem.ProcFreepagetable(r, sizes[r]);
      sizes := sizes - {r};
      forall q | q in sizes ensures SizeOk(mem.m, sizes, q) {
        assert SizeOk(m0, old(sizes), q);
        SpaceKept(m0, mem.m, r, q, PagesUp(sizes[q]));
      }
    }

    /** Address spaces other than r's are as they were. */
    static lemma FrameSpaces(m: Mem, n: Mem, s: map<nat, nat>, t: map<nat, nat>, r: nat)
      requires OthersKept(m, n, r) && s.Keys == m.roots && (forall q :: q in s ==> SizeOk(m, s, q))
      requires t.Keys == s.Keys && forall q :: q in s && q != r ==> t[q] == s[q]
      ensures forall q :: q in t && q != r ==> SizeOk(n, t, q)
    {
      forall q | q in t && q != r ensures SizeOk(n, t, q) {
        assert SizeOk(m, s, q);
        SpaceKept(m, n, r, q, PagesUp(s[q]));
      }
    }

    static lemma FlatSpace(m: Mem, n: Mem, r: nat, k: nat)
      requires FlatKept(m, n, r, 0, 0) && Space(m, r, k)
      ensures Space(n, r, k)
    {
      forall v: nat | InRange(v) ensures Flat(n, r, v) == Flat(m, r, v) {
      }
    }
  }
}
