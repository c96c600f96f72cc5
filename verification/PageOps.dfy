// The page allocator and the user page-table operations as they run.

module PageOps {
  import opened Sv39
  import opened PageTables
  import opened PageWords

  datatype Result = Ok | Error

  /** A page number whose entry has a home has tables all the way down to it. */
  lemma HomeMeans(nodes: map<nat, Node>, r: nat, v: nat)
    requires Home(nodes, Slot(r, 0, v)).Some?
    ensures Entry(nodes, Slot(r, 1, v / 512)).Table? && Entry(nodes, Slot(r, 2, v / 512 / 512)).Table?
  {
    assert Up(Slot(r, 0, v)) == Slot(r, 1, v / 512);
    assert Up(Slot(r, 1, v / 512)) == Slot(r, 2, v / 512 / 512);
  }

  /** The page at v in r maps page p; everything else in every tree reads as before. */
  ghost predicate MapsOne(m: Mem, n: Mem, r: nat, v: nat, e: Pte) {
    && n.roots == m.roots && Flat(n, r, v) == e
    && forall t: Slot {:trigger MapsAt(m, n, r, v, t)} :: Live(m, t) ==> MapsAt(m, n, r, v, t)
  }

  ghost predicate MapsAt(m: Mem, n: Mem, r: nat, v: nat, t: Slot)
    requires t.l <= 2
  {
    t != Slot(r, 0, v) ==> Entry(n.nodes, t) == Entry(m.nodes, t)
  }

  /** Filling the level-0 entry of v. */
  lemma FillsLeaf(m: Mem, pages: set<nat>, r: nat, v: nat, p: nat, flags: nat, nodes: map<nat, Node>)
    requires Owned(m, pages) && r in m.roots && InRange(v) && Flat(m, r, v) == Empty
    requires (v < TRAPFRAME_VPN ==> p in m.held)
    requires Home(m.nodes, Slot(r, 0, v)).Some? && Home(m.nodes, Slot(r, 0, v)).value in m.nodes
    requires nodes == Put(m.nodes, Home(m.nodes, Slot(r, 0, v)).value, v % 512, Leaf(p, flags))
    ensures var n := m.(nodes := nodes, held := if v < TRAPFRAME_VPN then m.held - {p} else m.held);
            Owned(n, pages) && MapsOne(m, n, r, v, Leaf(p, flags))
  {
    var s := Slot(r, 0, v);
    var e := Leaf(p, flags);
    PagesInTree(r, v);
    assert Legal(m, s, e, nodes);
    WrittenSound(m, s, e, nodes);
    var n := m.(nodes := nodes, held := if v < TRAPFRAME_VPN then m.held - {p} else m.held);
    assert Written(m, s, e, nodes) == n;
    forall q: nat ensures Accounted(n, q) <==> q in pages {
      WrittenAccounted(m, s, e, nodes, q);
    }
    forall t: Slot | Live(m, t) ensures MapsAt(m, n, r, v, t) {
      RefKept(m, nodes, s, e, t);
    }
    RefKept(m, nodes, s, e, s);
  }

  /** Emptying it; a user page comes back to the caller. */
  lemma ClearsLeaf(m: Mem, pages: set<nat>, r: nat, v: nat, nodes: map<nat, Node>)
    requires Owned(m, pages) && r in m.roots && InRange(v) && Flat(m, r, v).Leaf?
    requires Home(m.nodes, Slot(r, 0, v)).Some? && Home(m.nodes, Slot(r, 0, v)).value in m.nodes
    requires nodes == Put(m.nodes, Home(m.nodes, Slot(r, 0, v)).value, v % 512, Empty)
    ensures var n := m.(nodes := nodes, held := if v < TRAPFRAME_VPN then m.held + {Flat(m, r, v).ppn} else m.held);
            Owned(n, pages) && MapsOne(m, n, r, v, Empty)
    ensures v < TRAPFRAME_VPN ==> !Loose(m, Flat(m, r, v).ppn)
  {
    var s := Slot(r, 0, v);
    PagesInTree(r, v);
    assert SlotOk(m, s);
    assert Legal(m, s, Empty, nodes);
    WrittenSound(m, s, Empty, nodes);
    var n := m.(nodes := nodes, held := if v < TRAPFRAME_VPN then m.held + {Flat(m, r, v).ppn} else m.held);
    assert Written(m, s, Empty, nodes) == n;
    forall q: nat ensures Accounted(n, q) <==> q in pages {
      WrittenAccounted(m, s, Empty, nodes, q);
    }
    forall t: Slot | Live(m, t) ensures MapsAt(m, n, r, v, t) {
      RefKept(m, nodes, s, Empty, t);
    }
    RefKept(m, nodes, s, Empty, s);
  }

  lemma GivenOwned(m: Mem, pages: set<nat>, p: nat)
    requires Owned(m, pages) && p in m.held
    ensures Owned(Given(m, p), pages)
  {
    GivenSound(m, p);
    forall q: nat ensures Accounted(Given(m, p), q) <==> q in pages {
      assert Accounted(m, q) <==> q in pages;
    }
  }

  // ---------------------------------------------------------------- effects on the flat map

  /** The tree at r maps everything as before except pages lo..hi; no other tree has changed at all. */
  ghost predicate FlatKept(m: Mem, n: Mem, r: nat, lo: nat, hi: nat) {
    && n.roots == m.roots && OthersKept(m, n, r)
    && forall v: nat {:trigger Flat(n, r, v)} :: InRange(v) && !(lo <= v < hi) ==> Flat(n, r, v) == Flat(m, r, v)
  }

  ghost predicate OthersKept(m: Mem, n: Mem, r: nat) {
    forall t: Slot {:trigger Entry(n.nodes, t)} :: Live(m, t) && t.r != r ==> Entry(n.nodes, t) == Entry(m.nodes, t)
  }

  /** A lower table that was there is still there. */
  ghost predicate TablesKept(m: Mem, n: Mem) {
    forall t: Slot {:trigger Entry(n.nodes, t)} :: Live(m, t) && Entry(m.nodes, t).Table? ==>
      Entry(n.nodes, t) == Entry(m.nodes, t)
  }

  lemma ExtendsFlat(m: Mem, n: Mem, r: nat, lo: nat)
    requires Extends(m, n, r) && r in m.roots
    ensures FlatKept(m, n, r, lo, lo) && TablesKept(m, n)
  {
    forall v: nat | InRange(v) ensures Flat(n, r, v) == Flat(m, r, v) {
      PagesInTree(r, v);
      assert ExtendsAt(m, n, r, Slot(r, 0, v));
    }
    forall t: Slot | Live(m, t) ensures t.r != r || Entry(m.nodes, t).Table? ==>
      Entry(n.nodes, t) == Entry(m.nodes, t) {
      assert ExtendsAt(m, n, r, t);
    }
  }

  /** Tables are neither added nor removed. */
  ghost predicate TablesSame(m: Mem, n: Mem) {
    forall t: Slot {:trigger Entry(n.nodes, t)} :: Live(m, t) && t.l > 0 ==> Entry(n.nodes, t) == Entry(m.nodes, t)
  }

  lemma MapsOneFlat(m: Mem, n: Mem, r: nat, v: nat, e: Pte)
    requires Sound(m) && MapsOne(m, n, r, v, e) && r in m.roots && InRange(v)
    ensures FlatKept(m, n, r, v, v + 1) && TablesKept(m, n) && TablesSame(m, n)
  {
    forall w: nat | InRange(w) && !(v <= w < v + 1) ensures Flat(n, r, w) == Flat(m, r, w) {
      PagesInTree(r, w);
      assert MapsAt(m, n, r, v, Slot(r, 0, w));
    }
    forall t: Slot | Live(m, t) ensures t.r != r || Entry(m.nodes, t).Table? || t.l > 0 ==>
      Entry(n.nodes, t) == Entry(m.nodes, t) {
      assert MapsAt(m, n, r, v, t) && SlotOk(m, t);
    }
  }

  lemma FlatKeptTwice(a: Mem, b: Mem, c: Mem, r: nat, lo: nat, mid: nat, hi: nat)
    requires FlatKept(a, b, r, lo, mid) && FlatKept(b, c, r, mid, hi) && TablesKept(a, b) && TablesKept(b, c)
    requires lo <= mid <= hi
    ensures FlatKept(a, c, r, lo, hi) && TablesKept(a, c)
    ensures TablesSame(a, b) && TablesSame(b, c) ==> TablesSame(a, c)
  {
    forall v: nat | InRange(v) && !(lo <= v < hi) ensures Flat(c, r, v) == Flat(a, r, v) {
      assert Flat(b, r, v) == Flat(a, r, v);
    }
    forall t: Slot | Live(a, t) ensures t.r != r || Entry(a.nodes, t).Table? ==>
      Entry(c.nodes, t) == Entry(a.nodes, t) {
      assert t.r != r || Entry(a.nodes, t).Table? ==> Entry(b.nodes, t) == Entry(a.nodes, t);
    }
    if TablesSame(a, b) && TablesSame(b, c) {
      forall t: Slot | Live(a, t) && t.l > 0 ensures Entry(c.nodes, t) == Entry(a.nodes, t) {
        assert Entry(b.nodes, t) == Entry(a.nodes, t);
      }
    }
  }

  /** The flat map depends on the tables alone. */
  lemma SameNodes(a: Mem, b: Mem, c: Mem, r: nat, lo: nat, hi: nat)
    requires FlatKept(a, b, r, lo, hi) && TablesKept(a, b) && c.nodes == b.nodes && c.roots == b.roots
    ensures FlatKept(a, c, r, lo, hi) && TablesKept(a, c) && (TablesSame(a, b) ==> TablesSame(a, c))
  {
    forall v: nat ensures Flat(c, r, v) == Flat(b, r, v) {
    }
  }

  /**
   * When an operation leaves every mapping and every held page as it was, the pages it took
   * and did not return are page-table pages, each now in the tree that took it.
   */
  lemma OnlyTablesTaken(m: Mem, n: Mem, pages: set<nat>, r: nat, p: nat)
    requires Owned(m, pages) && Owned(n, pages) && FlatKept(m, n, r, 0, 0) && TablesKept(m, n) && n.held == m.held
    requires p in pages && p in m.free && p !in n.free
    ensures exists s: Slot ::
              Live(n, s) && s.r == r && s.l > 0 && Entry(n.nodes, s) == Table(p) && Entry(m.nodes, s) == Empty
  {
    assert Accounted(n, p);
    var s: Slot :| Live(n, s) && Ref(n.nodes, s) == Some(p);
    assert SlotOk(n, s) && SlotOk(m, s);
    SameOutside(m, n, r, s);
    assert Live(n, s) && s.r == r && s.l > 0 && Entry(n.nodes, s) == Table(p) && Entry(m.nodes, s) == Empty;
  }

  lemma SameOutside(m: Mem, n: Mem, r: nat, s: Slot)
    requires FlatKept(m, n, r, 0, 0) && Live(m, s)
    ensures s.l == 0 || s.r != r ==> Entry(n.nodes, s) == Entry(m.nodes, s)
  {
    PagesInTree(s.r, s.i);
    if s.l == 0 && s.r == r {
      assert Flat(n, r, s.i) == Flat(m, r, s.i);
    }
  }

  /** Entry s of the tree at r owns a page. */
  predicate TreeOwns(m: Mem, r: nat, s: Slot) { Live(m, s) && s.r == r && Ref(m.nodes, s).Some? }

  /** What a tree owned is on the free list once the tree is gone and no other tree has changed. */
  lemma AllReturned(m: Mem, n: Mem, pages: set<nat>, r: nat, p: nat)
    requires Owned(m, pages) && Owned(n, pages) && n.held == m.held && n.roots == m.roots - {r} && OthersKept(m, n, r)
    requires r in m.roots
    requires p in pages
    requires (p in m.free || p == r || exists s: Slot :: Live(m, s) && s.r == r && Ref(m.nodes, s) == Some(p))
    ensures p in n.free
  {
    var s: Slot;
    if !(p in m.free || p == r) {
      s :| Live(m, s) && s.r == r && Ref(m.nodes, s) == Some(p);
      assert SlotOk(m, s);
    }
    assert p !in n.held && p !in n.roots;
    assert Accounted(n, p);
    forall t: Slot | Live(n, t) ensures Ref(n.nodes, t) != Some(p) {
      assert Live(m, t) && Entry(n.nodes, t) == Entry(m.nodes, t) && SlotOk(m, t);
      if !(p in m.free || p == r) {
        assert Apart(m, s, t);
      }
    }
  }

  /** What mappages keeps of the held pages: the user pages it has mapped now belong to the tree. */
  function HeldAfter(held: set<nat>, v: nat, p: nat, done: nat): (r: set<nat>) {
    set q | q in held && !(p <= q < p + done && v + (q - p) < TRAPFRAME_VPN)
  }

  /** Pages v..v + n of r are mapped, in order, to the pages from p on. */
  ghost predicate Laid(m: Mem, r: nat, v: nat, n: nat, p: nat, flags: nat) {
    forall w: nat {:trigger Flat(m, r, w)} :: v <= w < v + n ==> Flat(m, r, w) == Leaf(p + (w - v), flags)
  }

  lemma LaidKept(a: Mem, b: Mem, r: nat, v: nat, n: nat, p: nat, flags: nat, hi: nat)
    requires Laid(a, r, v, n, p, flags) && FlatKept(a, b, r, v + n, hi) && v + n <= MAX_VPN
    ensures Laid(b, r, v, n, p, flags)
  {
    forall w: nat | v <= w < v + n ensures Flat(b, r, w) == Flat(a, r, w) {
    }
  }

  /** uvmunmap pushes the pages it unmaps in order. */
  ghost predicate Pushed(m: Mem, n: Mem, r: nat, v: nat, cnt: nat) {
    && |n.free| == |m.free| + cnt && n.free[cnt..] == m.free
    && forall i: nat {:trigger n.free[i]} :: i < cnt ==> IsPage(m, r, v + cnt - 1 - i, n.free[i])
  }

  ghost predicate IsPage(m: Mem, r: nat, v: nat, p: nat) { Flat(m, r, v).Leaf? && Flat(m, r, v).ppn == p }

  lemma PushOne(m: Mem, a: Mem, b: Mem, r: nat, v: nat, i: nat)
    requires Pushed(m, a, r, v, i) && Flat(m, r, v + i).Leaf? && b.free == [Flat(m, r, v + i).ppn] + a.free
    ensures Pushed(m, b, r, v, i + 1)
  {
    assert b.free[i + 1..] == a.free[i..];
    forall k: nat | k < i + 1 ensures IsPage(m, r, v + (i + 1) - 1 - k, b.free[k]) {
      if k > 0 {
        assert b.free[k] == a.free[k - 1] && IsPage(m, r, v + i - 1 - (k - 1), a.free[k - 1]);
      }
    }
  }

  lemma UnmappedFreed(m: Mem, n: Mem, r: nat, v: nat, cnt: nat)
    requires Pushed(m, n, r, v, cnt)
    ensures FreeShrinks(n, m) && FreedFrom(m, n, r, v, v + cnt)
  {
    forall p: nat | p in m.free ensures p in n.free {
      assert p in n.free[cnt..];
    }
    forall p: nat | p in n.free && p !in m.free
      ensures exists w: nat :: v <= w < v + cnt && Flat(m, r, w) != Empty && Flat(m, r, w).ppn == p
    {
      var i :| 0 <= i < |n.free| && n.free[i] == p;
      assert i < cnt;
      var w := v + cnt - 1 - i;
      assert v <= w < v + cnt && Flat(m, r, w) != Empty && Flat(m, r, w).ppn == p;
    }
  }

  /** Pages only leave the free list. */
  ghost predicate FreeShrinks(m: Mem, n: Mem) {
    forall p: nat :: p in n.free ==> p in m.free
  }

  /** What is new on the free list was mapped at lo..hi. */
  ghost predicate FreedFrom(m: Mem, n: Mem, r: nat, lo: nat, hi: nat) {
    forall p: nat :: p in n.free ==> p in m.free || exists w: nat ::
        lo <= w < hi && Flat(m, r, w) != Empty && Flat(m, r, w).ppn == p
  }

  lemma FreedAreNew(a: Mem, b: Mem, c: Mem, r: nat, lo: nat, hi: nat)
    requires FreeShrinks(a, b) && FromFree(a, b, r, lo, hi) && FreedFrom(b, c, r, lo, hi)
    ensures FreeShrinks(a, c)
  {
  }

  /** Pages lo..hi of r are mapped to pages that were on the free list. */
  ghost predicate FromFree(m: Mem, n: Mem, r: nat, lo: nat, hi: nat) {
    forall w: nat {:trigger Flat(n, r, w)} :: lo <= w < hi ==> Flat(n, r, w).Leaf? && Flat(n, r, w).ppn in m.free
  }

  ghost predicate FlagsAre(n: Mem, r: nat, lo: nat, hi: nat, flags: nat) {
    forall w: nat {:trigger Flat(n, r, w)} :: lo <= w < hi ==> Flat(n, r, w).Leaf? && Flat(n, r, w).flags == flags
  }

  lemma NewPagesKept(m: Mem, a: Mem, b: Mem, r: nat, lo: nat, mid: nat, hi: nat)
    requires FromFree(m, a, r, lo, mid) && FlatKept(a, b, r, mid, hi) && mid <= MAX_VPN
    ensures FromFree(m, b, r, lo, mid)
    ensures forall flags :: FlagsAre(a, r, lo, mid, flags) ==> FlagsAre(b, r, lo, mid, flags)
  {
    forall w: nat | lo <= w < mid ensures Flat(b, r, w) == Flat(a, r, w) {
    }
  }

  function PagesBetween(lo: nat, hi: nat): (r: set<nat>)
    requires lo <= hi
    ensures |r| == hi - lo && forall p: nat :: p in r <==> lo <= p < hi
  {
    if lo == hi then {} else PagesBetween(lo, hi - 1) + {hi - 1}
  }

  /** The user pages mapped at v..v + n of the tree at r. */
  ghost function UserPages(m: Mem, r: nat, v: nat, n: nat): (s: set<nat>) {
    if n == 0 then {}
    else
      var w := v + n - 1;
      UserPages(m, r, v, n - 1) + if w < TRAPFRAME_VPN && Flat(m, r, w).Leaf? then {Flat(m, r, w).ppn} else {}
  }

  lemma {:induction false} UserPageIs(m: Mem, r: nat, v: nat, n: nat, p: nat)
    requires p in UserPages(m, r, v, n)
    ensures exists w: nat :: v <= w < v + n && w < TRAPFRAME_VPN && IsPage(m, r, w, p)
  {
    var w := v + n - 1;
    if p in UserPages(m, r, v, n - 1) {
      UserPageIs(m, r, v, n - 1, p);
    } else {
      assert IsPage(m, r, w, p);
    }
  }

  /** Pages 0..k of the tree at r are mapped, and no later user page. */
  ghost predicate Filled(m: Mem, r: nat, k: nat) {
    k <= TRAPFRAME_VPN && forall w: nat {:trigger Flat(m, r, w)} :: w < TRAPFRAME_VPN ==>
      if w < k then Flat(m, r, w).Leaf? else Flat(m, r, w) == Empty
  }

  /** A page number that is mapped takes a page of its own. */
  lemma NewUserPage(m: Mem, pages: set<nat>, r: nat, k: nat)
    requires Owned(m, pages) && r in m.roots && k < TRAPFRAME_VPN && Flat(m, r, k).Leaf?
    ensures Flat(m, r, k).ppn in pages && Flat(m, r, k).ppn !in UserPages(m, r, 0, k)
  {
    var p, s := Flat(m, r, k).ppn, Slot(r, 0, k);
    PagesInTree(r, k);
    assert Live(m, s) && Ref(m.nodes, s) == Some(p);
    assert Accounted(m, p);
    forall w: nat | w < k ensures !IsPage(m, r, w, p) {
      PagesInTree(r, w);
      assert Apart(m, s, Slot(r, 0, w));
    }
    if p in UserPages(m, r, 0, k) {
      UserPageIs(m, r, 0, k, p);
    }
  }

  /** So no address space is larger than the memory. */
  lemma {:induction false} OnePageEach(m: Mem, pages: set<nat>, r: nat, k: nat)
    requires Owned(m, pages) && r in m.roots && k <= TRAPFRAME_VPN && forall w: nat :: w < k ==> Flat(m, r, w).Leaf?
    ensures UserPages(m, r, 0, k) <= pages && |UserPages(m, r, 0, k)| == k <= |pages|
  {
    if k > 0 {
      OnePageEach(m, pages, r, k - 1);
      NewUserPage(m, pages, r, k - 1);
    }
    var s := UserPages(m, r, 0, k);
    assert pages == s + (pages - s);
  }

  lemma StillFilled(m: Mem, n: Mem, r: nat, lo: nat, v: nat)
    requires Filled(m, r, lo) && FlatKept(m, n, r, lo, v) && FromFree(m, n, r, lo, v) && v <= TRAPFRAME_VPN
    ensures forall w: nat :: w < v ==> Flat(n, r, w).Leaf?
  {
    forall w: nat | w < v ensures Flat(n, r, w).Leaf? {
      assert w < lo ==> Flat(n, r, w) == Flat(m, r, w);
    }
  }

  lemma OneMore(m0: Mem, m1: Mem, r: nat, v: nat, i: nat)
    requires Flat(m1, r, v + i) == Flat(m0, r, v + i)
    ensures UserPages(m0, r, v, i + 1) == UserPages(m0, r, v, i) + UserPages(m1, r, v + i, 1)
  {
    assert UserPages(m1, r, v + i, 0) == {};
  }

  class Memory {
    var free: seq<nat>            // kmem.freelist
    var words: map<nat, Words>    // the contents of page-table pages
    ghost var m: Mem              // what they stand for

    /** Everything kinit handed to the allocator. */
    ghost const pages: set<nat>

    /** m is the stored state: the free list, and what the words of each table stand for. */
    ghost predicate Same()
      reads this
    {
      m.free == free && Mirrors(m.nodes, words)
    }

    ghost predicate Valid()
      reads this
    {
      Owned(m, pages) && Same() && |pages| < TRAPFRAME_VPN
    }

    /** kinit: freerange hands every page between the kernel's end and PHYSTOP to kfree.
        There are fewer of them than page numbers below TRAPFRAME. */
    constructor (lo: nat, hi: nat)
      requires lo <= hi < lo + TRAPFRAME_VPN
      ensures Valid() && pages == PagesBetween(lo, hi)
      ensures m.nodes == map[] && m.roots == {} && m.held == {} && |m.free| == hi - lo
    {
      pages := PagesBetween(lo, hi);
      free, words := [], map[];
      m := Mem([], map[], {}, {});
      new;
      var p := lo;
      while p < hi
        invariant lo <= p <= hi && m.nodes == map[] && m.roots == {} && m.held == {} && Same()
        invariant |m.free| == p - lo && forall i :: 0 <= i < |m.free| ==> m.free[i] == p - 1 - i
      {
        Kfree(p);
        p := p + 1;
      }
      forall q: nat ensures Accounted(m, q) <==> q in pages {
        assert q in pages ==> m.free[hi - 1 - q] == q;
      }
    }

    method Kalloc() returns (p: Option<nat>)
      requires Same()
      modifies this`free, this`m
      ensures Same()
      ensures p.None? <==> old(m).free == []
      ensures p.None? ==> m == old(m)
      ensures p.Some? ==> p.value == old(m).free[0] && m == Taken(old(m))
      ensures old(Valid()) ==> Valid()
    {
      if free == [] {
        return None;
      }
      p := Some(free[0]);
      ghost var was := m;
      free := free[1..];
      m := Taken(m);
      if Owned(was, pages) {
        TakenSound(was);
        forall q: nat ensures Accounted(m, q) <==> q in pages {
          assert Accounted(was, q) <==> q in pages;
        }
      }
    }

    /** kfree pushes whatever it is given; its callers see to it that the page is theirs. */
    method Kfree(p: nat)
      requires Same()
      modifies this`free, this`m
      ensures Same() && m == Given(old(m), p)
    {
      free := [p] + free;
      m := Given(m, p);
    }

    /** Assignment to an entry of a table. */
    method Store(page: nat, k: nat, w: nat, ghost e: Pte)
      requires Same() && page in words && k < 512 && Encodable(e) && w == Encode(e)
      modifies this`words, this`m
      ensures Same() && page in old(m).nodes && m == old(m).(nodes := Put(old(m).nodes, page, k, e))
    {
      MirrorsPut(m.nodes, words, page, k, e);
      words := words[page := words[page][k := w]];
      m := m.(nodes := Put(m.nodes, page, k, e));
    }

    /** memset of a page that becomes a table. */
    method Clear(page: nat)
      requires Same()
      modifies this`words, this`m
      ensures Same() && m == old(m).(nodes := old(m).nodes[page := Zeroed()])
    {
      MirrorsZero(m.nodes, words, page);
      words := words[page := ZeroWords()];
      m := m.(nodes := m.nodes[page := Zeroed()]);
    }

    /** One turn of walk's loop: from the table that holds entry s to the table s points to. */
    method Descend(page: nat, alloc: bool, ghost s: Slot, k: nat) returns (child: Option<nat>)
      requires Valid() && Live(m, s) && s.l > 0 && Home(m.nodes, s) == Some(page) && k == s.i % 512
      modifies this`free, this`words, this`m
      ensures Valid() && Extends(old(m), m, s.r) && FreeShrinks(old(m), m)
      ensures child.Some? ==> Entry(m.nodes, s) == Table(child.value)
      ensures !alloc || Entry(old(m).nodes, s).Table? || child.None? ==> m == old(m)
      ensures child.None? <==> Entry(old(m).nodes, s) == Empty && (!alloc || old(m).free == [])
    {
      HomeIsNode(m, s);
      assert SlotOk(m, s);
      ReadWord(m.nodes, words, page, k);
      var pte := words[page][k];
      if pte % 2 == 1 {
        return Some(Pte2Pa(pte) / PGSIZE);
      }
      if !alloc || free == [] {
        return None;
      }
      ghost var p := m.free[0];
      LinkExtends(m, pages, s, Put(m.nodes[p := Zeroed()], page, k, Table(p)));
      child := Kalloc();
      Clear(child.value);
      Store(page, k, Pa2Pte(child.value * PGSIZE) + V, Table(child.value));
      m := m.(held := m.held - {child.value});
      assert m == old(m).(free := old(m).free[1..], nodes := Put(old(m).nodes[p := Zeroed()], page, k, Table(p)));
    }

    /** walk: the page holding v's level-0 entry. With alloc it never changes what any page maps to. */
    method Walk(r: nat, v: nat, alloc: bool) returns (h: Option<nat>)
      requires Valid() && r in m.roots && v < MAX_VPN
      modifies this`free, this`words, this`m
      ensures Valid() && Extends(old(m), m, r) && FreeShrinks(old(m), m)
      ensures h.Some? ==> Home(m.nodes, Slot(r, 0, v)) == h && h.value in m.nodes && h.value in words
      ensures h.Some? ==> Entry(m.nodes, Slot(r, 0, v)) == m.nodes[h.value][v % 512]
      ensures !alloc ==> m == old(m) && h == Home(m.nodes, Slot(r, 0, v))
      ensures alloc && h.None? ==> m.free == []
      ensures Home(old(m).nodes, Slot(r, 0, v)).Some? ==> h.Some? && m == old(m)
    {
      PagesInTree(r, v);
      if Home(m.nodes, Slot(r, 0, v)).Some? {
        HomeMeans(m.nodes, r, v);
      }
      var page, level := r, 2;
      while level > 0
        invariant 0 <= level <= 2 && Valid() && Extends(old(m), m, r) && FreeShrinks(old(m), m)
        invariant InTree(Slot(r, level, Prefix(v, level)))
        invariant Home(m.nodes, Slot(r, level, Prefix(v, level))) == Some(page)
        invariant !alloc || Home(old(m).nodes, Slot(r, 0, v)).Some? ==> m == old(m)
      {
        ghost var s := Slot(r, level, Prefix(v, level));
        ghost var before := m;
        PxOfPage(v * PGSIZE, level);
        var child := Descend(page, alloc, s, Px(level, v * PGSIZE));
        ExtendsTwice(old(m), before, m, r);
        assert Up(Slot(r, level - 1, Prefix(v, level - 1))) == s;
        if child.None? {
          return None;
        }
        page, level := child.value, level - 1;
      }
      HomeIsNode(m, Slot(r, 0, v));
      return Some(page);
    }

    /** Index 0 of walk's result, as the callers use it. */
    lemma LastIndex(v: nat)
      ensures Px(0, v * PGSIZE) == v % 512
    {
      PxOfPage(v * PGSIZE, 0);
    }

    /** One turn of mappages's loop. */
    method MapOne(r: nat, v: nat, p: nat, perm: nat) returns (res: Result)
      requires Valid() && r in m.roots && v < MAX_VPN && Flat(m, r, v) == Empty && (v < TRAPFRAME_VPN ==> p in m.held)
      requires HasRwx(perm) && perm < 1024
      modifies this`free, this`words, this`m
      ensures Valid() && TablesKept(old(m), m) && FreeShrinks(old(m), m)
      ensures res.Error? ==> m.free == [] && FlatKept(old(m), m, r, v, v) && m.held == old(m).held
      ensures res.Ok? ==> FlatKept(old(m), m, r, v, v + 1) && Flat(m, r, v) == Leaf(p, WithV(perm))
                          && m.held == if v < TRAPFRAME_VPN then old(m).held - {p} else old(m).held
    {
      ghost var m0 := m;
      var h := Walk(r, v, true);
      ghost var m1 := m;
      ExtendsFlat(m0, m1, r, v);
      if h.None? {
        return Error;
      }
      assert Flat(m1, r, v) == Empty;
      ghost var e := Leaf(p, WithV(perm));
      FillsLeaf(m1, pages, r, v, p, WithV(perm), Put(m1.nodes, h.value, v % 512, e));
      LastIndex(v);
      Store(h.value, Px(0, v * PGSIZE), Pa2Pte(p * PGSIZE) + WithV(perm), e);
      m := m.(held := if v < TRAPFRAME_VPN then m.held - {p} else m.held);
      MapsOneFlat(m1, m, r, v, e);
      FlatKeptTwice(m0, m1, m, r, v, v, v + 1);
      return Ok;
    }

    /** mappages of n pages: exactly the range, or a prefix of it when tables run out. */
    method Mappages(r: nat, v: nat, n: nat, p: nat, perm: nat) returns (res: Result, ghost done: nat)
      requires Valid() && r in m.roots && n > 0 && v + n <= MAX_VPN && HasRwx(perm) && perm < 1024
      requires forall w: nat :: v <= w < v + n ==>
               Flat(m, r, w) == Empty && (w < TRAPFRAME_VPN ==> p + (w - v) in m.held)
      modifies this`free, this`words, this`m
      ensures Valid() && TablesKept(old(m), m) && FreeShrinks(old(m), m)
      ensures done <= n && (res.Ok? <==> done == n) && (res.Error? ==> m.free == [])
      ensures FlatKept(old(m), m, r, v, v + done) && Laid(m, r, v, done, p, WithV(perm))
      ensures m.held == HeldAfter(old(m).held, v, p, done)
    {
      ghost var m0 := m;
      var i := 0;
      assert HeldAfter(m.held, v, p, 0) == m.held;
      while i < n
        invariant i <= n && Valid() && TablesKept(m0, m) && FlatKept(m0, m, r, v, v + i) && FreeShrinks(m0, m)
        invariant Laid(m, r, v, i, p, WithV(perm)) && m.held == HeldAfter(m0.held, v, p, i)
      {
        ghost var m1 := m;
        assert Flat(m0, r, v + i) == Empty && Flat(m, r, v + i) == Empty;
        res := MapOne(r, v + i, p + i, perm);
        ghost var hi := if res.Ok? then v + i + 1 else v + i;
        FlatKeptTwice(m0, m1, m, r, v, v + i, hi);
        LaidKept(m1, m, r, v, i, p, WithV(perm), hi);
        if res.Error? {
          return Error, i;
        }
        assert HeldAfter(m0.held, v, p, i + 1) == if v + i < TRAPFRAME_VPN then m1.held - {p + i} else m1.held;
        i := i + 1;
      }
      return Ok, n;
    }

    /** One turn of uvmunmap's loop; with doFree the page goes back to the allocator. */
    method UnmapOne(r: nat, v: nat, doFree: bool)
      requires Valid() && r in m.roots && v < MAX_VPN && Flat(m, r, v).Leaf? && (doFree ==> v < TRAPFRAME_VPN)
      modifies this`free, this`words, this`m
      ensures Valid() && TablesKept(old(m), m) && TablesSame(old(m), m)
      ensures FlatKept(old(m), m, r, v, v + 1) && Flat(m, r, v) == Empty
      ensures doFree ==> m.held == old(m).held && m.free == [Flat(old(m), r, v).ppn] + old(m).free
      ensures !doFree ==> m.free == old(m).free && m.held == old(m).held + UserPages(old(m), r, v, 1)
    {
      ghost var m0 := m;
      var h := Walk(r, v, false);
      LastIndex(v);
      var k := Px(0, v * PGSIZE);
      ReadWord(m.nodes, words, h.value, k);
      ghost var held := if v < TRAPFRAME_VPN then m0.held + {Flat(m0, r, v).ppn} else m0.held;
      ghost var m1 := m0.(nodes := Put(m0.nodes, h.value, v % 512, Empty), held := held);
      ClearsLeaf(m0, pages, r, v, m1.nodes);
      MapsOneFlat(m0, m1, r, v, Empty);
      if doFree {
        var pa := Pte2Pa(words[h.value][k]) / PGSIZE;
        Kfree(pa);
        Store(h.value, k, 0, Empty);
        GivenOwned(m1, pages, pa);
        assert m == Given(m1, pa);
        SameNodes(m0, m1, m, r, v, v + 1);
      } else {
        Store(h.value, k, 0, Empty);
        m := m.(held := held);
        assert UserPages(m0, r, v, 0) == {};
      }
    }

    /** uvmunmap of n pages; with doFree they go back to the allocator. */
    method Uvmunmap(r: nat, v: nat, n: nat, doFree: bool)
      requires Valid() && r in m.roots && v + n <= MAX_VPN && (doFree ==> v + n <= TRAPFRAME_VPN)
      requires forall w: nat :: v <= w < v + n ==> Flat(m, r, w).Leaf?
      modifies this`free, this`words, this`m
      ensures Valid() && TablesKept(old(m), m) && TablesSame(old(m), m) && FlatKept(old(m), m, r, v, v + n)
      ensures forall w: nat :: v <= w < v + n ==> Flat(m, r, w) == Empty
      ensures doFree ==> m.held == old(m).held && Pushed(old(m), m, r, v, n)
      ensures !doFree ==> m.free == old(m).free && m.held == old(m).held + UserPages(old(m), r, v, n)
    {
      ghost var m0 := m;
      var i := 0;
      while i < n
        invariant i <= n && Valid() && TablesKept(m0, m) && TablesSame(m0, m) && FlatKept(m0, m, r, v, v + i)
        invariant forall w: nat :: v <= w < v + i ==> Flat(m, r, w) == Empty
        invariant doFree ==> m.held == m0.held && Pushed(m0, m, r, v, i)
        invariant !doFree ==> m.free == m0.free && m.held == m0.held + UserPages(m0, r, v, i)
      {
        ghost var m1 := m;
        assert Flat(m, r, v + i) == Flat(m0, r, v + i);
        UnmapOne(r, v + i, doFree);
        FlatKeptTwice(m0, m1, m, r, v, v + i, v + i + 1);
        forall w: nat | v <= w < v + i ensures Flat(m, r, w) == Empty {
          assert Flat(m1, r, w) == Empty;
        }
        if doFree {
          PushOne(m0, m1, m, r, v, i);
        } else {
          OneMore(m0, m1, r, v, i);
        }
        i := i + 1;
      }
    }

    /** uvmdealloc: unmaps and frees the pages between the two sizes. */
    method Uvmdealloc(r: nat, oldsz: nat, newsz: nat) returns (sz: nat)
      requires Valid() && r in m.roots && oldsz <= TRAPFRAME
      requires forall w: nat :: PagesUp(newsz) <= w < PagesUp(oldsz) ==> Flat(m, r, w).Leaf?
      modifies this`free, this`words, this`m
      ensures sz == if newsz < oldsz then newsz else oldsz
      ensures Valid() && TablesKept(old(m), m) && TablesSame(old(m), m) && m.held == old(m).held
      ensures FlatKept(old(m), m, r, PagesUp(newsz), PagesUp(oldsz))
      ensures forall w: nat :: PagesUp(newsz) <= w < PagesUp(oldsz) ==> Flat(m, r, w) == Empty
      ensures FreeShrinks(m, old(m)) && FreedFrom(old(m), m, r, PagesUp(newsz), PagesUp(oldsz))
    {
      PagesMonotone(newsz, oldsz);
      PagesMonotone(oldsz, newsz);
      PagesMonotone(oldsz, TRAPFRAME);
      ghost var m0 := m;
      if newsz >= oldsz {
        return oldsz;
      }
      if PagesUp(newsz) < PagesUp(oldsz) {
        var n := PagesUp(oldsz) - PagesUp(newsz);
        Uvmunmap(r, PagesUp(newsz), n, true);
        UnmappedFreed(m0, m, r, PagesUp(newsz), n);
      }
      return newsz;
    }

    /** kalloc, memset and mappages for one new user page; on failure the page is back on the free list. */
    method GrowOne(r: nat, v: nat, perm: nat) returns (res: Result)
      requires Valid() && r in m.roots && v < TRAPFRAME_VPN && Flat(m, r, v) == Empty && HasRwx(perm) && perm < 1024
      modifies this`free, this`words, this`m
      ensures Valid() && TablesKept(old(m), m) && m.held == old(m).held
      ensures FreeShrinks(old(m), m)
      ensures res.Error? ==> FlatKept(old(m), m, r, v, v)
      ensures res.Ok? ==>
                && FlatKept(old(m), m, r, v, v + 1) && FromFree(old(m), m, r, v, v + 1)
                && FlagsAre(m, r, v, v + 1, WithV(perm))
    {
      ghost var m0 := m;
      var mem := Kalloc();
      if mem.None? {
        return Error;
      }
      ghost var m1 := m;
      assert FlatKept(m0, m1, r, v, v) && TablesKept(m0, m1) by {
        SameNodes(m0, m0, m1, r, v, v);
      }
      var p := mem.value;
      assert p !in m0.held && m1.held - {p} == m0.held;
      res := MapOne(r, v, p, perm);
      ghost var m2 := m;
      FlatKeptTwice(m0, m1, m2, r, v, v, if res.Ok? then v + 1 else v);
      if res.Error? {
        Kfree(p);
        GivenOwned(m2, pages, p);
        SameNodes(m0, m2, m, r, v, v);
      }
    }

    /** uvmalloc: the new pages, or nothing at all; None stands for the source's 0. Memory runs
        out before the new pages reach the trapframe. */
    method Uvmalloc(r: nat, oldsz: nat, newsz: nat, xperm: nat) returns (sz: Option<nat>)
      requires Valid() && r in m.roots && xperm in {0, W, X, W + X} && Filled(m, r, PagesUp(oldsz))
      modifies this`free, this`words, this`m
      ensures Valid() && TablesKept(old(m), m) && m.held == old(m).held && FreeShrinks(old(m), m)
      ensures newsz < oldsz ==> sz == Some(oldsz) && m == old(m)
      ensures sz.None? ==> FlatKept(old(m), m, r, 0, 0)
      ensures sz.Some? && oldsz <= newsz ==> sz.value == newsz && PagesUp(newsz) < TRAPFRAME_VPN
      ensures sz.Some? ==> FlatKept(old(m), m, r, PagesUp(oldsz), PagesUp(newsz))
      ensures sz.Some? ==> FromFree(old(m), m, r, PagesUp(oldsz), PagesUp(newsz))
      ensures sz.Some? ==> FlagsAre(m, r, PagesUp(oldsz), PagesUp(newsz), WithV(R + U + xperm))
    {
      PagesMonotone(newsz, oldsz);
      PagesMonotone(oldsz, newsz);
      if newsz < oldsz {
        return Some(oldsz);
      }
      ghost var m0 := m;
      var lo := PagesUp(oldsz);
      var v := lo;
      Fits(m0, r, lo, v);
      while v * PGSIZE < newsz
        invariant lo <= v <= PagesUp(newsz) && v < TRAPFRAME_VPN
        invariant Valid() && TablesKept(m0, m) && m.held == m0.held && FreeShrinks(m0, m) && FlatKept(m0, m, r, lo, v)
        invariant FromFree(m0, m, r, lo, v) && FlagsAre(m, r, lo, v, WithV(R + U + xperm))
        decreases PagesUp(newsz) - v
      {
        ghost var m1 := m;
        assert Flat(m, r, v) == Flat(m0, r, v);
        var res := GrowOne(r, v, R + U + xperm);
        ghost var m2 := m;
        if res.Error? {
          NewPagesKept(m0, m1, m2, r, lo, v, v);
          FlatKeptTwice(m0, m1, m2, r, lo, v, v);
          TakeBack(r, lo, v, m0);
          return None;
        }
        NewPagesKept(m0, m1, m2, r, lo, v, v + 1);
        FlatKeptTwice(m0, m1, m2, r, lo, v, v + 1);
        v := v + 1;
        Fits(m0, r, lo, v);
      }
      return Some(newsz);
    }

    lemma Fits(m0: Mem, r: nat, lo: nat, v: nat)
      requires Valid() && r in m.roots && v <= TRAPFRAME_VPN
      requires Filled(m0, r, lo) && FlatKept(m0, m, r, lo, v) && FromFree(m0, m, r, lo, v)
      ensures v < TRAPFRAME_VPN
    {
      StillFilled(m0, m, r, lo, v);
      OnePageEach(m, pages, r, v);
    }

    /** uvmalloc's way out: the pages mapped since m0 go back. */
    method TakeBack(r: nat, lo: nat, v: nat, ghost m0: Mem)
      requires Valid() && r in m.roots && lo <= v < TRAPFRAME_VPN && Filled(m0, r, lo) && FreeShrinks(m0, m)
      requires TablesKept(m0, m) && FlatKept(m0, m, r, lo, v) && FromFree(m0, m, r, lo, v)
      modifies this`free, this`words, this`m
      ensures Valid() && m.held == old(m).held && FlatKept(m0, m, r, 0, 0) && TablesKept(m0, m) && FreeShrinks(m0, m)
    {
      ghost var m2 := m;
      PagesUpExact(v);
      PagesUpExact(lo);
      var back := Uvmdealloc(r, v * PGSIZE, lo * PGSIZE);
      FlatUndone(m0, m2, m, r, lo, v);
      FreedAreNew(m0, m2, m, r, lo, v);
    }

    // ---------------------------------------------------------------- freeing tables

    /**
     * freewalk of the table `page` whose entries are level l below prefix b of the tree at r.
     * `bare` is the memory just before the closing kfree: the table is empty by then.
     */
    method Freewalk(page: nat, ghost r: nat, ghost l: nat, ghost b: nat) returns (ghost bare: Mem)
      requires Valid() && r in m.roots && l <= 2 && InTree(Slot(r, l, b * 512))
      requires Home(m.nodes, Slot(r, l, b * 512)) == Some(page)
      requires NoLeaves(m, r)
      modifies this`free, this`words, this`m
      decreases l, 1
      ensures Owned(bare, pages) && Prunes(old(m), bare, r, l) && page in bare.nodes && bare.nodes[page] == Zeroed()
      ensures FreeShrinks(bare, old(m))
      ensures Same() && m == Given(bare, page)
    {
      ghost var m0 := m;
      HomeIsNode(m, Slot(r, l, b * 512));
      var i := 0;
      while i < 512
        invariant i <= 512 && Valid() && Prunes(m0, m, r, l) && page in m.nodes && FreeShrinks(m, m0)
        invariant forall j :: 0 <= j < i ==> m.nodes[page][j] == Empty
        invariant NoLeaves(m, r)
      {
        EntryInTable(m0, m, pages, r, l, b, i, page);
        ReadWord(m.nodes, words, page, i);
        var pte := words[page][i];
        if pte % 2 == 1 && !HasRwx(PteFlags(pte)) {
          ghost var m1 := m;
          FreeChild(page, i, Pte2Pa(pte) / PGSIZE, Slot(r, l, b * 512 + i));
          PrunesTwice(m0, m1, m, r, l);
          NoLeavesKept(m0, m, r, l);
          EntriesCleared(m0, m1, m, pages, r, l, b, i, page);
        }
        i := i + 1;
      }
      bare := m;
      assert m.nodes[page] == Zeroed();
      Kfree(page);
    }

    /** One lower table freed, and entry i of `page`, which pointed to it, cleared. */
    method FreeChild(page: nat, i: nat, child: nat, ghost s: Slot)
      requires Valid() && Live(m, s) && s.l > 0 && s.i % 512 == i && Home(m.nodes, s) == Some(page)
      requires Entry(m.nodes, s) == Table(child)
      requires InTree(Slot(s.r, s.l - 1, s.i * 512)) && Home(m.nodes, Slot(s.r, s.l - 1, s.i * 512)) == Some(child)
      requires NoLeaves(m, s.r)
      modifies this`free, this`words, this`m
      decreases s.l, 0
      ensures Valid() && Prunes(old(m), m, s.r, s.l) && page in m.nodes && FreeShrinks(m, old(m))
      ensures Entry(m.nodes, s) == Empty
    {
      ghost var m1 := m;
      ghost var inner := Freewalk(child, s.r, s.l - 1, s.i);
      TableStays(m1, inner, pages, s, page);
      ghost var m2 := inner.(nodes := Put(inner.nodes, page, i, Empty), held := inner.held + {child});
      PruneEntry(m1, inner, m2, pages, s, page, child);
      Store(page, i, 0, Empty);
      GivenOwned(m2, pages, child);
      assert m == Given(m2, child);
    }

    // ---------------------------------------------------------------- whole address spaces

    /** uvmcreate. */
    method Uvmcreate() returns (r: Option<nat>)
      requires Valid()
      modifies this`free, this`words, this`m
      ensures Valid() && (r.None? <==> old(m).free == []) && (r.None? ==> m == old(m))
      ensures r.Some? ==>
                && r.value in old(m).free && m == Rooted(Taken(old(m)), r.value) && NoLeaves(m, r.value)
                && OthersKept(old(m), m, r.value)
    {
      ghost var m0 := m;
      r := Kalloc();
      if r.Some? {
        RootedOwned(m, pages, r.value);
        RootedOthers(m0, r.value);
        Clear(r.value);
        m := m.(roots := m.roots + {r.value}, held := m.held - {r.value});
      }
    }

    /** uvmfree: user pages first, then the tables; every page of the tree is free afterwards. */
    method Uvmfree(r: nat, sz: nat)
      requires Valid() && r in m.roots && sz <= TRAPFRAME
      requires forall v: nat :: InRange(v) ==> if v < PagesUp(sz) then Flat(m, r, v).Leaf? else Flat(m, r, v) == Empty
      modifies this`free, this`words, this`m
      ensures Valid() && m.roots == old(m).roots - {r} && m.held == old(m).held && OthersKept(old(m), m, r)
      ensures forall p :: p in pages && p in old(m).free ==> p in m.free
      ensures forall s: Slot :: TreeOwns(old(m), r, s) && Ref(old(m).nodes, s).value in pages ==>
                Ref(old(m).nodes, s).value in m.free
      ensures r in pages ==> r in m.free
    {
      ghost var m0 := m;
      PagesMonotone(sz, TRAPFRAME);
      if sz > 0 {
        Uvmunmap(r, 0, PagesUp(sz), true);
      }
      ghost var m1 := m;
      assert InTree(Slot(r, 2, 0 * 512)) && Home(m.nodes, Slot(r, 2, 0 * 512)) == Some(r);
      assert NoLeaves(m, r);
      ghost var bare := Freewalk(r, r, 2, 0);
      m := m.(roots := m.roots - {r});
      UprootedOwned(bare, pages, r);
      assert m == Given(Uprooted(bare, r), r);
      GivenOwned(Uprooted(bare, r), pages, r);
      PrunesOthers(m0, m1, bare, m, r);
      forall p | p in pages && (p in m0.free || p == r) ensures p in m.free {
        AllReturned(m0, m, pages, r, p);
      }
      forall s: Slot | TreeOwns(m0, r, s) && Ref(m0.nodes, s).value in pages ensures Ref(m0.nodes, s).value in m.free {
        AllReturned(m0, m, pages, r, Ref(m0.nodes, s).value);
      }
    }

    /** uvmcopy of the pages below sz: a fresh page for each with the same flags, or nothing. */
    method Uvmcopy(from: nat, to: nat, sz: nat) returns (res: Result)
      requires Valid() && from in m.roots && to in m.roots && from != to && sz <= TRAPFRAME
      requires forall w: nat :: w < PagesUp(sz) ==> Flat(m, from, w).Leaf? && Flat(m, to, w) == Empty
      modifies this`free, this`words, this`m
      ensures Valid() && TablesKept(old(m), m) && m.held == old(m).held && FreeShrinks(old(m), m)
      ensures res.Error? ==> FlatKept(old(m), m, to, 0, 0)
      ensures res.Ok? ==>
                && FlatKept(old(m), m, to, 0, PagesUp(sz)) && FromFree(old(m), m, to, 0, PagesUp(sz))
                && SameFlags(old(m), m, from, to, PagesUp(sz))
    {
      ghost var m0 := m;
      PagesMonotone(sz, TRAPFRAME);
      var v := 0;
      while v * PGSIZE < sz
        invariant 0 <= v <= PagesUp(sz)
        invariant Valid() && TablesKept(m0, m) && m.held == m0.held && FreeShrinks(m0, m) && FlatKept(m0, m, to, 0, v)
        invariant FromFree(m0, m, to, 0, v) && SameFlags(m0, m, from, to, v)
        decreases PagesUp(sz) - v
      {
        ghost var m1 := m;
        SourceKept(m0, m1, from, to, v, v);
        var h := Walk(from, v, false);
        LastIndex(v);
        ReadWord(m.nodes, words, h.value, Px(0, v * PGSIZE));
        var flags := PteFlags(words[h.value][Px(0, v * PGSIZE)]);
        assert Flat(m, to, v) == Flat(m0, to, v);
        res := GrowOne(to, v, flags);
        ghost var m2 := m;
        if res.Error? {
          NewPagesKept(m0, m1, m2, to, 0, v, v);
          FlatKeptTwice(m0, m1, m2, to, 0, v, v);
          Uvmunmap(to, 0, v, true);
          UnmappedFreed(m2, m, to, 0, v);
          FlatUndone(m0, m2, m, to, 0, v);
          FreedAreNew(m0, m2, m, to, 0, v);
          return Error;
        }
        NewPagesKept(m0, m1, m2, to, 0, v, v + 1);
        FlatKeptTwice(m0, m1, m2, to, 0, v, v + 1);
        FlagsStay(m0, m1, m2, from, to, v);
        v := v + 1;
      }
      return Ok;
    }

    /** proc_pagetable: a tree with just the trampoline and the trapframe, or nothing. */
    method ProcPagetable(trampoline: nat, trapframe: nat) returns (r: Option<nat>, ghost root: nat)
      requires Valid()
      modifies this`free, this`words, this`m
      ensures Valid() && m.held == old(m).held && OthersKept(old(m), m, root) && (root in old(m).roots ==> m == old(m))
      ensures r.None? ==> m.roots == old(m).roots && forall p :: p in pages ==> (p in old(m).free <==> p in m.free)
      ensures r.Some? ==>
                && r.value == root && root in old(m).free && m.roots == old(m).roots + {root} && Space(m, root, 0)
                && Flat(m, root, TRAMPOLINE_VPN) == Leaf(trampoline, WithV(R + X))
                && Flat(m, root, TRAPFRAME_VPN) == Leaf(trapframe, WithV(R + W))
    {
      ghost var m0 := m;
      r := Uvmcreate();
      if r.None? {
        root := 0;
        return;
      }
      root := r.value;
      ghost var m1 := m;
      var res := MapOne(r.value, TRAMPOLINE_VPN, trampoline, R + X);
      OthersTwice(m0, m1, m, root);
      if res.Error? {
        ghost var m2 := m;
        Uvmfree(r.value, 0);
        OthersTwice(m0, m2, m, root);
        NothingLost(m0, m, pages, root);
        return None, root;
      }
      ghost var m3 := m;
      res := MapOne(r.value, TRAPFRAME_VPN, trapframe, R + W);
      OthersTwice(m0, m3, m, root);
      if res.Error? {
        ghost var m4 := m;
        Uvmunmap(r.value, TRAMPOLINE_VPN, 1, false);
        OthersTwice(m0, m4, m, root);
        ghost var m5 := m;
        Uvmfree(r.value, 0);
        OthersTwice(m0, m5, m, root);
        NothingLost(m0, m, pages, root);
        return None, root;
      }
    }

    /** proc_freepagetable: the special mappings go without their pages, the rest is freed. */
    method ProcFreepagetable(r: nat, sz: nat)
      requires Valid() && r in m.roots && sz <= TRAPFRAME && Space(m, r, PagesUp(sz))
      modifies this`free, this`words, this`m
      ensures Valid() && m.roots == old(m).roots - {r} && m.held == old(m).held && OthersKept(old(m), m, r)
      ensures forall p :: p in pages && (p in old(m).free || p == r) ==> p in m.free
      ensures forall s: Slot :: TreeOwns(old(m), r, s) && Ref(old(m).nodes, s).value in pages ==>
                Ref(old(m).nodes, s).value in m.free
    {
      ghost var m0 := m;
      Uvmunmap(r, TRAMPOLINE_VPN, 1, false);
      ghost var m1 := m;
      Uvmunmap(r, TRAPFRAME_VPN, 1, false);
      OthersTwice(m0, m1, m, r);
      ghost var m2 := m;
      Uvmfree(r, sz);
      OthersTwice(m0, m2, m, r);
      forall p | p in pages && (p in m0.free || p == r) ensures p in m.free {
        AllReturned(m0, m, pages, r, p);
      }
      forall s: Slot | TreeOwns(m0, r, s) && Ref(m0.nodes, s).value in pages ensures Ref(m0.nodes, s).value in m.free {
        AllReturned(m0, m, pages, r, Ref(m0.nodes, s).value);
      }
    }
  }

  /** Pages 0..n and the two special ones are mapped, and nothing else. */
  ghost predicate Space(m: Mem, r: nat, n: nat) {
    n <= TRAPFRAME_VPN && forall v: nat {:trigger Flat(m, r, v)} :: InRange(v) ==>
      if v < n || v == TRAPFRAME_VPN || v == TRAMPOLINE_VPN then Flat(m, r, v).Leaf? else Flat(m, r, v) == Empty
  }

  ghost predicate SameFlags(m: Mem, n: Mem, from: nat, to: nat, hi: nat) {
    forall w: nat {:trigger Flat(n, to, w)} :: w < hi ==>
      Flat(n, to, w).Leaf? && Flat(m, from, w).Leaf? && Flat(n, to, w).flags == WithV(Flat(m, from, w).flags)
  }

  lemma FlagsStay(m: Mem, a: Mem, b: Mem, from: nat, to: nat, v: nat)
    requires SameFlags(m, a, from, to, v) && FlatKept(a, b, to, v, v + 1) && v < MAX_VPN
    requires Flat(m, from, v).Leaf? && FlagsAre(b, to, v, v + 1, WithV(Flat(m, from, v).flags))
    ensures SameFlags(m, b, from, to, v + 1)
  {
    forall w: nat | w < v + 1
      ensures Flat(b, to, w).Leaf? && Flat(m, from, w).Leaf? && Flat(b, to, w).flags == WithV(Flat(m, from, w).flags)
    {
      assert w < v ==> Flat(b, to, w) == Flat(a, to, w);
    }
  }

  lemma SourceKept(m: Mem, n: Mem, from: nat, to: nat, hi: nat, v: nat)
    requires FlatKept(m, n, to, 0, hi) && from in m.roots && from != to && InRange(v)
    ensures Flat(n, from, v) == Flat(m, from, v)
  {
    PagesInTree(from, v);
  }

  lemma RootedOwned(m: Mem, pages: set<nat>, p: nat)
    requires Owned(m, pages) && p in m.held
    ensures Owned(Rooted(m, p), pages) && NoLeaves(Rooted(m, p), p)
  {
    RootedSound(m, p);
    forall q: nat ensures Accounted(Rooted(m, p), q) <==> q in pages {
      RootedAccounted(m, p, q);
    }
    forall v: nat | InRange(v) ensures Flat(Rooted(m, p), p, v) == Empty {
      PagesInTree(p, v);
      RootedSlot(m, p, Slot(p, 0, v));
    }
  }

  lemma RootedOthers(m: Mem, p: nat)
    requires Sound(m) && m.free != [] && p == m.free[0]
    ensures OthersKept(m, Rooted(Taken(m), p), p)
  {
    TakenSound(m);
    forall t: Slot | Live(m, t) && t.r != p ensures Entry(Rooted(Taken(m), p).nodes, t) == Entry(m.nodes, t) {
      assert Live(Rooted(Taken(m), p), t);
      RootedSlot(Taken(m), p, t);
    }
  }

  lemma OthersTwice(a: Mem, b: Mem, c: Mem, r: nat)
    requires OthersKept(a, b, r) && OthersKept(b, c, r) && a.roots <= b.roots
    ensures OthersKept(a, c, r)
  {
    forall t: Slot | Live(a, t) && t.r != r ensures Entry(c.nodes, t) == Entry(a.nodes, t) {
      assert Entry(b.nodes, t) == Entry(a.nodes, t);
    }
  }

  /** With the same trees and the same held pages, the same pages are free. */
  lemma NothingLost(m: Mem, n: Mem, pages: set<nat>, r: nat)
    requires Owned(m, pages) && Owned(n, pages) && n.held == m.held && n.roots == m.roots && OthersKept(m, n, r)
    requires r !in m.roots
    ensures forall p :: p in pages ==> (p in m.free <==> p in n.free)
  {
    forall p | p in pages ensures p in m.free <==> p in n.free {
      assert Accounted(m, p) && Accounted(n, p);
      forall t: Slot | Live(m, t) ensures Ref(n.nodes, t) == Ref(m.nodes, t) && SlotOk(m, t) && SlotOk(n, t) {
        assert Entry(n.nodes, t) == Entry(m.nodes, t);
      }
    }
  }

  lemma UprootedOwned(m: Mem, pages: set<nat>, p: nat)
    requires Owned(m, pages) && p in m.roots && m.nodes[p] == Zeroed()
    ensures Owned(Uprooted(m, p), pages)
  {
    UprootedSound(m, p);
    forall q: nat ensures Accounted(Uprooted(m, p), q) <==> q in pages {
      UprootedAccounted(m, p, q);
    }
  }

  lemma PrunesOthers(a: Mem, b: Mem, c: Mem, d: Mem, r: nat)
    requires a.roots == b.roots && OthersKept(a, b, r) && Prunes(b, c, r, 2) && d.nodes == c.nodes
    ensures OthersKept(a, d, r)
  {
    forall t: Slot | Live(a, t) && t.r != r ensures Entry(d.nodes, t) == Entry(a.nodes, t) {
      assert PrunesAt(b, c, r, 2, t) && Entry(b.nodes, t) == Entry(a.nodes, t);
    }
  }

  // ---------------------------------------------------------------- freeing tables: the entries

  /** The tree at r maps nothing. */
  ghost predicate NoLeaves(m: Mem, r: nat) {
    forall v: nat {:trigger Flat(m, r, v)} :: InRange(v) ==> Flat(m, r, v) == Empty
  }

  /** Only entries of r at levels up to l have changed, and those are now empty. */
  ghost predicate Prunes(m: Mem, n: Mem, r: nat, l: nat) {
    && n.roots == m.roots && n.held == m.held
    && forall t: Slot {:trigger PrunesAt(m, n, r, l, t)} :: Live(m, t) ==> PrunesAt(m, n, r, l, t)
  }

  ghost predicate PrunesAt(m: Mem, n: Mem, r: nat, l: nat, t: Slot)
    requires t.l <= 2
  {
    Entry(n.nodes, t) == Entry(m.nodes, t) || (t.r == r && t.l <= l && Entry(n.nodes, t) == Empty)
  }

  lemma PrunesTwice(a: Mem, b: Mem, c: Mem, r: nat, l: nat)
    requires Prunes(a, b, r, l) && Prunes(b, c, r, l)
    ensures Prunes(a, c, r, l)
  {
    forall t: Slot | Live(a, t) ensures PrunesAt(a, c, r, l, t) {
      assert PrunesAt(a, b, r, l, t) && PrunesAt(b, c, r, l, t);
    }
  }

  lemma NoLeavesKept(m: Mem, n: Mem, r: nat, l: nat)
    requires NoLeaves(m, r) && Prunes(m, n, r, l) && r in m.roots
    ensures NoLeaves(n, r)
  {
    forall v: nat | InRange(v) ensures Flat(n, r, v) == Empty {
      PagesInTree(r, v);
      assert PrunesAt(m, n, r, l, Slot(r, 0, v)) && Flat(m, r, v) == Empty;
    }
  }

  /** Entry i of the table being freed, read through the tree. */
  lemma EntryInTable(m0: Mem, m: Mem, pages: set<nat>, r: nat, l: nat, b: nat, i: nat, page: nat)
    requires Owned(m, pages) && Prunes(m0, m, r, l) && r in m.roots && l <= 2 && i < 512
    requires InTree(Slot(r, l, b * 512)) && Home(m0.nodes, Slot(r, l, b * 512)) == Some(page) && NoLeaves(m0, r)
    ensures var s := Slot(r, l, b * 512 + i);
            && InTree(s) && s.i % 512 == i && Home(m.nodes, s) == Some(page) && page in m.nodes
               && Entry(m.nodes, s) == m.nodes[page][i]
            && !Entry(m.nodes, s).Leaf? && NoLeaves(m, r)
            && (Entry(m.nodes, s).Table? ==>
                && l > 0 && InTree(Slot(r, l - 1, s.i * 512))
                && Home(m.nodes, Slot(r, l - 1, s.i * 512)) == Some(Entry(m.nodes, s).ppn))
  {
    var s := Slot(r, l, b * 512 + i);
    NoLeavesKept(m0, m, r, l);
    assert (b * 512 + i) / 512 == b && (b * 512 + i) % 512 == i && b * 512 / 512 == b;
    if l < 2 {
      assert Up(s) == Up(Slot(r, l, b * 512));
      assert Live(m, Up(s)) && PrunesAt(m0, m, r, l, Up(s));
    }
    assert Live(m, s) && SlotOk(m, s);
    HomeIsNode(m, s);
    if l == 0 {
      PagesInTree(r, s.i);
      assert Flat(m, r, s.i) == Empty;
    } else {
      assert s.i * 512 / 512 == s.i;
      assert Up(Slot(r, l - 1, s.i * 512)) == s;
    }
  }

  lemma TableStays(m1: Mem, inner: Mem, pages: set<nat>, s: Slot, page: nat)
    requires Owned(inner, pages) && Live(m1, s) && s.l > 0 && Prunes(m1, inner, s.r, s.l - 1)
    requires Home(m1.nodes, s) == Some(page)
    ensures Home(inner.nodes, s) == Some(page) && page in inner.nodes
  {
    if s.l < 2 {
      assert Live(m1, Up(s)) && PrunesAt(m1, inner, s.r, s.l - 1, Up(s));
    }
    HomeIsNode(inner, s);
  }

  /** Clearing an entry whose table has been emptied gives that table's page back. */
  lemma PruneEntry(m1: Mem, inner: Mem, m2: Mem, pages: set<nat>, s: Slot, page: nat, child: nat)
    requires Owned(m1, pages) && Owned(inner, pages) && Live(m1, s) && s.l > 0 && Prunes(m1, inner, s.r, s.l - 1)
    requires Entry(m1.nodes, s) == Table(child) && Home(m1.nodes, s) == Some(page)
    requires child in inner.nodes && inner.nodes[child] == Zeroed() && page in inner.nodes
    requires m2 == inner.(nodes := Put(inner.nodes, page, s.i % 512, Empty), held := inner.held + {child})
    ensures Owned(m2, pages) && child in m2.held && child !in inner.held && Prunes(m1, Given(m2, child), s.r, s.l)
    ensures Entry(m2.nodes, s) == Empty
  {
    assert PrunesAt(m1, inner, s.r, s.l - 1, s);
    if s.l < 2 {
      assert Live(m1, Up(s)) && PrunesAt(m1, inner, s.r, s.l - 1, Up(s));
    }
    assert SlotOk(inner, s);
    assert Legal(inner, s, Empty, m2.nodes);
    assert Written(inner, s, Empty, m2.nodes) == m2;
    WrittenSound(inner, s, Empty, m2.nodes);
    forall q: nat ensures Accounted(m2, q) <==> q in pages {
      WrittenAccounted(inner, s, Empty, m2.nodes, q);
    }
    forall t: Slot | Live(m1, t) ensures PrunesAt(m1, Given(m2, child), s.r, s.l, t) {
      assert PrunesAt(m1, inner, s.r, s.l - 1, t);
      RefKept(inner, m2.nodes, s, Empty, t);
    }
    assert Given(m2, child).held == m1.held;
    RefKept(inner, m2.nodes, s, Empty, s);
  }

  /** Entries emptied so far stay empty, and entry i has joined them. */
  lemma EntriesCleared(m0: Mem, m1: Mem, m: Mem, pages: set<nat>, r: nat, l: nat, b: nat, i: nat, page: nat)
    requires Owned(m1, pages) && Owned(m, pages) && Prunes(m0, m1, r, l) && Prunes(m1, m, r, l) && Prunes(m0, m, r, l)
    requires r in m0.roots && l <= 2 && i < 512 && InTree(Slot(r, l, b * 512))
    requires Home(m0.nodes, Slot(r, l, b * 512)) == Some(page) && NoLeaves(m0, r) && page in m1.nodes && page in m.nodes
    requires (forall j :: 0 <= j < i ==> m1.nodes[page][j] == Empty) && Entry(m.nodes, Slot(r, l, b * 512 + i)) == Empty
    ensures forall j :: 0 <= j < i + 1 ==> m.nodes[page][j] == Empty
  {
    forall j | 0 <= j < i + 1 ensures m.nodes[page][j] == Empty {
      EntryInTable(m0, m1, pages, r, l, b, j, page);
      EntryInTable(m0, m, pages, r, l, b, j, page);
      assert PrunesAt(m1, m, r, l, Slot(r, l, b * 512 + j));
    }
  }

  lemma PagesMonotone(a: nat, b: nat)
    ensures a <= b ==> PagesUp(a) <= PagesUp(b)
    ensures PagesUp(TRAPFRAME) == TRAPFRAME_VPN
  {
  }

  lemma PagesUpExact(v: nat)
    ensures PagesUp(v * PGSIZE) == v
  {
  }

  /** Mapping a stretch and unmapping it again leaves the flat map as it was. */
  lemma FlatUndone(a: Mem, b: Mem, c: Mem, r: nat, lo: nat, hi: nat)
    requires FlatKept(a, b, r, lo, hi) && FlatKept(b, c, r, lo, hi) && TablesKept(a, b) && TablesKept(b, c)
    requires lo <= hi <= MAX_VPN
    requires forall w: nat :: lo <= w < hi ==> Flat(a, r, w) == Empty && Flat(c, r, w) == Empty
    ensures FlatKept(a, c, r, 0, 0) && TablesKept(a, c)
  {
    forall v: nat | InRange(v) ensures Flat(c, r, v) == Flat(a, r, v) {
      assert !(lo <= v < hi) ==> Flat(b, r, v) == Flat(a, r, v);
    }
    forall t: Slot | Live(a, t) ensures t.r != r || Entry(a.nodes, t).Table? ==>
      Entry(c.nodes, t) == Entry(a.nodes, t) {
      assert t.r != r || Entry(a.nodes, t).Table? ==> Entry(b.nodes, t) == Entry(a.nodes, t);
    }
  }
}
