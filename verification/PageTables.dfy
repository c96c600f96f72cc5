// Physical pages and the three-level trees built from them: who owns each page, and how
// one changed entry shows in the flat map. Page numbers stand for page addresses.

module PageTables {
  import opened Sv39

  datatype Option<T> = None | Some(value: T)

  type Node = s: seq<Pte> | |s| == 512 witness seq(512, _ => Empty)

  /** A page-table page after memset 0. */
  function Zeroed(): (n: Node) { seq(512, _ => Empty) }

  /**
   * An entry of the tree rooted at page r: level l, and the leading part i of the page
   * numbers it covers. Level 0 entries are single pages.
   */
  datatype Slot = Slot(r: nat, l: nat, i: nat)

  predicate InTree(s: Slot)
    decreases 2 - s.l
  {
    s.l <= 2 && if s.l == 2 then s.i < 512 else InTree(Up(s))
  }

  function Up(s: Slot): (u: Slot) { Slot(s.r, s.l + 1, s.i / 512) }

  /** The page-table page that holds entry s. */
  function Home(nodes: map<nat, Node>, s: Slot): (h: Option<nat>)
    requires s.l <= 2
    decreases 2 - s.l, 0
  {
    if s.l == 2 then Some(s.r)
    else match Entry(nodes, Up(s)) case Table(p) => Some(p) case _ => None
  }

  function Entry(nodes: map<nat, Node>, s: Slot): (e: Pte)
    requires s.l <= 2
    decreases 2 - s.l, 1
  {
    match Home(nodes, s)
    case Some(h) => if h in nodes then nodes[h][s.i % 512] else Empty
    case None => Empty
  }

  /** free is kmem.freelist; held are pages kalloc gave out that no tree refers to. */
  datatype Mem = Mem(free: seq<nat>, nodes: map<nat, Node>, roots: set<nat>, held: set<nat>)

  /** The page an entry owns: a lower table, or a user page. TRAPFRAME and TRAMPOLINE own nothing. */
  function Ref(nodes: map<nat, Node>, s: Slot): (p: Option<nat>)
    requires s.l <= 2
  {
    match Entry(nodes, s)
    case Empty => None
    case Table(p) => Some(p)
    case Leaf(p, _) => if s.i < TRAPFRAME_VPN then Some(p) else None
  }

  // ---------------------------------------------------------------- ownership

  predicate Live(m: Mem, s: Slot) { s.r in m.roots && InTree(s) }

  predicate Loose(m: Mem, p: nat) { p in m.free || p in m.held || p in m.roots }

  /** Tables above, pages below, and what an entry owns is nobody else's. */
  ghost predicate SlotOk(m: Mem, s: Slot)
    requires InTree(s)
  {
    && (Entry(m.nodes, s).Table? ==> s.l > 0 && Entry(m.nodes, s).ppn in m.nodes)
    && (Entry(m.nodes, s).Leaf? ==> s.l == 0)
    && (Ref(m.nodes, s).Some? ==> !Loose(m, Ref(m.nodes, s).value))
  }

  ghost predicate Apart(m: Mem, s: Slot, t: Slot)
    requires InTree(s) && InTree(t)
  {
    Ref(m.nodes, s).Some? ==> Ref(m.nodes, s) != Ref(m.nodes, t)
  }

  ghost predicate LooseOk(m: Mem) {
    && (forall i, j :: 0 <= i < j < |m.free| ==> m.free[i] != m.free[j])
    && (forall i :: 0 <= i < |m.free| ==> m.free[i] !in m.held && m.free[i] !in m.roots)
    && m.held !! m.roots && m.roots <= m.nodes.Keys
  }

  /** No page has two owners. */
  ghost predicate Sound(m: Mem) {
    && LooseOk(m)
    && (forall s: Slot {:trigger SlotOk(m, s)} :: Live(m, s) ==> SlotOk(m, s))
    && (forall s: Slot, t: Slot {:trigger Apart(m, s, t)} :: Live(m, s) && Live(m, t) && s != t ==> Apart(m, s, t))
  }

  /** Page p has an owner. */
  ghost predicate Accounted(m: Mem, p: nat) {
    Loose(m, p) || exists s: Slot :: Live(m, s) && Ref(m.nodes, s) == Some(p)
  }

  // ---------------------------------------------------------------- one entry changes

  function Put(nodes: map<nat, Node>, h: nat, k: nat, e: Pte): (r: map<nat, Node>)
    requires h in nodes && k < 512
  {
    nodes[h := nodes[h][k := e]]
  }

  /** The tables that hold s and t are different pages unless s and t share their upper entry. */
  lemma HomesApart(m: Mem, s: Slot, t: Slot)
    requires Sound(m) && Live(m, s) && Live(m, t) && Home(m.nodes, s).Some? && Home(m.nodes, s) == Home(m.nodes, t)
    ensures s.l == t.l && s.r == t.r && (s.l < 2 ==> Up(s) == Up(t))
  {
    if s.l < 2 {
      assert Live(m, Up(s)) && SlotOk(m, Up(s));
    }
    if t.l < 2 {
      assert Live(m, Up(t)) && SlotOk(m, Up(t));
    }
    assert s.l < 2 && t.l < 2 ==> Up(s) == Up(t) || Apart(m, Up(s), Up(t));
  }

  lemma SameIndex(s: Slot, t: Slot)
    requires InTree(s) && InTree(t) && s.l == t.l && s.r == t.r && (s.l < 2 ==> Up(s) == Up(t))
    requires s.i % 512 == t.i % 512
    ensures s == t
  {
    if s.l == 2 {
      assert s.i % 512 == s.i && t.i % 512 == t.i;
    } else {
      assert s.i == s.i / 512 * 512 + s.i % 512;
      assert t.i == t.i / 512 * 512 + t.i % 512;
    }
  }

  /** s's home is there to be written. */
  lemma HomeIsNode(m: Mem, s: Slot)
    requires Sound(m) && Live(m, s) && Home(m.nodes, s).Some?
    ensures Home(m.nodes, s).value in m.nodes
  {
    if s.l < 2 {
      assert Live(m, Up(s)) && SlotOk(m, Up(s));
    }
  }

  /**
   * `nodes` is m's with entry s set to e, and page q (whose owner, if any, is e itself) zeroed.
   * What hangs below s is empty before and after.
   */
  ghost predicate Writes(m: Mem, nodes: map<nat, Node>, s: Slot, e: Pte) {
    && Sound(m) && Live(m, s) && Home(m.nodes, s).Some? && Home(m.nodes, s).value in m.nodes
    && (if e.Table? then
          e.ppn in m.held && Entry(m.nodes, s) == Empty && s.l > 0
          && nodes == Put(m.nodes[e.ppn := Zeroed()], Home(m.nodes, s).value, s.i % 512, e)
        else
          nodes == Put(m.nodes, Home(m.nodes, s).value, s.i % 512, e)
          && (Entry(m.nodes, s).Table? ==>
              Entry(m.nodes, s).ppn in m.nodes && m.nodes[Entry(m.nodes, s).ppn] == Zeroed()))
  }

  /** Only entry s reads differently. */
  lemma {:induction false} OnlyThatEntry(m: Mem, nodes: map<nat, Node>, s: Slot, e: Pte, t: Slot)
    requires Writes(m, nodes, s, e) && Live(m, t) && t != s
    ensures Entry(nodes, t) == Entry(m.nodes, t)
    decreases 2 - t.l
  {
    if t.l < 2 && Up(t) == s {
      EntryWritten(m, nodes, s, e);
      assert Entry(m.nodes, t) == Empty;
      if s.l < 2 {
        assert Live(m, Up(s)) && SlotOk(m, Up(s));
      }
      assert e.Table? ==> nodes[e.ppn] == Zeroed();
    } else {
      if t.l < 2 {
        assert Live(m, Up(t)) && SlotOk(m, Up(t));
        OnlyThatEntry(m, nodes, s, e, Up(t));
      }
      assert Home(nodes, t) == Home(m.nodes, t);
      SameHomeKept(m, nodes, s, e, t);
    }
  }

  lemma SameHomeKept(m: Mem, nodes: map<nat, Node>, s: Slot, e: Pte, t: Slot)
    requires Writes(m, nodes, s, e) && Live(m, t) && t != s && Home(nodes, t) == Home(m.nodes, t)
    requires t.l < 2 ==> SlotOk(m, Up(t))
    ensures Entry(nodes, t) == Entry(m.nodes, t)
  {
    if Home(m.nodes, t) == Home(m.nodes, s) {
      HomesApart(m, s, t);
      if s.i % 512 == t.i % 512 {
        SameIndex(s, t);
      }
    }
  }

  lemma {:induction false} EntryWritten(m: Mem, nodes: map<nat, Node>, s: Slot, e: Pte)
    requires Writes(m, nodes, s, e)
    ensures Entry(nodes, s) == e && Home(nodes, s) == Home(m.nodes, s)
    decreases 2 - s.l, 1
  {
    if s.l < 2 {
      assert Live(m, Up(s)) && SlotOk(m, Up(s));
      OnlyThatEntry(m, nodes, s, e, Up(s));
    }
  }

  // ---------------------------------------------------------------- pages change hands

  /** kalloc. */
  function Taken(m: Mem): (r: Mem)
    requires m.free != []
  {
    m.(free := m.free[1..], held := m.held + {m.free[0]})
  }

  /** kfree. */
  function Given(m: Mem, p: nat): (r: Mem) {
    m.(free := [p] + m.free, held := m.held - {p})
  }

  /** uvmcreate once it has a page. */
  function Rooted(m: Mem, p: nat): (r: Mem) {
    m.(nodes := m.nodes[p := Zeroed()], roots := m.roots + {p}, held := m.held - {p})
  }

  /** A page that stops being a root. */
  function Uprooted(m: Mem, p: nat): (r: Mem) {
    m.(roots := m.roots - {p}, held := m.held + {p})
  }

  /** Entry s becomes e; a page e owns was held, a page the old entry owned is held afterwards. */
  function Written(m: Mem, s: Slot, e: Pte, nodes: map<nat, Node>): (r: Mem)
    requires s.l <= 2
  {
    var gone := match Ref(m.nodes, s) case Some(p) => {p} case None => {};
    var used := match e case Empty => {} case Table(p) => {p} case Leaf(p, _) => if s.i < TRAPFRAME_VPN then {p}
      else {};
    m.(nodes := nodes, held := m.held - used + gone)
  }

  /** What may be written where: an empty entry is filled from held pages, a filled one is emptied. */
  ghost predicate Legal(m: Mem, s: Slot, e: Pte, nodes: map<nat, Node>) {
    && Writes(m, nodes, s, e)
    && (e != Empty ==> Entry(m.nodes, s) == Empty)
    && (e.Leaf? ==> s.l == 0 && (s.i < TRAPFRAME_VPN ==> e.ppn in m.held))
  }

  lemma RefKept(m: Mem, nodes: map<nat, Node>, s: Slot, e: Pte, t: Slot)
    requires Legal(m, s, e, nodes) && Live(m, t)
    ensures t != s ==> Entry(nodes, t) == Entry(m.nodes, t) && Ref(nodes, t) == Ref(m.nodes, t)
    ensures t == s ==> Entry(nodes, t) == e
  {
    if t == s {
      EntryWritten(m, nodes, s, e);
    } else {
      OnlyThatEntry(m, nodes, s, e, t);
    }
  }

  lemma WrittenSlot(m: Mem, s: Slot, e: Pte, nodes: map<nat, Node>, t: Slot)
    requires Legal(m, s, e, nodes) && Live(m, t)
    ensures SlotOk(Written(m, s, e, nodes), t)
  {
    assert SlotOk(m, t) && SlotOk(m, s);
    RefKept(m, nodes, s, e, t);
    if t != s {
      assert Apart(m, t, s) && Apart(m, s, t);
    }
  }

  lemma WrittenApart(m: Mem, s: Slot, e: Pte, nodes: map<nat, Node>, t: Slot, u: Slot)
    requires Legal(m, s, e, nodes) && Live(m, t) && Live(m, u) && t != u
    ensures Apart(Written(m, s, e, nodes), t, u)
  {
    RefKept(m, nodes, s, e, t);
    RefKept(m, nodes, s, e, u);
    assert SlotOk(m, t) && SlotOk(m, u) && Apart(m, t, u);
  }

  /** A legal write moves pages between the held set and the tree, and nothing else. */
  lemma WrittenSound(m: Mem, s: Slot, e: Pte, nodes: map<nat, Node>)
    requires Legal(m, s, e, nodes)
    ensures Sound(Written(m, s, e, nodes))
  {
    var r := Written(m, s, e, nodes);
    assert SlotOk(m, s);
    forall t: Slot | Live(r, t) ensures SlotOk(r, t) {
      WrittenSlot(m, s, e, nodes, t);
    }
    forall t: Slot, u: Slot | Live(r, t) && Live(r, u) && t != u ensures Apart(r, t, u) {
      WrittenApart(m, s, e, nodes, t, u);
    }
  }

  lemma WrittenAccounted(m: Mem, s: Slot, e: Pte, nodes: map<nat, Node>, p: nat)
    requires Legal(m, s, e, nodes)
    ensures Accounted(m, p) <==> Accounted(Written(m, s, e, nodes), p)
  {
    if Accounted(m, p) {
      WrittenOwns(m, s, e, nodes, p);
    }
    if Accounted(Written(m, s, e, nodes), p) {
      WrittenOwned(m, s, e, nodes, p);
    }
  }

  lemma WrittenOwns(m: Mem, s: Slot, e: Pte, nodes: map<nat, Node>, p: nat)
    requires Legal(m, s, e, nodes) && Accounted(m, p)
    ensures Accounted(Written(m, s, e, nodes), p)
  {
    var r := Written(m, s, e, nodes);
    RefKept(m, nodes, s, e, s);
    if Loose(m, p) {
      if !Loose(r, p) {
        assert Live(r, s) && Ref(r.nodes, s) == Some(p);
      }
    } else {
      var t: Slot :| Live(m, t) && Ref(m.nodes, t) == Some(p);
      RefKept(m, nodes, s, e, t);
      if t != s {
        assert Live(r, t) && Ref(r.nodes, t) == Some(p);
      }
    }
  }

  lemma WrittenOwned(m: Mem, s: Slot, e: Pte, nodes: map<nat, Node>, p: nat)
    requires Legal(m, s, e, nodes) && Accounted(Written(m, s, e, nodes), p)
    ensures Accounted(m, p)
  {
    var r := Written(m, s, e, nodes);
    RefKept(m, nodes, s, e, s);
    if Loose(r, p) {
      if !Loose(m, p) {
        assert Live(m, s) && Ref(m.nodes, s) == Some(p);
      }
    } else {
      var t: Slot :| Live(r, t) && Ref(r.nodes, t) == Some(p);
      RefKept(m, nodes, s, e, t);
      if t != s {
        assert Live(m, t) && Ref(m.nodes, t) == Some(p);
      }
    }
  }

  /** kalloc, kfree: the trees are not touched. */
  lemma TakenSound(m: Mem)
    requires Sound(m) && m.free != []
    ensures Sound(Taken(m)) && forall p :: Accounted(m, p) <==> Accounted(Taken(m), p)
  {
    var r := Taken(m);
    forall s: Slot | Live(r, s) ensures SlotOk(r, s) {
      assert SlotOk(m, s);
    }
    forall s: Slot, t: Slot | Live(r, s) && Live(r, t) && s != t ensures Apart(r, s, t) {
      assert Apart(m, s, t);
    }
    forall p ensures Accounted(m, p) <==> Accounted(r, p) {
      LooseMoves(m, r, p);
    }
  }

  lemma GivenSound(m: Mem, q: nat)
    requires Sound(m) && q in m.held
    ensures Sound(Given(m, q)) && forall p :: Accounted(m, p) <==> Accounted(Given(m, q), p)
  {
    var r := Given(m, q);
    forall s: Slot | Live(r, s) ensures SlotOk(r, s) {
      assert SlotOk(m, s);
    }
    forall s: Slot, t: Slot | Live(r, s) && Live(r, t) && s != t ensures Apart(r, s, t) {
      assert Apart(m, s, t);
    }
    forall p ensures Accounted(m, p) <==> Accounted(r, p) {
      LooseMoves(m, r, p);
    }
  }

  /** Loose pages change hands and the trees stay. */
  lemma LooseMoves(m: Mem, r: Mem, p: nat)
    requires r.nodes == m.nodes && m.roots == r.roots && (Loose(m, p) <==> Loose(r, p))
    ensures Accounted(m, p) <==> Accounted(r, p)
  {
    if Accounted(m, p) && !Loose(m, p) {
      var t: Slot :| Live(m, t) && Ref(m.nodes, t) == Some(p);
      assert Live(r, t) && Ref(r.nodes, t) == Some(p);
    }
    if Accounted(r, p) && !Loose(r, p) {
      var t: Slot :| Live(r, t) && Ref(r.nodes, t) == Some(p);
      assert Live(m, t) && Ref(m.nodes, t) == Some(p);
    }
  }

  /** A held page is part of no tree, so its contents do not matter. */
  lemma {:induction false} HeldIgnored(m: Mem, p: nat, n: Node, t: Slot)
    requires Sound(m) && p in m.held && Live(m, t)
    ensures Entry(m.nodes[p := n], t) == Entry(m.nodes, t)
    decreases 2 - t.l
  {
    if t.l < 2 {
      assert Live(m, Up(t)) && SlotOk(m, Up(t));
      HeldIgnored(m, p, n, Up(t));
    }
  }

  lemma {:induction false} BareRoot(nodes: map<nat, Node>, s: Slot)
    requires InTree(s) && s.r in nodes && nodes[s.r] == Zeroed()
    ensures Entry(nodes, s) == Empty
    decreases 2 - s.l
  {
    if s.l < 2 {
      BareRoot(nodes, Up(s));
    }
  }

  lemma RootedSlot(m: Mem, p: nat, t: Slot)
    requires Sound(m) && p in m.held && Live(Rooted(m, p), t)
    ensures SlotOk(Rooted(m, p), t) && Entry(Rooted(m, p).nodes, t) == if t.r == p then Empty else Entry(m.nodes, t)
  {
    if t.r == p {
      BareRoot(m.nodes[p := Zeroed()], t);
    } else {
      assert SlotOk(m, t);
      HeldIgnored(m, p, Zeroed(), t);
    }
  }

  lemma RootedAccounted(m: Mem, p: nat, q: nat)
    requires Sound(m) && p in m.held
    ensures Accounted(m, q) <==> Accounted(Rooted(m, p), q)
  {
    var r := Rooted(m, p);
    if Accounted(m, q) && !Loose(m, q) {
      var t: Slot :| Live(m, t) && Ref(m.nodes, t) == Some(q);
      RootedSlot(m, p, t);
      assert Live(r, t) && Ref(r.nodes, t) == Some(q);
    }
    if Accounted(r, q) && !Loose(r, q) {
      var t: Slot :| Live(r, t) && Ref(r.nodes, t) == Some(q);
      RootedSlot(m, p, t);
      assert Live(m, t) && Ref(m.nodes, t) == Some(q);
    }
  }

  lemma RootedSound(m: Mem, p: nat)
    requires Sound(m) && p in m.held
    ensures Sound(Rooted(m, p))
  {
    var r := Rooted(m, p);
    forall s: Slot | Live(r, s) ensures SlotOk(r, s) {
      RootedSlot(m, p, s);
    }
    forall s: Slot, t: Slot | Live(r, s) && Live(r, t) && s != t ensures Apart(r, s, t) {
      RootedSlot(m, p, s);
      RootedSlot(m, p, t);
      assert s.r == p || t.r == p || Apart(m, s, t);
    }
  }

  lemma UprootedAccounted(m: Mem, p: nat, q: nat)
    requires Sound(m) && p in m.roots && m.nodes[p] == Zeroed()
    ensures Accounted(m, q) <==> Accounted(Uprooted(m, p), q)
  {
    var r := Uprooted(m, p);
    if Accounted(m, q) && !Loose(m, q) {
      var t: Slot :| Live(m, t) && Ref(m.nodes, t) == Some(q);
      if t.r == p {
        BareRoot(m.nodes, t);
      }
      assert Live(r, t) && Ref(r.nodes, t) == Some(q);
    }
    if Accounted(r, q) && !Loose(r, q) {
      var t: Slot :| Live(r, t) && Ref(r.nodes, t) == Some(q);
      assert Live(m, t) && Ref(m.nodes, t) == Some(q);
    }
  }

  lemma UprootedSound(m: Mem, p: nat)
    requires Sound(m) && p in m.roots && m.nodes[p] == Zeroed()
    ensures Sound(Uprooted(m, p))
  {
    var r := Uprooted(m, p);
    forall s: Slot | Live(r, s) ensures SlotOk(r, s) {
      assert SlotOk(m, s);
    }
    forall s: Slot, t: Slot | Live(r, s) && Live(r, t) && s != t ensures Apart(r, s, t) {
      assert Apart(m, s, t);
    }
  }

  // ---------------------------------------------------------------- the flat map

  /** What page number v is mapped to in the tree at r. */
  function Flat(m: Mem, r: nat, v: nat): (e: Pte) { Entry(m.nodes, Slot(r, 0, v)) }

  /** Page numbers the three levels can express. */
  predicate InRange(v: nat) { v < 0x800_0000 }

  lemma PagesInTree(r: nat, v: nat)
    ensures InTree(Slot(r, 0, v)) <==> InRange(v)
  {
    assert InTree(Slot(r, 2, v / 512 / 512)) <==> v / 512 / 512 < 512;
    assert InTree(Slot(r, 1, v / 512)) <==> InTree(Slot(r, 2, v / 512 / 512));
  }

  /** The pages kalloc manages, and no others, have an owner, and none has two. */
  ghost predicate Owned(m: Mem, pages: set<nat>) {
    Sound(m) && forall p: nat {:trigger Accounted(m, p)} :: Accounted(m, p) <==> p in pages
  }

  /** Nothing but empty table entries of r's tree have changed, and those point to new tables. */
  ghost predicate Extends(m: Mem, n: Mem, r: nat) {
    n.roots == m.roots && n.held == m.held && forall t: Slot {:trigger ExtendsAt(m, n, r, t)} :: Live(m, t) ==>
      ExtendsAt(m, n, r, t)
  }

  ghost predicate ExtendsAt(m: Mem, n: Mem, r: nat, t: Slot)
    requires t.l <= 2
  {
    Entry(n.nodes, t) == Entry(m.nodes, t)
      || (t.r == r && t.l > 0 && Entry(m.nodes, t) == Empty && Entry(n.nodes, t).Table?)
  }

  lemma ExtendsTwice(a: Mem, b: Mem, c: Mem, r: nat)
    requires Extends(a, b, r) && Extends(b, c, r)
    ensures Extends(a, c, r)
  {
    forall t: Slot | Live(a, t) ensures ExtendsAt(a, c, r, t) {
      assert ExtendsAt(a, b, r, t) && ExtendsAt(b, c, r, t);
    }
  }

  /** A new table under s, taken from the free list, is an extension. */
  lemma LinkExtends(m: Mem, pages: set<nat>, s: Slot, nodes: map<nat, Node>)
    requires Owned(m, pages) && m.free != [] && Live(m, s) && s.l > 0 && Entry(m.nodes, s) == Empty
    requires Home(m.nodes, s).Some? && Home(m.nodes, s).value in m.nodes
    requires nodes == Put(m.nodes[m.free[0] := Zeroed()], Home(m.nodes, s).value, s.i % 512, Table(m.free[0]))
    ensures var n := m.(free := m.free[1..], nodes := nodes);
            Owned(n, pages) && Extends(m, n, s.r) && Entry(n.nodes, s) == Table(m.free[0])
  {
    var p := m.free[0];
    var t := Taken(m);
    var n := m.(free := m.free[1..], nodes := nodes);
    TakenSound(m);
    assert p in t.held && p !in m.held;
    assert Legal(t, s, Table(p), nodes);
    WrittenSound(t, s, Table(p), nodes);
    assert Written(t, s, Table(p), nodes) == n;
    forall q: nat ensures Accounted(n, q) <==> q in pages {
      assert Accounted(m, q) <==> Accounted(t, q);
      WrittenAccounted(t, s, Table(p), nodes, q);
    }
    forall u: Slot | Live(m, u) ensures ExtendsAt(m, n, s.r, u) {
      assert Live(t, u);
      RefKept(t, nodes, s, Table(p), u);
    }
    RefKept(t, nodes, s, Table(p), s);
  }
}
