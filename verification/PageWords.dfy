// Page-table pages as they are stored: 512 words each, read as kernel/riscv.h and the
// memory management unit read them, against the entries PageTables reasons about.

module PageWords {
  import opened Sv39
  import opened PageTables

  type Words = w: seq<nat> | |w| == 512 witness seq(512, _ => 0)

  /** A page after memset 0. */
  function ZeroWords(): (w: Words) { seq(512, _ => 0) }

  ghost predicate MirrorsAt(n: Node, w: Words, k: nat)
    requires k < 512
  {
    n[k] == Decode(w[k])
  }

  /** The stored words stand for these entries. */
  ghost predicate Mirrors(nodes: map<nat, Node>, words: map<nat, Words>) {
    && nodes.Keys == words.Keys
    && forall h, k {:trigger MirrorsAt(nodes[h], words[h], k)} :: h in nodes && 0 <= k < 512 ==>
       MirrorsAt(nodes[h], words[h], k)
  }

  /** Storing the word for an entry stores that entry. */
  lemma MirrorsPut(nodes: map<nat, Node>, words: map<nat, Words>, h: nat, k: nat, e: Pte)
    requires Mirrors(nodes, words) && h in nodes && k < 512 && Encodable(e)
    ensures Mirrors(Put(nodes, h, k, e), words[h := words[h][k := Encode(e)]])
  {
    EntryRoundTrip(e);
    var n, w := Put(nodes, h, k, e), words[h := words[h][k := Encode(e)]];
    forall g, j | g in n && 0 <= j < 512 ensures MirrorsAt(n[g], w[g], j) {
      assert MirrorsAt(nodes[g], words[g], j);
    }
  }

  lemma MirrorsZero(nodes: map<nat, Node>, words: map<nat, Words>, p: nat)
    requires Mirrors(nodes, words)
    ensures Mirrors(nodes[p := Zeroed()], words[p := ZeroWords()])
  {
    var n, w := nodes[p := Zeroed()], words[p := ZeroWords()];
    forall g, j | g in n && 0 <= j < 512 ensures MirrorsAt(n[g], w[g], j) {
      assert g != p ==> MirrorsAt(nodes[g], words[g], j);
    }
  }

  /** What the tests of the source on a stored word say about the entry. */
  lemma ReadWord(nodes: map<nat, Node>, words: map<nat, Words>, h: nat, k: nat)
    requires Mirrors(nodes, words) && h in nodes && k < 512
    ensures var w, e := words[h][k], nodes[h][k];
            && (w % 2 == 1 <==> e != Empty)
            && (w % 2 == 1 && !HasRwx(PteFlags(w)) <==> e.Table?)
            && (e != Empty ==> Pte2Pa(w) / PGSIZE == e.ppn)
            && (e.Leaf? ==> PteFlags(w) == e.flags && LeafFlags(e.flags))
  {
    assert MirrorsAt(nodes[h], words[h], k);
    DecodeEncodable(words[h][k]);
  }

  // ---------------------------------------------------------------- address translation

  /** Address translation from the table `page` of this level down (section 4.3.2 of the
      RISC-V Privileged Architecture manual): Empty is a page fault. */
  function Translate(words: map<nat, Words>, page: nat, level: nat, va: nat): (e: Pte)
    requires level <= 2
    decreases level
  {
    if page !in words then Empty
    else
      match Decode(words[page][Px(level, va)])
      case Table(p) => if level == 0 then Empty else Translate(words, p, level - 1, va)
      case e => e
  }

  lemma {:induction false} TranslateEntry(m: Mem, words: map<nat, Words>, r: nat, v: nat, va: nat, level: nat,
      page: nat)
    requires Sound(m) && Mirrors(m.nodes, words) && r in m.roots && level <= 2 && v == va / PGSIZE && InRange(v)
    requires Home(m.nodes, Slot(r, level, Prefix(v, level))) == Some(page) && InTree(Slot(r, level, Prefix(v, level)))
    ensures Translate(words, page, level, va) == Flat(m, r, v)
    decreases level
  {
    var s := Slot(r, level, Prefix(v, level));
    PxOfPage(va, level);
    HomeIsNode(m, s);
    assert Live(m, s) && SlotOk(m, s);
    assert MirrorsAt(m.nodes[page], words[page], Px(level, va));
    if level > 0 {
      var t := Slot(r, level - 1, Prefix(v, level - 1));
      assert Up(t) == s;
      PagesInTree(r, v);
      if Entry(m.nodes, s).Table? {
        TranslateEntry(m, words, r, v, va, level - 1, Entry(m.nodes, s).ppn);
      } else {
        NothingBelow(m.nodes, r, v, level);
      }
    }
  }

  /** Where a table is missing on the way, nothing is mapped. */
  lemma NothingBelow(nodes: map<nat, Node>, r: nat, v: nat, level: nat)
    requires 0 < level <= 2 && !Entry(nodes, Slot(r, level, Prefix(v, level))).Table?
    ensures Entry(nodes, Slot(r, 0, v)) == Empty
  {
    assert Up(Slot(r, 0, v)) == Slot(r, 1, v / 512);
    assert Up(Slot(r, 1, v / 512)) == Slot(r, 2, v / 512 / 512);
    if level == 2 {
      assert Home(nodes, Slot(r, 1, v / 512)).None?;
      assert Entry(nodes, Slot(r, 1, v / 512)) == Empty;
    }
    assert Home(nodes, Slot(r, 0, v)).None?;
  }

  /** The three-level tree of stored words is the flat map: for every address below MAXVA the
      translation is what the flat map says about its page. */
  lemma TranslationIsFlat(m: Mem, words: map<nat, Words>, r: nat, va: nat)
    requires Sound(m) && Mirrors(m.nodes, words) && r in m.roots && va < MAXVA
    ensures Translate(words, r, 2, va) == Flat(m, r, va / PGSIZE)
  {
    PagesInTree(r, va / PGSIZE);
    TranslateEntry(m, words, r, va / PGSIZE, va, 2, r);
  }

  /** No two pages below MAXVA, in one tree or in two, share a stored level-0 entry. */
  lemma WalkInjective(m: Mem, q: nat, va: nat, r: nat, vb: nat)
    requires Sound(m) && q in m.roots && r in m.roots && va < MAXVA && vb < MAXVA
    requires var h := Home(m.nodes, Slot(q, 0, va / PGSIZE)); h.Some? && h == Home(m.nodes, Slot(r, 0, vb / PGSIZE))
    requires Px(0, va) == Px(0, vb)
    ensures q == r && va / PGSIZE == vb / PGSIZE
  {
    var s, t := Slot(q, 0, va / PGSIZE), Slot(r, 0, vb / PGSIZE);
    PagesInTree(q, va / PGSIZE);
    PagesInTree(r, vb / PGSIZE);
    HomesApart(m, s, t);
    PxOfPage(va, 1);
    PxOfPage(vb, 1);
    PxOfPage(va, 2);
    PxOfPage(vb, 2);
    PxDetermines(va, vb);
  }
}
