// What goes wrong in a directory removed while a process still works in it: two runs from a
// fresh file system, and the call to create that ends each of them badly.

module RemovedDirectories {
  import opened Links
  import opened LinkOps
  import opened LinkCalls

  const A := Plain("a")
  const B := Plain("b")

  function Root(nlink: int, rest: seq<Entry>): (n: Node) {
    Node(Dir, nlink, [Entry(1, Dot), Entry(1, DotDot)] + rest)
  }

  function Sub(i: nat, up: nat, nlink: int, rest: seq<Entry>): (n: Node) {
    Node(Dir, nlink, [Entry(i, Dot), Entry(up, DotDot)] + rest)
  }

  /** Nobody but the running calls holds an inode, except for inode `held`. */
  function Holding(held: nat): (refs: Refs) {
    i => if i == held then 1 else 0
  }

  function Fresh(): (t: Table) { [FREE, Root(1, []), FREE, FREE] }

  /** mkdir a. */
  function WithA(): (t: Table) { [FREE, Root(2, [Entry(2, A)]), Sub(2, 1, 1, []), FREE] }

  /** Then a is unlinked while a process works in it. */
  function WithoutA(): (t: Table) { [FREE, Root(1, [NOENTRY]), Sub(2, 1, 0, []), FREE] }

  /** Or, instead, mkdir a/b. */
  function WithB(): (t: Table) { [FREE, Root(2, [Entry(2, A)]), Sub(2, 1, 2, [Entry(3, B)]), Sub(3, 2, 1, [])] }

  /** Then a/b is unlinked while a process works in it. */
  function WithoutB(): (t: Table) { [FREE, Root(2, [Entry(2, A)]), Sub(2, 1, 1, [NOENTRY]), Sub(3, 2, 0, [])] }

  /** Then a is unlinked, and nobody holds that one. */
  function WithoutBoth(): (t: Table) { [FREE, Root(1, [NOENTRY]), FREE, Sub(3, 2, 0, [])] }

  lemma MakesA(refs: Refs)
    ensures CreateSpec(Fresh(), 1, A, Dir, true, true, refs) == Done(WithA())
  {
    var t := Fresh();
    assert FirstFree(t) == FirstFree(t, 2) == 2;
    assert Lookup(t[1].ents, A) == Lookup(t[1].ents, A, 1) == 2;
    assert Slot(t[1].ents) == Slot(t[1].ents, 1) == 2;
    assert PutEntry(t[1].ents, 2, Entry(2, A)) == WithA()[1].ents;
    assert Sub(2, 1, 1, []).ents == [Entry(2, Dot), Entry(1, DotDot)];
  }

  lemma RemovesA()
    ensures UnlinkSpec(WithA(), 1, A, Holding(2)) == Done(WithoutA())
  {
    var t := WithA();
    assert Lookup(t[1].ents, A) == Lookup(t[1].ents, A, 1) == 2;
    assert t[1].ents[2 := NOENTRY] == WithoutA()[1].ents;
  }

  lemma MakesB(refs: Refs)
    ensures CreateSpec(WithA(), 2, B, Dir, true, true, refs) == Done(WithB())
  {
    var t := WithA();
    assert FirstFree(t) == FirstFree(t, 2) == FirstFree(t, 3) == 3;
    assert Lookup(t[2].ents, B) == Lookup(t[2].ents, B, 1) == 2;
    assert Slot(t[2].ents) == Slot(t[2].ents, 1) == 2;
    assert PutEntry(t[2].ents, 2, Entry(3, B)) == WithB()[2].ents;
    assert Sub(3, 2, 1, []).ents == [Entry(3, Dot), Entry(2, DotDot)];
  }

  lemma RemovesB()
    ensures UnlinkSpec(WithB(), 2, B, Holding(3)) == Done(WithoutB())
  {
    var t := WithB();
    assert Lookup(t[2].ents, B) == Lookup(t[2].ents, B, 1) == 2;
    assert t[2].ents[2 := NOENTRY] == WithoutB()[2].ents;
  }

  lemma RemovesBoth()
    ensures UnlinkSpec(WithoutB(), 1, A, Holding(3)) == Done(WithoutBoth())
  {
    var t := WithoutB();
    assert Lookup(t[1].ents, A) == Lookup(t[1].ents, A, 1) == 2;
    assert t[1].ents[2 := NOENTRY] == WithoutBoth()[1].ents;
  }

  /** mkdir a. */
  lemma ReachesWithA(held: Refs) returns (ts: seq<Table>, cs: seq<Call>, refs: seq<Refs>)
    ensures IsRun(ts, cs, refs) && |cs| == 1 && ts[1] == WithA()
  {
    assert IsRun([Fresh()], [], []);
    MakesA(held);
    RunOn([Fresh()], [], [], Create(1, A, Dir, true, true), held, WithA());
    ts, cs, refs := [Fresh()] + [WithA()], [] + [Create(1, A, Dir, true, true)], [] + [held];
  }

  /** mkdir a; unlink a while it is held. */
  lemma ReachesWithoutA() returns (ts: seq<Table>, cs: seq<Call>, refs: seq<Refs>)
    ensures IsRun(ts, cs, refs) && |cs| == 2 && ts[2] == WithoutA()
  {
    ts, cs, refs := ReachesWithA(Holding(2));
    RemovesA();
    RunOn(ts, cs, refs, Unlink(1, A), Holding(2), WithoutA());
    ts, cs, refs := ts + [WithoutA()], cs + [Unlink(1, A)], refs + [Holding(2)];
  }

  /** mkdir a; mkdir a/b; unlink a/b while it is held. */
  lemma ReachesWithoutB() returns (ts: seq<Table>, cs: seq<Call>, refs: seq<Refs>)
    ensures IsRun(ts, cs, refs) && |cs| == 3 && ts[3] == WithoutB()
  {
    ts, cs, refs := ReachesWithA(Holding(3));
    MakesB(Holding(3));
    RunOn(ts, cs, refs, Create(2, B, Dir, true, true), Holding(3), WithB());
    ts, cs, refs := ts + [WithB()], cs + [Create(2, B, Dir, true, true)], refs + [Holding(3)];
    RemovesB();
    RunOn(ts, cs, refs, Unlink(2, B), Holding(3), WithoutB());
    ts, cs, refs := ts + [WithoutB()], cs + [Unlink(2, B)], refs + [Holding(3)];
  }

  /** And unlink a. */
  lemma ReachesWithoutBoth() returns (ts: seq<Table>, cs: seq<Call>, refs: seq<Refs>)
    ensures IsRun(ts, cs, refs) && |cs| == 4 && ts[4] == WithoutBoth()
  {
    ts, cs, refs := ReachesWithoutB();
    RemovesBoth();
    RunOn(ts, cs, refs, Unlink(1, A), Holding(3), WithoutBoth());
    ts, cs, refs := ts + [WithoutBoth()], cs + [Unlink(1, A)], refs + [Holding(3)];
  }

  /** After the first run, create in the removed directory makes file 3, whose link count of 1
      nothing accounts for. */
  lemma CreateInRemovedDirectory() returns (ts: seq<Table>, cs: seq<Call>, refs: seq<Refs>)
    ensures IsRun(ts, cs, refs) && |cs| == 2 && ts[2] == WithoutA()
    ensures var r := CreateSpec(WithoutA(), 2, B, File, true, true, Holding(2));
            r.Done? && r.t[3].nlink == 1 && LinksTo(r.t, 3) == {}
  {
    ts, cs, refs := ReachesWithoutA();
    var t := WithoutA();
    assert FirstFree(t) == FirstFree(t, 2) == FirstFree(t, 3) == 3;
    assert Lookup(t[2].ents, B) == Lookup(t[2].ents, B, 1) == 2;
    var r := CreateSpec(t, 2, B, File, true, true, Holding(2)).t;
    assert r[3] == Node(File, 1, []) && r[2].nlink == 0 && r[1] == t[1];
    forall d: nat, k: nat ensures !Names(r, d, k, 3) {
      assert Linked(r, d) ==> d == 1;
    }
  }

  /** After the second, create of ".." in the removed directory meets the panic of ilock. */
  lemma CreateMeetsFreeParent() returns (ts: seq<Table>, cs: seq<Call>, refs: seq<Refs>)
    ensures IsRun(ts, cs, refs) && |cs| == 4 && ts[4] == WithoutBoth()
    ensures StaleParent(WithoutBoth(), 3, DotDot)
    ensures CreateSpec(WithoutBoth(), 3, DotDot, File, true, true, Holding(3)).Panic?
  {
    ts, cs, refs := ReachesWithoutBoth();
    var t := WithoutBoth();
    assert Lookup(t[3].ents, DotDot) == Lookup(t[3].ents, DotDot, 1) == 1;
  }
}
