// sys_link, sys_unlink and create as functions on the inode table, and what they keep.

module LinkOps {
  import opened Links

  datatype Option<T> = None | Some(value: T)

  /** `refs(i)` is how many other in-memory references to inode i there are. */
  type Refs = nat -> nat

  datatype Outcome = Done(t: Table) | Failed(t: Table) | Panic

  // ---------------------------------------------------------------- the calls

  /** sys_link of inode ip as `name` in directory dp; dp is None when the path has no parent. */
  function LinkSpec(t: Table, ip: nat, dp: Option<nat>, name: Name, room: bool, refs: Refs): (r: Outcome)
    requires ip < |t| && (dp.Some? ==> dp.value < |t|)
  {
    if t[ip].kind == Dir then Failed(Put(t, ip, refs(ip)))
    else
      var up := AddLinks(t, ip, 1);
      if dp.None? then Failed(Put(AddLinks(up, ip, -1), ip, refs(ip)))
      else if !CanDirlink(t[dp.value].ents, name, room) then
        Failed(Put(AddLinks(Put(up, dp.value, refs(dp.value)), ip, -1), ip, refs(ip)))
      else
        Done(Put(Put(WithEntry(up, dp.value, name, ip), dp.value, refs(dp.value)), ip, refs(ip)))
  }

  predicate DirEmpty(ents: seq<Entry>) {
    forall k :: 2 <= k < |ents| ==> ents[k].inum == 0
  }

  /** sys_unlink of `name` in directory dp. */
  function UnlinkSpec(t: Table, dp: nat, name: Name, refs: Refs): (r: Outcome)
    requires dp < |t|
  {
    var ents := t[dp].ents;
    var k := Lookup(ents, name);
    if name == Dot || name == DotDot || k == |ents| then Failed(Put(t, dp, refs(dp)))
    else
      var ip := ents[k].inum;
      if ip >= |t| || t[ip].kind == Free || t[ip].nlink < 1 then Panic
      else if t[ip].kind == Dir && !DirEmpty(t[ip].ents) then Failed(Put(Put(t, ip, refs(ip)), dp, refs(dp)))
      else
        var erased := t[dp := t[dp].(ents := ents[k := NOENTRY])];
        var dropped := if t[ip].kind == Dir then AddLinks(erased, dp, -1) else erased;
        Done(Put(AddLinks(Put(dropped, dp, refs(dp)), ip, -1), ip, refs(ip)))
  }

  /** ialloc: the first free inode number from 1 on, or |t|. */
  function FirstFree(t: Table, from: nat := 1): (i: nat)
    requires from <= |t|
    ensures from <= i <= |t|
    ensures i < |t| ==> t[i].kind == Free
    ensures forall j :: from <= j < i ==> t[j].kind != Free
    decreases |t| - from
  {
    if from == |t| || t[from].kind == Free then from else FirstFree(t, from + 1)
  }

  /** create; `roomDot` is whether a new directory can hold "." and "..". */
  function CreateSpec(t: Table, dp: nat, name: Name, kind: Kind, roomDot: bool, room: bool, refs: Refs): (r: Outcome)
    requires 1 <= |t| && dp < |t|
  {
    var k := Lookup(t[dp].ents, name);
    if k < |t[dp].ents| then
      var ip := t[dp].ents[k].inum;
      if ip >= |t| || t[ip].kind == Free then Panic
      else if kind == File && (t[ip].kind == File || t[ip].kind == Device) then Done(Put(t, dp, refs(dp)))
      else Failed(Put(Put(t, dp, refs(dp)), ip, refs(ip)))
    else
      var i := FirstFree(t);
      if i == |t| then Failed(Put(t, dp, refs(dp)))
      else if (kind == Dir && !roomDot) || !CanDirlink(t[dp].ents, name, room) then
        Failed(Put(t[i := FREE], dp, refs(dp)))
      else
        var dots := if kind == Dir then [Entry(i, Dot), Entry(dp, DotDot)] else [];
        var made := WithEntry(t[i := Node(kind, 1, dots)], dp, name, i);
        Done(Put(if kind == Dir then AddLinks(made, dp, 1) else made, dp, refs(dp)))
  }

  // ---------------------------------------------------------------- iput

  lemma LinksToEmpty(t: Table, i: nat)
    requires Inv(t) && i < |t| && t[i].nlink == 0
    ensures LinksTo(t, i) == {}
  {
  }

  ghost predicate Frees(t: Table, r: Table, i: nat) {
    Inv(t) && 0 < i < |t| && t[i].nlink == 0 && r == t[i := FREE]
  }

  lemma FreesLinks(t: Table, r: Table, i: nat, j: nat)
    requires Frees(t, r, i)
    ensures LinksTo(r, j) == LinksTo(t, j)
  {
  }

  lemma FreesDown(t: Table, r: Table, i: nat, q: nat, k: nat)
    requires Frees(t, r, i) && Linked(r, q) && 2 <= k < |r[q].ents| && r[q].ents[k].inum != 0
    ensures DownOk(r, q, k)
  {
    assert DownOk(t, q, k);
    NamedIsAllocated(t, q, k);
  }

  lemma FreesUp(t: Table, r: Table, i: nat, d: nat)
    requires Frees(t, r, i) && Linked(r, d) && |r[d].ents| >= 2
    ensures UpOk(r, d)
  {
    assert UpOk(t, d);
    if d != ROOT {
      var q := t[d].ents[1].inum;
      var k: nat :| 2 <= k < |t[q].ents| && t[q].ents[k].inum == d;
      assert r[q].ents[k].inum == d;
    }
  }

  /** Freeing an inode no linked directory names disturbs nothing. */
  lemma PutKeeps(t: Table, i: nat, others: nat)
    requires Inv(t) && 0 < i < |t|
    ensures Inv(Put(t, i, others))
  {
    var r := Put(t, i, others);
    if others == 0 && t[i].nlink == 0 {
      forall j: nat | j < |r| ensures r[j].nlink == |LinksTo(r, j)| {
        FreesLinks(t, r, i, j);
      }
      forall q: nat, k: nat | Linked(r, q) && 2 <= k < |r[q].ents| && r[q].ents[k].inum != 0 ensures DownOk(r, q, k) {
        FreesDown(t, r, i, q, k);
      }
      forall d: nat | Linked(r, d) && |r[d].ents| >= 2 ensures UpOk(r, d) {
        FreesUp(t, r, i, d);
      }
      forall d: nat | d < |r| ensures NodeShape(r, d) {
        assert NodeShape(t, d);
      }
    }
  }

  // ---------------------------------------------------------------- what a change leaves alone

  /** Every entry of q naming d past the first two is still there. */
  ghost predicate StillNames(t: Table, r: Table, q: nat, d: nat) {
    q < |t| && q < |r| ==>
      forall k: nat :: 2 <= k < |t[q].ents| && t[q].ents[k].inum == d ==> k < |r[q].ents| && r[q].ents[k].inum == d
  }

  lemma UpKept(t: Table, r: Table, d: nat)
    requires |r| == |t| && Linked(t, d) && |t[d].ents| >= 2 && UpOk(t, d)
    requires Linked(r, d) && |r[d].ents| >= 2 && r[d].ents[1] == t[d].ents[1]
    requires d == ROOT || (Linked(r, t[d].ents[1].inum) && StillNames(t, r, t[d].ents[1].inum, d))
    ensures UpOk(r, d)
  {
    if d != ROOT {
      var q := t[d].ents[1].inum;
      var k: nat :| 2 <= k < |t[q].ents| && t[q].ents[k].inum == d;
      assert r[q].ents[k].inum == d;
    }
  }

  // ---------------------------------------------------------------- ialloc

  ghost predicate Allocates(t: Table, r: Table, i: nat, n: Node, dp: nat) {
    && 0 < i < |t| && t[i] == FREE && r == t[i := n] && n.kind != Free && n.nlink == 0
    && (n.kind == Dir ==> n.ents == [Entry(i, Dot), Entry(dp, DotDot)] && 0 < dp < |t|)
    && (n.kind != Dir ==> n.ents == [])
  }

  lemma AllocateLinks(t: Table, r: Table, i: nat, n: Node, dp: nat, j: nat)
    requires Allocates(t, r, i, n, dp)
    ensures LinksTo(r, j) == LinksTo(t, j)
  {
    forall q: nat, m: nat ensures Names(r, q, m, j) <==> Names(t, q, m, j) {
      assert Linked(r, q) <==> Linked(t, q);
    }
  }

  lemma AllocateDown(t: Table, r: Table, i: nat, n: Node, dp: nat, q: nat, k: nat)
    requires Inv(t) && Allocates(t, r, i, n, dp)
    requires Linked(r, q) && 2 <= k < |r[q].ents| && r[q].ents[k].inum != 0
    ensures DownOk(r, q, k)
  {
    assert DownOk(t, q, k);
    NamedIsAllocated(t, q, k);
  }

  lemma AllocateUp(t: Table, r: Table, i: nat, n: Node, dp: nat, d: nat)
    requires Allocates(t, r, i, n, dp) && TreeUp(t) && Linked(r, d) && |r[d].ents| >= 2
    ensures UpOk(r, d)
  {
    assert Linked(t, d) && UpOk(t, d);
    UpKept(t, r, d);
  }

  lemma AllocateKeeps(t: Table, r: Table, i: nat, n: Node, dp: nat)
    requires Inv(t) && Allocates(t, r, i, n, dp)
    ensures Inv(r)
  {
    forall d: nat | d < |r| ensures NodeShape(r, d) {
      assert NodeShape(t, d);
    }
    assert TreeDown(r) by {
      forall q: nat, k: nat | Linked(r, q) && 2 <= k < |r[q].ents| && r[q].ents[k].inum != 0 ensures DownOk(r, q, k) {
        AllocateDown(t, r, i, n, dp, q, k);
      }
    }
    assert TreeUp(r) by {
      forall d: nat | Linked(r, d) && |r[d].ents| >= 2 ensures UpOk(r, d) {
        AllocateUp(t, r, i, n, dp, d);
      }
    }
    assert Conserved(r) by {
      forall j: nat | j < |r| ensures r[j].nlink == |LinksTo(r, j)| {
        AllocateLinks(t, r, i, n, dp, j);
      }
    }
  }

  // ---------------------------------------------------------------- naming a file

  /** A free slot past "." and "..", and a name that is neither. */
  lemma SlotInDir(t: Table, d: nat, name: Name, room: bool)
    requires d < |t| && NodeShape(t, d) && t[d].kind == Dir && CanDirlink(t[d].ents, name, room) && d != 0
    ensures Slot(t[d].ents) >= 2 && name != Dot && name != DotDot
  {
  }

  ghost predicate NamesFile(t: Table, r: Table, d: nat, k: nat, name: Name, i: nat) {
    && Linked(t, d) && 0 < i < |t| && t[i].kind != Dir && t[i].kind != Free
    && 2 <= k <= |t[d].ents| && (k < |t[d].ents| ==> t[d].ents[k].inum == 0) && name != Dot && name != DotDot
    && r == AddLinks(t, i, 1)[d := t[d].(ents := PutEntry(t[d].ents, k, Entry(i, name)))]
  }

  lemma NamesFileLinks(t: Table, r: Table, d: nat, k: nat, name: Name, i: nat, j: nat)
    requires NamesFile(t, r, d, k, name, i)
    ensures LinksTo(r, j) == LinksTo(t, j) + if j == i then {(d, k)} else {}
    ensures (d, k) !in LinksTo(t, i)
  {
    forall q: nat, m: nat ensures Names(r, q, m, j) <==> Names(t, q, m, j) || (j == i && q == d && m == k) {
      assert Linked(r, q) <==> Linked(t, q);
    }
  }

  lemma NamesFileDown(t: Table, r: Table, d: nat, k: nat, name: Name, i: nat, q: nat, m: nat)
    requires NamesFile(t, r, d, k, name, i) && TreeDown(t) && Linked(t, ROOT)
    requires Linked(r, q) && 2 <= m < |r[q].ents| && r[q].ents[m].inum != 0
    ensures DownOk(r, q, m)
  {
    if !(q == d && m == k) {
      assert DownOk(t, q, m);
    }
  }

  lemma NamesFileShape(t: Table, r: Table, d: nat, k: nat, name: Name, i: nat, p: nat)
    requires NamesFile(t, r, d, k, name, i) && p < |r| && NodeShape(t, p)
    ensures NodeShape(r, p)
  {
  }

  lemma NamesFileUp(t: Table, r: Table, d: nat, k: nat, name: Name, i: nat, p: nat)
    requires NamesFile(t, r, d, k, name, i) && TreeUp(t) && p > 0 && Linked(r, p) && |r[p].ents| >= 2
    requires |t[p].ents| >= 2
    ensures UpOk(r, p)
  {
    assert Linked(t, p) && UpOk(t, p);
    var q := t[p].ents[1].inum;
    assert Linked(r, q) <==> Linked(t, q);
    UpKept(t, r, p);
  }

  lemma NamesFileCounts(t: Table, r: Table, d: nat, k: nat, name: Name, i: nat, j: nat)
    requires NamesFile(t, r, d, k, name, i) && j < |t| && t[j].nlink == |LinksTo(t, j)|
    ensures r[j].nlink == |LinksTo(r, j)|
  {
    NamesFileLinks(t, r, d, k, name, i, j);
  }

  /** An entry for a file, and one more link to it: nothing else moves. */
  lemma NamesFileKeeps(t: Table, r: Table, d: nat, k: nat, name: Name, i: nat)
    requires Inv(t) && NamesFile(t, r, d, k, name, i)
    ensures Inv(r)
  {
    forall p: nat | p < |r| ensures NodeShape(r, p) {
      NamesFileShape(t, r, d, k, name, i, p);
    }
    assert TreeDown(r) by {
      forall q: nat, m: nat | Linked(r, q) && 2 <= m < |r[q].ents| && r[q].ents[m].inum != 0 ensures DownOk(r, q, m) {
        NamesFileDown(t, r, d, k, name, i, q, m);
      }
    }
    assert TreeUp(r) by {
      forall p: nat | Linked(r, p) && |r[p].ents| >= 2 ensures UpOk(r, p) {
        assert NodeShape(t, p);
        NamesFileUp(t, r, d, k, name, i, p);
      }
    }
    assert Conserved(r) by {
      forall j: nat | j < |r| ensures r[j].nlink == |LinksTo(r, j)| {
        NamesFileCounts(t, r, d, k, name, i, j);
      }
    }
  }

  // ---------------------------------------------------------------- naming a new directory

  ghost predicate NamesDir(t: Table, r: Table, d: nat, k: nat, name: Name, i: nat) {
    && Linked(t, d) && 0 < i < |t| && t[i] == Node(Dir, 0, [Entry(i, Dot), Entry(d, DotDot)])
    && 2 <= k <= |t[d].ents| && (k < |t[d].ents| ==> t[d].ents[k].inum == 0) && name != Dot && name != DotDot
    && r == t[i := t[i].(nlink := 1)][d := Node(Dir, t[d].nlink + 1, PutEntry(t[d].ents, k, Entry(i, name)))]
  }

  /** The new entry names the directory, and its ".." names the parent. */
  lemma NamesDirLinks(t: Table, r: Table, d: nat, k: nat, name: Name, i: nat, j: nat)
    requires NamesDir(t, r, d, k, name, i) && d > 0
    ensures LinksTo(r, j) == LinksTo(t, j) + (if j == i then {(d, k)} else if j == d then {(i, 1)} else {})
    ensures (d, k) !in LinksTo(t, i) && (i, 1) !in LinksTo(t, d)
  {
    forall q: nat, m: nat ensures Names(r, q, m, j) <==>
        Names(t, q, m, j) || (j == i && q == d && m == k) || (j == d && q == i && m == 1) {
      assert Linked(r, q) <==> Linked(t, q) || q == i;
    }
  }

  lemma NamesDirDown(t: Table, r: Table, d: nat, k: nat, name: Name, i: nat, q: nat, m: nat)
    requires NamesDir(t, r, d, k, name, i) && TreeDown(t) && LinksTo(t, i) == {} && i != ROOT
    requires Linked(r, q) && 2 <= m < |r[q].ents| && r[q].ents[m].inum != 0
    requires forall x :: 2 <= x < |t[d].ents| && t[d].ents[x].inum != 0 ==> t[d].ents[x].name != Dot
    ensures DownOk(r, q, m)
  {
    forall x: nat | 2 <= x < |t[d].ents| ensures t[d].ents[x].inum != i {
      assert (d, x) !in LinksTo(t, i);
    }
    if !(q == d && m == k) {
      assert DownOk(t, q, m);
    }
  }

  lemma NamesDirUp(t: Table, r: Table, d: nat, k: nat, name: Name, i: nat, p: nat)
    requires NamesDir(t, r, d, k, name, i) && TreeUp(t) && p > 0 && Linked(r, p) && |r[p].ents| >= 2 && |t[p].ents| >= 2
    requires i != ROOT
    ensures UpOk(r, p)
  {
    if p == i {
      assert r[d].ents[k].inum == i;
    } else {
      assert Linked(t, p) && UpOk(t, p);
      var q := t[p].ents[1].inum;
      assert Linked(t, q) ==> Linked(r, q);
      UpKept(t, r, p);
    }
  }

  lemma NamesDirShape(t: Table, r: Table, d: nat, k: nat, name: Name, i: nat, p: nat)
    requires NamesDir(t, r, d, k, name, i) && p < |r| && NodeShape(t, p)
    ensures NodeShape(r, p)
  {
  }

  lemma NamesDirCounts(t: Table, r: Table, d: nat, k: nat, name: Name, i: nat, j: nat)
    requires NamesDir(t, r, d, k, name, i) && j < |t| && t[j].nlink == |LinksTo(t, j)| && d > 0
    ensures r[j].nlink == |LinksTo(r, j)|
  {
    NamesDirLinks(t, r, d, k, name, i, j);
  }

  lemma NamesDirKeeps(t: Table, r: Table, d: nat, k: nat, name: Name, i: nat)
    requires Inv(t) && NamesDir(t, r, d, k, name, i)
    ensures Inv(r)
  {
    LinksToEmpty(t, i);
    forall p: nat | p < |r| ensures NodeShape(r, p) {
      NamesDirShape(t, r, d, k, name, i, p);
    }
    assert TreeDown(r) by {
      assert NodeShape(t, d);
      forall q: nat, m: nat | Linked(r, q) && 2 <= m < |r[q].ents| && r[q].ents[m].inum != 0 ensures DownOk(r, q, m) {
        NamesDirDown(t, r, d, k, name, i, q, m);
      }
    }
    assert TreeUp(r) by {
      forall p: nat | Linked(r, p) && |r[p].ents| >= 2 ensures UpOk(r, p) {
        assert NodeShape(t, p);
        NamesDirUp(t, r, d, k, name, i, p);
      }
    }
    assert Conserved(r) by {
      forall j: nat | j < |r| ensures r[j].nlink == |LinksTo(r, j)| {
        NamesDirCounts(t, r, d, k, name, i, j);
      }
    }
  }

  // ---------------------------------------------------------------- erasing an entry for a file

  ghost predicate ErasesFile(t: Table, r: Table, d: nat, k: nat, i: nat) {
    && Linked(t, d) && 2 <= k < |t[d].ents| && t[d].ents[k].inum == i && t[d].ents[k].name != Dot
    && 0 < i < |t| && t[i].kind != Dir && t[i].kind != Free
    && r == AddLinks(t, i, -1)[d := t[d].(ents := t[d].ents[k := NOENTRY])]
  }

  lemma ErasesFileLinks(t: Table, r: Table, d: nat, k: nat, i: nat, j: nat)
    requires ErasesFile(t, r, d, k, i)
    ensures LinksTo(r, j) == LinksTo(t, j) - if j == i then {(d, k)} else {}
    ensures (d, k) in LinksTo(t, i)
  {
    assert Names(t, d, k, i);
    forall q: nat, m: nat ensures Names(r, q, m, j) <==> Names(t, q, m, j) && !(j == i && q == d && m == k) {
      assert Linked(r, q) <==> Linked(t, q);
    }
  }

  lemma ErasesFileCounts(t: Table, r: Table, d: nat, k: nat, i: nat, j: nat)
    requires ErasesFile(t, r, d, k, i) && j < |t| && t[j].nlink == |LinksTo(t, j)|
    ensures r[j].nlink == |LinksTo(r, j)|
  {
    ErasesFileLinks(t, r, d, k, i, j);
  }

  lemma ErasesFileDown(t: Table, r: Table, d: nat, k: nat, i: nat, q: nat, m: nat)
    requires ErasesFile(t, r, d, k, i) && TreeDown(t)
    requires Linked(r, q) && 2 <= m < |r[q].ents| && r[q].ents[m].inum != 0
    ensures DownOk(r, q, m)
  {
    assert DownOk(t, q, m);
  }

  lemma ErasesFileUp(t: Table, r: Table, d: nat, k: nat, i: nat, p: nat)
    requires ErasesFile(t, r, d, k, i) && TreeUp(t) && Linked(r, p) && |r[p].ents| >= 2
    ensures UpOk(r, p)
  {
    assert Linked(t, p) && UpOk(t, p);
    var q := t[p].ents[1].inum;
    assert Linked(r, q) <==> Linked(t, q);
    UpKept(t, r, p);
  }

  lemma ErasesFileKeeps(t: Table, r: Table, d: nat, k: nat, i: nat)
    requires Inv(t) && ErasesFile(t, r, d, k, i)
    ensures Inv(r)
  {
    forall p: nat | p < |r| ensures NodeShape(r, p) {
      assert NodeShape(t, p);
    }
    assert TreeDown(r) by {
      forall q: nat, m: nat | Linked(r, q) && 2 <= m < |r[q].ents| && r[q].ents[m].inum != 0 ensures DownOk(r, q, m) {
        ErasesFileDown(t, r, d, k, i, q, m);
      }
    }
    assert TreeUp(r) by {
      forall p: nat | Linked(r, p) && |r[p].ents| >= 2 ensures UpOk(r, p) {
        ErasesFileUp(t, r, d, k, i, p);
      }
    }
    assert Conserved(r) by {
      forall j: nat | j < |r| ensures r[j].nlink == |LinksTo(r, j)| {
        ErasesFileCounts(t, r, d, k, i, j);
      }
    }
  }

  // ---------------------------------------------------------------- erasing an entry for an empty directory

  ghost predicate ErasesDir(t: Table, r: Table, d: nat, k: nat, i: nat) {
    && Linked(t, d) && 2 <= k < |t[d].ents| && t[d].ents[k].inum == i && t[d].ents[k].name != Dot
    && 0 < i < |t| && t[i].kind == Dir && i != d && |t[i].ents| >= 2 && DirEmpty(t[i].ents)
    && t[i].ents[0].name == Dot && t[i].ents[1] == Entry(d, DotDot) && t[i].nlink == 1
    && r == t[i := t[i].(nlink := 0)][d := t[d].(nlink := t[d].nlink - 1, ents := t[d].ents[k := NOENTRY])]
  }

  /** What names an empty directory: its parent's one entry, so its link count is 1. */
  lemma EmptyDirNamedOnce(t: Table, d: nat, k: nat, i: nat, q: nat, m: nat)
    requires Inv(t) && Linked(t, d) && 2 <= k < |t[d].ents| && t[d].ents[k].inum == i && i != 0
    requires i < |t| && t[i].kind == Dir && DirEmpty(t[i].ents) && Names(t, q, m, i)
    ensures q == d && m == k
  {
    assert DownOk(t, d, k);
    assert NodeShape(t, q);
    assert UpOk(t, q);
    assert m >= 2;
    assert DownOk(t, q, m);
  }

  lemma EmptyDirHasOneLink(t: Table, d: nat, k: nat, i: nat)
    requires Inv(t) && Linked(t, d) && 2 <= k < |t[d].ents| && t[d].ents[k].inum == i && i != 0
    requires i < |t| && t[i].kind == Dir && DirEmpty(t[i].ents)
    ensures LinksTo(t, i) == {(d, k)} && t[i].nlink == 1
    ensures i != d && |t[i].ents| >= 2 && t[i].ents[0].name == Dot && t[i].ents[1] == Entry(d, DotDot)
  {
    assert NodeShape(t, d) && NodeShape(t, i) && DownOk(t, d, k);
    forall x | x in LinksTo(t, i) ensures x == (d, k) {
      EmptyDirNamedOnce(t, d, k, i, x.0, x.1);
    }
    assert Names(t, d, k, i);
    assert LinksTo(t, i) == {(d, k)};
  }

  /** A directory that names a subdirectory keeps a link after losing that one's "..". */
  lemma ParentKeepsALink(t: Table, d: nat, k: nat, i: nat)
    requires Inv(t) && Linked(t, d) && 2 <= k < |t[d].ents| && t[d].ents[k].inum == i && i != 0
    requires i < |t| && t[i].kind == Dir && t[i].nlink > 0
    ensures t[d].nlink >= 2
  {
    assert NodeShape(t, d) && NodeShape(t, i) && DownOk(t, d, k) && UpOk(t, d);
    var other: (nat, nat);
    if d == ROOT {
      other := (ROOT, 1);
    } else {
      var q := t[d].ents[1].inum;
      var m: nat :| 2 <= m < |t[q].ents| && t[q].ents[m].inum == d;
      assert NodeShape(t, q);
      other := (q, m);
    }
    assert other in LinksTo(t, d);
    assert (i, 1) in LinksTo(t, d);
    TwoMembers(LinksTo(t, d), other, (i, 1));
  }

  lemma TwoMembers(s: set<(nat, nat)>, a: (nat, nat), b: (nat, nat))
    requires a in s && b in s && a != b
    ensures |s| >= 2
  {
    assert |s - {a}| >= 1 by { assert b in s - {a}; }
  }

  lemma ErasesDirLinks(t: Table, r: Table, d: nat, k: nat, i: nat, j: nat)
    requires ErasesDir(t, r, d, k, i) && t[d].nlink >= 2 && d > 0
    ensures LinksTo(r, j) == LinksTo(t, j) - (if j == i then {(d, k)} else if j == d then {(i, 1)} else {})
    ensures (d, k) in LinksTo(t, i) && (i, 1) in LinksTo(t, d)
  {
    assert Names(t, d, k, i) && Names(t, i, 1, d);
    forall q: nat, m: nat ensures Names(r, q, m, j) <==>
        Names(t, q, m, j) && !(j == i && q == d && m == k) && !(j == d && q == i && m == 1) {
      assert Linked(r, q) <==> Linked(t, q) && q != i;
    }
  }

  lemma ErasesDirCounts(t: Table, r: Table, d: nat, k: nat, i: nat, j: nat)
    requires ErasesDir(t, r, d, k, i) && j < |t| && t[j].nlink == |LinksTo(t, j)| && t[d].nlink >= 2 && d > 0
    ensures r[j].nlink == |LinksTo(r, j)|
  {
    ErasesDirLinks(t, r, d, k, i, j);
  }

  lemma ErasesDirDown(t: Table, r: Table, d: nat, k: nat, i: nat, q: nat, m: nat)
    requires ErasesDir(t, r, d, k, i) && TreeDown(t)
    requires Linked(r, q) && 2 <= m < |r[q].ents| && r[q].ents[m].inum != 0
    ensures DownOk(r, q, m)
  {
    assert DownOk(t, q, m);
  }

  lemma ErasesDirUp(t: Table, r: Table, d: nat, k: nat, i: nat, p: nat)
    requires ErasesDir(t, r, d, k, i) && TreeUp(t) && t[d].nlink >= 2 && p > 0
    requires Linked(r, p) && |r[p].ents| >= 2
    ensures UpOk(r, p)
  {
    assert Linked(t, p) && UpOk(t, p);
    var q := t[p].ents[1].inum;
    assert Linked(t, q) && q != i ==> Linked(r, q);
    UpKept(t, r, p);
  }

  lemma ErasesDirKeeps(t: Table, r: Table, d: nat, k: nat, i: nat)
    requires Inv(t) && ErasesDir(t, r, d, k, i)
    ensures Inv(r)
  {
    ParentKeepsALink(t, d, k, i);
    assert DownOk(t, d, k);
    forall p: nat | p < |r| ensures NodeShape(r, p) {
      assert NodeShape(t, p);
    }
    assert TreeDown(r) by {
      forall q: nat, m: nat | Linked(r, q) && 2 <= m < |r[q].ents| && r[q].ents[m].inum != 0 ensures DownOk(r, q, m) {
        ErasesDirDown(t, r, d, k, i, q, m);
      }
    }
    assert TreeUp(r) by {
      forall p: nat | Linked(r, p) && |r[p].ents| >= 2 ensures UpOk(r, p) {
        ErasesDirUp(t, r, d, k, i, p);
      }
    }
    assert Conserved(r) by {
      forall j: nat | j < |r| ensures r[j].nlink == |LinksTo(r, j)| {
        ErasesDirCounts(t, r, d, k, i, j);
      }
    }
  }
}
