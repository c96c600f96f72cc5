// Link counts: the directory operations of kernel/sysfile.c over dirlookup, dirlink,
// ialloc and iput of kernel/fs.c.

module Links {
  datatype Kind = Free | File | Device | Dir

  /** A path element as namecmp sees it (at most DIRSIZ characters). */
  datatype Name = Dot | DotDot | Plain(chars: string)

  /** inum 0 marks an empty directory entry. */
  datatype Entry = Entry(inum: nat, name: Name)

  const NOENTRY := Entry(0, Plain(""))

  datatype Node = Node(kind: Kind, nlink: int, ents: seq<Entry>)

  const FREE := Node(Free, 0, [])
  const ROOT: nat := 1

  type Table = seq<Node>

  predicate Linked(t: Table, d: nat) { d < |t| && t[d].kind == Dir && t[d].nlink > 0 }

  /** Entry k of directory d counts towards the link count of inode i. */
  predicate Names(t: Table, d: nat, k: nat, i: nat) {
    i != 0 && Linked(t, d) && k < |t[d].ents| && t[d].ents[k].inum == i && t[d].ents[k].name != Dot
  }

  /** The places that name inode i: entries other than "." in linked directories. */
  ghost function LinksTo(t: Table, i: nat): (s: set<(nat, nat)>) {
    set d: nat, k: nat | d < |t| && k < |t[d].ents| && Names(t, d, k, i) :: (d, k)
  }

  // ---------------------------------------------------------------- invariant

  /** The first two entries of a directory are "." and "..", and no later one is. */
  ghost predicate DirShape(t: Table, d: nat)
    requires d < |t|
  {
    var e := t[d].ents;
    && |e| >= 2 && e[0] == Entry(d, Dot) && e[1].name == DotDot && 0 < e[1].inum < |t|
    && (forall k :: 2 <= k < |e| && e[k].inum != 0 ==> e[k].name != Dot && e[k].name != DotDot)
  }

  ghost predicate NodeShape(t: Table, d: nat)
    requires d < |t|
  {
    && (t[d].kind == Dir ==> DirShape(t, d))
    && (t[d].kind != Dir ==> t[d].ents == [])
    && (t[d].kind == Free ==> t[d] == FREE)
    && (t[d].kind == Dir && t[d].nlink == 0 ==> forall k :: 2 <= k < |t[d].ents| ==> t[d].ents[k].inum == 0)
  }

  /** Each linked directory but the root is named by its parent, once, and ".." leads back. */
  ghost predicate TreeDown(t: Table) {
    forall q: nat, k: nat {:trigger DownOk(t, q, k)} ::
      Linked(t, q) && 2 <= k < |t[q].ents| && t[q].ents[k].inum != 0 ==> DownOk(t, q, k)
  }

  ghost predicate DownOk(t: Table, q: nat, k: nat)
    requires q < |t| && k < |t[q].ents|
  {
    var d := t[q].ents[k].inum;
    && 0 < d < |t| && d != ROOT
    && (t[d].kind == Dir ==>
          && |t[d].ents| >= 2 && t[d].ents[1].inum == q
          && forall m: nat :: 2 <= m < |t[q].ents| && t[q].ents[m].inum == d ==> m == k)
  }

  ghost predicate TreeUp(t: Table) {
    forall d: nat {:trigger UpOk(t, d)} :: Linked(t, d) && |t[d].ents| >= 2 ==> UpOk(t, d)
  }

  ghost predicate UpOk(t: Table, d: nat)
    requires d < |t| && |t[d].ents| >= 2
  {
    var q := t[d].ents[1].inum;
    if d == ROOT then q == ROOT
    else Linked(t, q) && exists k: nat :: 2 <= k < |t[q].ents| && t[q].ents[k].inum == d
  }

  /** nlink is the number of places that name the inode. */
  ghost predicate Conserved(t: Table) {
    forall i: nat {:trigger LinksTo(t, i)} :: i < |t| ==> t[i].nlink == |LinksTo(t, i)|
  }

  ghost predicate Inv(t: Table) {
    && |t| > 1 && t[0] == FREE && Linked(t, ROOT)
    && (forall d: nat {:trigger NodeShape(t, d)} :: d < |t| ==> NodeShape(t, d))
    && TreeDown(t) && TreeUp(t) && Conserved(t)
  }

  /** The file system mkfs makes before it copies files in: a root directory, nothing else. */
  ghost predicate Init(t: Table) {
    && |t| > 1 && t[ROOT] == Node(Dir, 1, [Entry(ROOT, Dot), Entry(ROOT, DotDot)])
    && forall d: nat :: d < |t| && d != ROOT ==> t[d] == FREE
  }

  lemma InitInv(t: Table)
    requires Init(t)
    ensures Inv(t)
  {
    forall i: nat | i < |t| ensures t[i].nlink == |LinksTo(t, i)| {
      assert LinksTo(t, i) == if i == ROOT then {(ROOT, 1)} else {};
    }
  }

  /** Whatever a linked directory names is allocated, so iput never frees a named inode. */
  lemma NamedIsAllocated(t: Table, d: nat, k: nat)
    requires Inv(t) && Linked(t, d) && k < |t[d].ents| && t[d].ents[k].inum != 0
    ensures t[d].ents[k].inum < |t| && t[t[d].ents[k].inum].kind != Free
    ensures k > 0 ==> t[t[d].ents[k].inum].nlink >= 1
  {
    assert NodeShape(t, d);
    var i := t[d].ents[k].inum;
    if k >= 2 {
      assert DownOk(t, d, k);
    } else if k == 1 {
      assert UpOk(t, d);
    }
    if k > 0 {
      assert (d, k) in LinksTo(t, i);
      assert NodeShape(t, i);
    }
  }

  // ---------------------------------------------------------------- directory operations

  /** dirlookup: the first entry in use with this name, or |ents|. */
  function Lookup(ents: seq<Entry>, name: Name, from: nat := 0): (k: nat)
    requires from <= |ents|
    ensures from <= k <= |ents|
    ensures k < |ents| ==> ents[k].inum != 0 && ents[k].name == name
    ensures forall j :: from <= j < k ==> ents[j].inum == 0 || ents[j].name != name
    decreases |ents| - from
  {
    if from == |ents| then from
    else if ents[from].inum != 0 && ents[from].name == name then from
    else Lookup(ents, name, from + 1)
  }

  /** The first empty entry, or |ents| to append. */
  function Slot(ents: seq<Entry>, from: nat := 0): (k: nat)
    requires from <= |ents|
    ensures from <= k <= |ents|
    ensures k < |ents| ==> ents[k].inum == 0
    ensures forall j :: from <= j < k ==> ents[j].inum != 0
    decreases |ents| - from
  {
    if from == |ents| || ents[from].inum == 0 then from else Slot(ents, from + 1)
  }

  function PutEntry(ents: seq<Entry>, k: nat, e: Entry): (r: seq<Entry>)
    requires k <= |ents|
  {
    if k < |ents| then ents[k := e] else ents + [e]
  }

  /** dirlink succeeds unless the name is taken or the directory must grow and cannot. */
  predicate CanDirlink(ents: seq<Entry>, name: Name, room: bool) {
    Lookup(ents, name) == |ents| && (Slot(ents) < |ents| || room)
  }

  function WithEntry(t: Table, d: nat, name: Name, inum: nat): (r: Table)
    requires d < |t|
  {
    t[d := t[d].(ents := PutEntry(t[d].ents, Slot(t[d].ents), Entry(inum, name)))]
  }

  function AddLinks(t: Table, i: nat, n: int): (r: Table)
    requires i < |t|
  {
    t[i := t[i].(nlink := t[i].nlink + n)]
  }

  /** iput of a reference when `others` more remain in memory. */
  function Put(t: Table, i: nat, others: nat): (r: Table)
    requires i < |t|
  {
    if others == 0 && t[i].nlink == 0 then t[i := FREE] else t
  }
}
