// What sys_link, sys_unlink and create keep, one call at a time and over whole runs.

module LinkCalls {
  import opened Links
  import opened LinkOps

  /** What nameiparent hands over: an allocated directory, perhaps one already removed. */
  predicate IsDir(t: Table, d: nat) { 0 < d < |t| && t[d].kind == Dir }

  /** What namei hands over once ilock has accepted it. */
  predicate Allocated(t: Table, i: nat) { 0 < i < |t| && t[i].kind != Free }

  // ---------------------------------------------------------------- sys_link

  /** sys_link reaches the end and adds an entry. */
  predicate LinkAdds(t: Table, ip: nat, dp: Option<nat>, name: Name, room: bool)
    requires ip < |t| && (dp.Some? ==> dp.value < |t|)
  {
    t[ip].kind != Dir && dp.Some? && CanDirlink(t[dp.value].ents, name, room)
  }

  lemma FailedLinkUndoes(t: Table, ip: nat, dp: Option<nat>, name: Name, room: bool, refs: Refs)
    requires Inv(t) && Allocated(t, ip) && (dp.Some? ==> IsDir(t, dp.value))
    requires !LinkAdds(t, ip, dp, name, room)
    ensures var r := LinkSpec(t, ip, dp, name, room, refs);
            r.Failed? && Inv(r.t)
            && (t[ip].nlink > 0 && (dp.Some? ==> Linked(t, dp.value)) ==> r.t == t)
  {
    PutKeeps(t, ip, refs(ip));
    if t[ip].kind != Dir {
      var up := AddLinks(t, ip, 1);
      assert AddLinks(up, ip, -1) == t;
      if dp.Some? {
        var d := dp.value;
        PutKeeps(t, d, refs(d));
        assert AddLinks(Put(up, d, refs(d)), ip, -1) == Put(t, d, refs(d));
        PutKeeps(Put(t, d, refs(d)), ip, refs(ip));
      }
    }
  }

  lemma GoodLinkKeeps(t: Table, ip: nat, d: nat, name: Name, room: bool, refs: Refs)
    requires Inv(t) && Allocated(t, ip) && Linked(t, d) && LinkAdds(t, ip, Some(d), name, room)
    ensures var r := LinkSpec(t, ip, Some(d), name, room, refs);
            r.Done? && Inv(r.t)
            && (exists k: nat :: k < |r.t[d].ents| && r.t[d].ents[k] == Entry(ip, name))
            && r.t[ip] == t[ip].(nlink := t[ip].nlink + 1)
  {
    assert NodeShape(t, d);
    SlotInDir(t, d, name, room);
    var k := Slot(t[d].ents);
    var r := WithEntry(AddLinks(t, ip, 1), d, name, ip);
    NamesFileKeeps(t, r, d, k, name, ip);
    assert r[d].ents[k] == Entry(ip, name);
    assert Put(Put(r, d, refs(d)), ip, refs(ip)) == r by {
      assert NodeShape(t, ip);
      assert LinksTo(t, ip) == LinksTo(t, ip);
    }
  }

  /** An entry in a directory that is itself unlinked counts for nothing. */
  lemma BadLinkBreaks(t: Table, ip: nat, d: nat, name: Name, room: bool, refs: Refs)
    requires Inv(t) && Allocated(t, ip) && IsDir(t, d) && !Linked(t, d) && LinkAdds(t, ip, Some(d), name, room)
    ensures var r := LinkSpec(t, ip, Some(d), name, room, refs);
            r.Done? && !Conserved(r.t)
  {
    var r := LinkSpec(t, ip, Some(d), name, room, refs).t;
    assert LinksTo(t, d) == LinksTo(t, d) && LinksTo(t, ip) == LinksTo(t, ip);
    assert LinksTo(r, ip) == LinksTo(t, ip) by {
      forall q: nat, m: nat ensures Names(r, q, m, ip) <==> Names(t, q, m, ip) {
        assert Linked(r, q) <==> Linked(t, q);
      }
    }
    assert r[ip].nlink == t[ip].nlink + 1;
  }

  /** Link counts stay exact precisely when sys_link adds no entry or adds it to a linked directory. */
  lemma LinkKeepsExactly(t: Table, ip: nat, dp: Option<nat>, name: Name, room: bool, refs: Refs)
    requires Inv(t) && Allocated(t, ip) && (dp.Some? ==> IsDir(t, dp.value))
    ensures var r := LinkSpec(t, ip, dp, name, room, refs);
            && !r.Panic?
            && (Conserved(r.t) <==> (LinkAdds(t, ip, dp, name, room) ==> Linked(t, dp.value)))
            && (Conserved(r.t) ==> Inv(r.t))
  {
    if !LinkAdds(t, ip, dp, name, room) {
      FailedLinkUndoes(t, ip, dp, name, room, refs);
    } else if Linked(t, dp.value) {
      GoodLinkKeeps(t, ip, dp.value, name, room, refs);
    } else {
      BadLinkBreaks(t, ip, dp.value, name, room, refs);
    }
  }

  // ---------------------------------------------------------------- sys_unlink

  /** Past the name check, what dirlookup finds is a real entry of a linked directory. */
  lemma FoundEntry(t: Table, dp: nat, name: Name)
    requires Inv(t) && IsDir(t, dp) && name != Dot && name != DotDot && Lookup(t[dp].ents, name) < |t[dp].ents|
    ensures var k := Lookup(t[dp].ents, name);
            k >= 2 && Linked(t, dp) && Allocated(t, t[dp].ents[k].inum) && t[t[dp].ents[k].inum].nlink >= 1
  {
    var k := Lookup(t[dp].ents, name);
    assert NodeShape(t, dp);
    assert LinksTo(t, dp) == LinksTo(t, dp);
    NamedIsAllocated(t, dp, k);
  }

  lemma UnlinkFileKeeps(t: Table, dp: nat, name: Name, refs: Refs, k: nat, ip: nat)
    requires Inv(t) && Linked(t, dp) && name != Dot && name != DotDot
    requires k == Lookup(t[dp].ents, name) && 2 <= k < |t[dp].ents| && ip == t[dp].ents[k].inum
    requires Allocated(t, ip) && t[ip].nlink >= 1 && t[ip].kind != Dir
    ensures var r := UnlinkSpec(t, dp, name, refs); r.Done? && Inv(r.t)
  {
    var r := AddLinks(t, ip, -1)[dp := t[dp].(ents := t[dp].ents[k := NOENTRY])];
    ErasesFileKeeps(t, r, dp, k, ip);
    PutKeeps(r, ip, refs(ip));
    var erased := t[dp := t[dp].(ents := t[dp].ents[k := NOENTRY])];
    assert AddLinks(Put(erased, dp, refs(dp)), ip, -1) == r;
  }

  lemma UnlinkDirKeeps(t: Table, dp: nat, name: Name, refs: Refs, k: nat, ip: nat)
    requires Inv(t) && Linked(t, dp) && name != Dot && name != DotDot
    requires k == Lookup(t[dp].ents, name) && 2 <= k < |t[dp].ents| && ip == t[dp].ents[k].inum
    requires Allocated(t, ip) && t[ip].nlink >= 1 && t[ip].kind == Dir && DirEmpty(t[ip].ents)
    ensures var r := UnlinkSpec(t, dp, name, refs); r.Done? && Inv(r.t)
  {
    EmptyDirHasOneLink(t, dp, k, ip);
    ParentKeepsALink(t, dp, k, ip);
    var r := t[ip := t[ip].(nlink := 0)][dp := t[dp].(nlink := t[dp].nlink - 1, ents := t[dp].ents[k := NOENTRY])];
    ErasesDirKeeps(t, r, dp, k, ip);
    PutKeeps(r, ip, refs(ip));
    var dropped := AddLinks(t[dp := t[dp].(ents := t[dp].ents[k := NOENTRY])], dp, -1);
    assert AddLinks(Put(dropped, dp, refs(dp)), ip, -1) == r;
  }

  /** sys_unlink keeps the counts in any directory, and "unlink: nlink < 1" is never reached. */
  lemma UnlinkKeeps(t: Table, dp: nat, name: Name, refs: Refs)
    requires Inv(t) && IsDir(t, dp)
    ensures var r := UnlinkSpec(t, dp, name, refs);
            !r.Panic? && Inv(r.t)
            && (r.Failed? && Linked(t, dp) ==> r.t == t)
            && (r.Done? ==> Linked(t, dp))
  {
    PutKeeps(t, dp, refs(dp));
    var k := Lookup(t[dp].ents, name);
    if name != Dot && name != DotDot && k < |t[dp].ents| {
      FoundEntry(t, dp, name);
      var ip := t[dp].ents[k].inum;
      if t[ip].kind != Dir {
        UnlinkFileKeeps(t, dp, name, refs, k, ip);
      } else if DirEmpty(t[ip].ents) {
        UnlinkDirKeeps(t, dp, name, refs, k, ip);
      }
    }
  }

  // ---------------------------------------------------------------- create

  /** create reaches the end and adds an entry. */
  predicate CreateAdds(t: Table, dp: nat, name: Name, kind: Kind, roomDot: bool, room: bool)
    requires 1 <= |t| && dp < |t|
  {
    FirstFree(t) < |t| && (kind == Dir ==> roomDot) && CanDirlink(t[dp].ents, name, room)
  }

  /** create meets the name ".." of a removed directory whose parent inode is free again. */
  predicate StaleParent(t: Table, dp: nat, name: Name)
    requires dp < |t|
  {
    var k := Lookup(t[dp].ents, name);
    !Linked(t, dp) && name == DotDot && k < |t[dp].ents| && t[dp].ents[k].inum < |t|
    && t[t[dp].ents[k].inum].kind == Free
  }

  /** A name that is there: nothing is added, and the only panic is a stale "..". */
  lemma CreateFound(t: Table, dp: nat, name: Name, kind: Kind, roomDot: bool, room: bool, refs: Refs)
    requires Inv(t) && IsDir(t, dp) && Lookup(t[dp].ents, name) < |t[dp].ents|
    ensures var r := CreateSpec(t, dp, name, kind, roomDot, room, refs);
            (r.Panic? <==> StaleParent(t, dp, name)) && (!r.Panic? ==> Inv(r.t))
  {
    assert NodeShape(t, dp);
    assert LinksTo(t, dp) == LinksTo(t, dp);
    var k := Lookup(t[dp].ents, name);
    var ip := t[dp].ents[k].inum;
    if Linked(t, dp) {
      NamedIsAllocated(t, dp, k);
    }
    if ip < |t| && t[ip].kind != Free {
      PutKeeps(t, dp, refs(dp));
      PutKeeps(Put(t, dp, refs(dp)), ip, refs(ip));
    }
  }

  lemma CreateUndoes(t: Table, dp: nat, name: Name, kind: Kind, roomDot: bool, room: bool, refs: Refs)
    requires Inv(t) && IsDir(t, dp) && Lookup(t[dp].ents, name) == |t[dp].ents|
    requires !CreateAdds(t, dp, name, kind, roomDot, room)
    ensures var r := CreateSpec(t, dp, name, kind, roomDot, room, refs);
            r.Failed? && Inv(r.t) && (Linked(t, dp) ==> r.t == t)
  {
    PutKeeps(t, dp, refs(dp));
    var i := FirstFree(t);
    if i < |t| {
      assert NodeShape(t, i);
      assert t[i := FREE] == t;
    }
  }

  lemma CreateFileKeeps(t: Table, dp: nat, name: Name, kind: Kind, room: bool, refs: Refs, roomDot: bool)
    requires Inv(t) && Linked(t, dp) && dp > 0 && kind != Free && kind != Dir
    requires CreateAdds(t, dp, name, kind, roomDot, room)
    ensures var r := CreateSpec(t, dp, name, kind, roomDot, room, refs); r.Done? && Inv(r.t)
  {
    var i := FirstFree(t);
    assert NodeShape(t, i) && NodeShape(t, dp);
    SlotInDir(t, dp, name, room);
    var n := Node(kind, 0, []);
    var t1 := t[i := n];
    AllocateKeeps(t, t1, i, n, dp);
    var r := WithEntry(t[i := Node(kind, 1, [])], dp, name, i);
    NamesFileKeeps(t1, r, dp, Slot(t[dp].ents), name, i);
  }

  lemma CreateDirKeeps(t: Table, dp: nat, name: Name, room: bool, refs: Refs, roomDot: bool)
    requires Inv(t) && Linked(t, dp) && dp > 0 && CreateAdds(t, dp, name, Dir, roomDot, room)
    ensures var r := CreateSpec(t, dp, name, Dir, roomDot, room, refs); r.Done? && Inv(r.t)
  {
    var i := FirstFree(t);
    assert NodeShape(t, i) && NodeShape(t, dp);
    SlotInDir(t, dp, name, room);
    var dots := [Entry(i, Dot), Entry(dp, DotDot)];
    var n := Node(Dir, 0, dots);
    var t1 := t[i := n];
    AllocateKeeps(t, t1, i, n, dp);
    var r := AddLinks(WithEntry(t[i := Node(Dir, 1, dots)], dp, name, i), dp, 1);
    NamesDirKeeps(t1, r, dp, Slot(t[dp].ents), name, i);
  }

  /** A file made in an unlinked directory has a link count of 1 and no name. */
  lemma CreateFileBreaks(t: Table, dp: nat, name: Name, kind: Kind, room: bool, refs: Refs, roomDot: bool)
    requires Inv(t) && IsDir(t, dp) && !Linked(t, dp) && kind != Free && kind != Dir
    requires CreateAdds(t, dp, name, kind, roomDot, room)
    ensures var r := CreateSpec(t, dp, name, kind, roomDot, room, refs); r.Done? && !Conserved(r.t)
  {
    var i := FirstFree(t);
    var r := CreateSpec(t, dp, name, kind, roomDot, room, refs).t;
    assert NodeShape(t, i) && LinksTo(t, dp) == LinksTo(t, dp);
    LinksToEmpty(t, i);
    assert LinksTo(r, i) == {} by {
      forall q: nat, m: nat ensures !Names(r, q, m, i) {
        assert Linked(r, q) <==> Linked(t, q);
        assert (q, m) !in LinksTo(t, i);
      }
    }
    assert r[i].nlink == 1;
  }

  /** mkdir in an unlinked directory dp, as it leaves the table: i is the new inode, k its entry. */
  ghost predicate Relinks(t: Table, r: Table, dp: nat, k: nat, name: Name, i: nat) {
    && Inv(t) && IsDir(t, dp) && !Linked(t, dp) && 0 < i < |t| && t[i] == FREE && 2 <= k && name != Dot
    && |r| == |t| && r[i] == Node(Dir, 1, [Entry(i, Dot), Entry(dp, DotDot)])
    && r[dp].kind == Dir && r[dp].nlink == 1 && |r[dp].ents| > k && r[dp].ents[k] == Entry(i, name)
    && |t[dp].ents| >= 2 && r[dp].ents[1] == t[dp].ents[1]
    && forall j :: 0 <= j < |t| && j != i && j != dp ==> r[j] == t[j]
  }

  /** The ".." of a directory brought back to life counts again, for an inode that did not expect it. */
  lemma RelinkedMiscounts(t: Table, r: Table, dp: nat, k: nat, name: Name, i: nat)
    requires Relinks(t, r, dp, k, name, i)
    requires t[dp].ents[1].name == DotDot && 0 < t[dp].ents[1].inum < |t|
    ensures var q := t[dp].ents[1].inum; r[q].nlink < |LinksTo(r, q)|
  {
    var q := t[dp].ents[1].inum;
    assert (dp, 1) in LinksTo(r, q);
    if q == i {
      assert (dp, k) in LinksTo(r, q);
      TwoMembers(LinksTo(r, q), (dp, 1), (dp, k));
    } else if q == dp {
      assert (i, 1) in LinksTo(r, q);
      TwoMembers(LinksTo(r, q), (dp, 1), (i, 1));
    } else {
      assert t[q].nlink == |LinksTo(t, q)|;
      GainsOne(LinksTo(t, q), LinksTo(r, q), (dp, 1));
    }
  }

  lemma GainsOne(s: set<(nat, nat)>, t: set<(nat, nat)>, x: (nat, nat))
    requires x in t && x !in s && s <= t
    ensures |s| < |t|
  {
    assert |s| <= |t - {x}| by {
      assert s <= t - {x};
      assert t - {x} == s + (t - {x} - s);
    }
  }

  /** A directory made in an unlinked directory relinks that one, whose ".." then counts again. */
  lemma CreateDirBreaks(t: Table, dp: nat, name: Name, room: bool, refs: Refs, roomDot: bool)
    requires Inv(t) && IsDir(t, dp) && !Linked(t, dp) && CreateAdds(t, dp, name, Dir, roomDot, room)
    ensures var r := CreateSpec(t, dp, name, Dir, roomDot, room, refs); r.Done? && !Conserved(r.t)
  {
    var i := FirstFree(t);
    var r := CreateSpec(t, dp, name, Dir, roomDot, room, refs).t;
    assert NodeShape(t, i) && NodeShape(t, dp);
    SlotInDir(t, dp, name, room);
    assert LinksTo(t, dp) == LinksTo(t, dp);
    assert Relinks(t, r, dp, Slot(t[dp].ents), name, i);
    RelinkedMiscounts(t, r, dp, Slot(t[dp].ents), name, i);
  }

  /** Link counts stay exact precisely when create adds no entry or adds it to a linked directory. */
  lemma CreateKeepsExactly(t: Table, dp: nat, name: Name, kind: Kind, roomDot: bool, room: bool, refs: Refs)
    requires Inv(t) && IsDir(t, dp) && kind != Free
    ensures var r := CreateSpec(t, dp, name, kind, roomDot, room, refs);
            && (r.Panic? <==> StaleParent(t, dp, name))
            && (!r.Panic? ==> (Conserved(r.t) <==> (CreateAdds(t, dp, name, kind, roomDot, room) ==> Linked(t, dp))))
            && (!r.Panic? && Conserved(r.t) ==> Inv(r.t))
  {
    if Lookup(t[dp].ents, name) < |t[dp].ents| {
      CreateFound(t, dp, name, kind, roomDot, room, refs);
    } else if !CreateAdds(t, dp, name, kind, roomDot, room) {
      CreateUndoes(t, dp, name, kind, roomDot, room, refs);
    } else if Linked(t, dp) {
      if kind == Dir {
        CreateDirKeeps(t, dp, name, room, refs, roomDot);
      } else {
        CreateFileKeeps(t, dp, name, kind, room, refs, roomDot);
      }
    } else if kind == Dir {
      CreateDirBreaks(t, dp, name, room, refs, roomDot);
    } else {
      CreateFileBreaks(t, dp, name, kind, room, refs, roomDot);
    }
  }

  // ---------------------------------------------------------------- runs

  datatype Call =
    | Link(ip: nat, parent: Option<nat>, name: Name, room: bool)
    | Unlink(dp: nat, name: Name)
    | Create(dp: nat, name: Name, kind: Kind, roomDot: bool, room: bool)
    | Release(i: nat)

  /** The inodes a call may be given, and the directory it may add to is linked. */
  predicate Admits(t: Table, c: Call) {
    match c
    case Link(ip, dp, _, _) => Allocated(t, ip) && (dp.Some? ==> Linked(t, dp.value) && dp.value > 0)
    case Unlink(dp, _) => IsDir(t, dp)
    case Create(dp, _, kind, _, _) => 0 < dp && Linked(t, dp) && kind != Free
    case Release(i) => 0 < i < |t|
  }

  function After(t: Table, c: Call, refs: Refs): (r: Outcome)
    requires |t| > 0 && Admits(t, c)
  {
    match c
    case Link(ip, dp, name, room) => LinkSpec(t, ip, dp, name, room, refs)
    case Unlink(dp, name) => UnlinkSpec(t, dp, name, refs)
    case Create(dp, name, kind, roomDot, room) => CreateSpec(t, dp, name, kind, roomDot, room, refs)
    case Release(i) => Done(Put(t, i, refs(i)))
  }

  lemma CallKeeps(t: Table, c: Call, refs: Refs)
    requires Inv(t) && Admits(t, c)
    ensures var r := After(t, c, refs); !r.Panic? && Inv(r.t)
  {
    match c
    case Link(ip, dp, name, room) => LinkKeepsExactly(t, ip, dp, name, room, refs);
    case Unlink(dp, name) => UnlinkKeeps(t, dp, name, refs);
    case Create(dp, name, kind, roomDot, room) => CreateKeepsExactly(t, dp, name, kind, roomDot, room, refs);
    case Release(i) => PutKeeps(t, i, refs(i));
  }

  /** Successful or not, each call takes one table to the next. */
  ghost predicate IsRun(ts: seq<Table>, cs: seq<Call>, refs: seq<Refs>) {
    && |ts| == |cs| + 1 && |refs| == |cs| && Init(ts[0])
    && forall n :: 0 <= n < |cs| ==> Calls(ts[n], cs[n], refs[n], ts[n + 1])
  }

  /** Call c takes table t to r. */
  ghost predicate Calls(t: Table, c: Call, refs: Refs, r: Table) {
    |t| > 0 && Admits(t, c) && !After(t, c, refs).Panic? && r == After(t, c, refs).t
  }

  lemma RunOn(ts: seq<Table>, cs: seq<Call>, refs: seq<Refs>, c: Call, held: Refs, r: Table)
    requires IsRun(ts, cs, refs) && Calls(ts[|cs|], c, held, r)
    ensures IsRun(ts + [r], cs + [c], refs + [held])
  {
    var tt, cc, rr := ts + [r], cs + [c], refs + [held];
    forall n | 0 <= n < |cc| ensures Calls(tt[n], cc[n], rr[n], tt[n + 1]) {
      if n < |cs| {
        assert Calls(ts[n], cs[n], refs[n], ts[n + 1]);
      }
    }
  }

  lemma {:induction false} RunInv(ts: seq<Table>, cs: seq<Call>, refs: seq<Refs>, n: nat)
    requires IsRun(ts, cs, refs) && n < |ts|
    ensures Inv(ts[n])
  {
    if n == 0 {
      InitInv(ts[0]);
    } else {
      RunInv(ts, cs, refs, n - 1);
      assert Calls(ts[n - 1], cs[n - 1], refs[n - 1], ts[n - 1 + 1]);
      CallKeeps(ts[n - 1], cs[n - 1], refs[n - 1]);
    }
  }

  /** Link-count conservation over every run, and every name leads to an allocated inode. */
  lemma RunConserves(ts: seq<Table>, cs: seq<Call>, refs: seq<Refs>, n: nat)
    requires IsRun(ts, cs, refs) && n < |ts|
    ensures forall i: nat :: i < |ts[n]| ==> ts[n][i].nlink == |LinksTo(ts[n], i)|
    ensures forall d: nat, k: nat :: Linked(ts[n], d) && k < |ts[n][d].ents| && ts[n][d].ents[k].inum != 0 ==>
              ts[n][d].ents[k].inum < |ts[n]| && ts[n][ts[n][d].ents[k].inum].kind != Free
  {
    RunInv(ts, cs, refs, n);
    var t := ts[n];
    forall d: nat, k: nat | Linked(t, d) && k < |t[d].ents| && t[d].ents[k].inum != 0
      ensures t[d].ents[k].inum < |t| && t[t[d].ents[k].inum].kind != Free
    {
      NamedIsAllocated(t, d, k);
    }
  }
}
