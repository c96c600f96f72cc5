// The directory system calls as they run: loops over entries and inodes, fields updated
// in place, goto-style undo. Each ends in the table LinkOps gives for it.

module LinkTable {
  import opened Links
  import opened LinkOps
  import opened LinkCalls

  datatype Result = Ok | Error | Panicked

  function Ends(r: Result, t: Table): (o: Outcome) {
    match r
    case Ok => Done(t)
    case Error => Failed(t)
    case Panicked => Panic
  }

  /** create's table before the directory it is in is released. */
  function Made(t: Table, dp: nat, name: Name, kind: Kind, i: nat): (r: Table)
    requires dp < |t| && i < |t|
  {
    var dots := if kind == Dir then [Entry(i, Dot), Entry(dp, DotDot)] else [];
    var made := WithEntry(t[i := Node(kind, 1, dots)], dp, name, i);
    if kind == Dir then AddLinks(made, dp, 1) else made
  }

  lemma MadeTwice(t: Table, dp: nat, name: Name, kind: Kind, i: nat)
    requires dp < |t| && i < |t|
    ensures Made(t[i := Node(kind, 0, [])], dp, name, kind, i) == Made(t, dp, name, kind, i)
  {
    var dots := if kind == Dir then [Entry(i, Dot), Entry(dp, DotDot)] else [];
    assert t[i := Node(kind, 0, [])][i := Node(kind, 1, dots)] == t[i := Node(kind, 1, dots)];
  }

  /** What dirlookup finds in a directory, even a removed one, is a number of the table. */
  lemma EntryInRange(t: Table, dp: nat, name: Name)
    requires Inv(t) && IsDir(t, dp)
    ensures var k := Lookup(t[dp].ents, name); k < |t[dp].ents| ==> t[dp].ents[k].inum < |t|
  {
    var k := Lookup(t[dp].ents, name);
    assert NodeShape(t, dp);
    if Linked(t, dp) && k < |t[dp].ents| {
      NamedIsAllocated(t, dp, k);
    }
    assert LinksTo(t, dp) == LinksTo(t, dp);
  }

  class Inodes {
    var t: seq<Node>

    /** References to each inode held outside the running call. */
    const refs: Refs

    constructor (t: seq<Node>, refs: Refs)
      ensures this.t == t && this.refs == refs
    {
      this.t := t;
      this.refs := refs;
    }

    /** dirlookup: the entry's index, or the number of entries. */
    method Dirlookup(d: nat, name: Name) returns (k: nat)
      requires d < |t|
      ensures k == Lookup(t[d].ents, name)
    {
      k := 0;
      while k < |t[d].ents|
        invariant k <= |t[d].ents| && Lookup(t[d].ents, name) == Lookup(t[d].ents, name, k)
      {
        if t[d].ents[k].inum != 0 && t[d].ents[k].name == name {
          return;
        }
        k := k + 1;
      }
    }

    /** dirlink; `room` says whether writei can append an entry. */
    method Dirlink(d: nat, name: Name, inum: nat, room: bool) returns (r: Result)
      requires d < |t|
      modifies this`t
      ensures r == if CanDirlink(old(t[d].ents), name, room) then Ok else Error
      ensures t == if r.Ok? then WithEntry(old(t), d, name, inum) else old(t)
    {
      var k := Dirlookup(d, name);
      if k < |t[d].ents| {
        return Error;
      }
      var off := 0;
      while off < |t[d].ents|
        invariant off <= |t[d].ents| && Slot(t[d].ents) == Slot(t[d].ents, off)
      {
        if t[d].ents[off].inum == 0 {
          break;
        }
        off := off + 1;
      }
      if off == |t[d].ents| && !room {
        return Error;
      }
      t := t[d := t[d].(ents := PutEntry(t[d].ents, off, Entry(inum, name)))];
      return Ok;
    }

    method IsDirEmpty(d: nat) returns (r: bool)
      requires d < |t|
      ensures r == DirEmpty(t[d].ents)
    {
      var k := 2;
      while k < |t[d].ents|
        invariant 2 <= k && forall j :: 2 <= j < k && j < |t[d].ents| ==> t[d].ents[j].inum == 0
      {
        if t[d].ents[k].inum != 0 {
          return false;
        }
        k := k + 1;
      }
      return true;
    }

    /** ialloc: claims the first free inode; |t| when there is none. */
    method Ialloc(kind: Kind) returns (i: nat)
      requires |t| >= 1
      modifies this`t
      ensures i == FirstFree(old(t))
      ensures t == if i < |old(t)| then old(t)[i := Node(kind, 0, [])] else old(t)
    {
      i := 1;
      while i < |t|
        invariant 1 <= i <= |t| && t == old(t) && FirstFree(t) == FirstFree(t, i)
      {
        if t[i].kind == Free {
          t := t[i := Node(kind, 0, [])];
          return;
        }
        i := i + 1;
      }
    }

    /** iput: the last reference to an inode without links frees it. */
    method Iput(i: nat)
      requires i < |t|
      modifies this`t
      ensures t == Put(old(t), i, refs(i))
    {
      if refs(i) == 0 && t[i].nlink == 0 {
        t := t[i := FREE];
      }
    }

    method SetLinks(i: nat, n: int)
      requires i < |t|
      modifies this`t
      ensures t == AddLinks(old(t), i, n)
    {
      t := t[i := t[i].(nlink := t[i].nlink + n)];
    }

    method SysLink(ip: nat, dp: Option<nat>, name: Name, room: bool) returns (r: Result)
      requires Inv(t) && Allocated(t, ip) && (dp.Some? ==> IsDir(t, dp.value))
      modifies this`t
      ensures Ends(r, t) == LinkSpec(old(t), ip, dp, name, room, refs)
      ensures Conserved(t) <==> (LinkAdds(old(t), ip, dp, name, room) ==> Linked(old(t), dp.value))
      ensures Conserved(t) ==> Inv(t)
    {
      LinkKeepsExactly(t, ip, dp, name, room, refs);
      if t[ip].kind == Dir {
        Iput(ip);
        return Error;
      }
      SetLinks(ip, 1);
      if dp.Some? {
        r := Dirlink(dp.value, name, ip, room);
        Iput(dp.value);
        if r.Ok? {
          Iput(ip);
          return Ok;
        }
      }
      SetLinks(ip, -1);
      Iput(ip);
      return Error;
    }

    /** Erases the entry in slot k; the panics of the source are ruled out by Inv. */
    method SysUnlink(dp: nat, name: Name) returns (r: Result)
      requires Inv(t) && IsDir(t, dp)
      modifies this`t
      ensures Ends(r, t) == UnlinkSpec(old(t), dp, name, refs)
      ensures Inv(t)
    {
      UnlinkKeeps(t, dp, name, refs);
      if name == Dot || name == DotDot {
        Iput(dp);
        return Error;
      }
      var k := Dirlookup(dp, name);
      if k == |t[dp].ents| {
        Iput(dp);
        return Error;
      }
      var ip := t[dp].ents[k].inum;
      var isDir := t[ip].kind == Dir;
      var empty := true;
      if isDir {
        empty := IsDirEmpty(ip);
      }
      if isDir && !empty {
        Iput(ip);
        Iput(dp);
        return Error;
      }
      t := t[dp := t[dp].(ents := t[dp].ents[k := NOENTRY])];
      if isDir {
        SetLinks(dp, -1);
      }
      Iput(dp);
      SetLinks(ip, -1);
      Iput(ip);
      return Ok;
    }

    /** The "." and ".." of a new directory. */
    method Dots(i: nat, dp: nat, roomDot: bool) returns (r: Result)
      requires i < |t| && t[i].ents == []
      modifies this`t
      ensures r == if roomDot then Ok else Error
      ensures |t| == |old(t)| && t[i].kind == old(t)[i].kind && t[i].nlink == old(t)[i].nlink
      ensures t[i].ents == if r.Ok? then [Entry(i, Dot), Entry(dp, DotDot)] else []
      ensures forall j :: 0 <= j < |t| && j != i ==> t[j] == old(t)[j]
      requires i != 0
    {
      r := Dirlink(i, Dot, i, roomDot);
      if r.Ok? {
        assert t[i].ents == [Entry(i, Dot)];
        assert Lookup(t[i].ents, DotDot) == 1 && Slot(t[i].ents) == 1;
        r := Dirlink(i, DotDot, dp, roomDot);
      }
    }

    /** create once the name is known to be new and inode i has been claimed. */
    method Fill(dp: nat, name: Name, kind: Kind, roomDot: bool, room: bool, i: nat) returns (r: Result)
      requires dp < |t| && 0 < i < |t| && i != dp && t[i] == Node(kind, 0, [])
      requires Lookup(t[dp].ents, name) == |t[dp].ents|
      modifies this`t
      ensures r == if (kind == Dir ==> roomDot) && CanDirlink(old(t)[dp].ents, name, room) then Ok else Error
      ensures r.Error? ==> t == old(t)[i := FREE]
      ensures r.Ok? ==> t == Made(old(t), dp, name, kind, i)
    {
      SetLinks(i, 1);
      r := Ok;
      if kind == Dir {
        r := Dots(i, dp, roomDot);
      }
      if r.Ok? {
        assert t == old(t)[i := Node(kind, 1, if kind == Dir then [Entry(i, Dot), Entry(dp, DotDot)] else [])];
        r := Dirlink(dp, name, i, room);
      }
      if r.Error? {
        // Nobody else holds the new inode, so dropping its link and its reference frees it.
        t := t[i := FREE];
        assert t == old(t)[i := FREE];
      } else if kind == Dir {
        SetLinks(dp, 1);
      }
    }

    method Create(dp: nat, name: Name, kind: Kind, roomDot: bool, room: bool) returns (r: Result)
      requires Inv(t) && IsDir(t, dp) && kind != Free
      modifies this`t
      ensures Ends(r, t) == CreateSpec(old(t), dp, name, kind, roomDot, room, refs)
      ensures r.Panicked? <==> StaleParent(old(t), dp, name)
      ensures r.Panicked? ==> t == Put(old(t), dp, refs(dp))
      ensures !r.Panicked? ==> (Conserved(t) <==>
              (CreateAdds(old(t), dp, name, kind, roomDot, room) ==> Linked(old(t), dp)))
      ensures !r.Panicked? && Conserved(t) ==> Inv(t)
    {
      CreateKeepsExactly(t, dp, name, kind, roomDot, room, refs);
      EntryInRange(t, dp, name);
      r := Make(dp, name, kind, roomDot, room);
    }

    /** create when the name is already there; ilock panics on a free inode. */
    method Found(dp: nat, kind: Kind, k: nat) returns (r: Result)
      requires dp < |t| && k < |t[dp].ents| && t[dp].ents[k].inum < |t|
      modifies this`t
      ensures var ip := old(t)[dp].ents[k].inum;
              var same := kind == File && (old(t)[ip].kind == File || old(t)[ip].kind == Device);
              var put := Put(old(t), dp, refs(dp));
              if old(t)[ip].kind == Free then r.Panicked? && t == put
              else if same then r.Ok? && t == put
              else r.Error? && t == Put(put, ip, refs(ip))
    {
      var ip := t[dp].ents[k].inum;
      var found := t[ip].kind;
      Iput(dp);
      if found == Free {
        return Panicked;
      }
      if kind == File && (found == File || found == Device) {
        return Ok;
      }
      Iput(ip);
      return Error;
    }

    /** create when it is not. */
    method Fresh(dp: nat, name: Name, kind: Kind, roomDot: bool, room: bool) returns (r: Result)
      requires 0 < dp < |t| && t[dp].kind != Free && Lookup(t[dp].ents, name) == |t[dp].ents|
      modifies this`t
      ensures Ends(r, t) == CreateSpec(old(t), dp, name, kind, roomDot, room, refs) && !r.Panicked?
    {
      ghost var t0 := t;
      var i := Ialloc(kind);
      if i == |t| {
        Iput(dp);
        return Error;
      }
      r := Fill(dp, name, kind, roomDot, room, i);
      if r.Ok? {
        MadeTwice(t0, dp, name, kind, i);
      } else {
        assert t == t0[i := FREE];
      }
      Iput(dp);
    }

    method Make(dp: nat, name: Name, kind: Kind, roomDot: bool, room: bool) returns (r: Result)
      requires 0 < dp < |t| && t[dp].kind != Free
      requires Lookup(t[dp].ents, name) < |t[dp].ents| ==> t[dp].ents[Lookup(t[dp].ents, name)].inum < |t|
      modifies this`t
      ensures Ends(r, t) == CreateSpec(old(t), dp, name, kind, roomDot, room, refs)
      ensures r.Panicked? ==> t == Put(old(t), dp, refs(dp))
    {
      var k := Dirlookup(dp, name);
      if k < |t[dp].ents| {
        r := Found(dp, kind, k);
      } else {
        r := Fresh(dp, name, kind, roomDot, room);
      }
    }
  }
}
