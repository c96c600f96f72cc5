// filewrite of kernel/file.c: one transaction a chunk, each within the log budget.

module FileWrite {
  import opened FsBlocks
  import opened FsState
  import FileBlocks
  import opened FileOps

  const MAXOPBLOCKS: nat := 10
  const CHUNK: nat := ((MAXOPBLOCKS - 1 - 1 - 2) / 2) * BSIZE

  /** However the chunk lies across blocks, it logs at most MAXOPBLOCKS distinct blocks. */
  lemma ChunkFitsBudget(off: nat, n: nat)
    requires n <= CHUNK
    ensures WriteBudget(off, n) <= MAXOPBLOCKS
  {
    assert CHUNK == 3072;
    if n > 0 {
      var q, r := off / BSIZE, off % BSIZE;
      assert off == BSIZE * q + r;
      if r == 0 {
        assert (off + n - 1) / BSIZE == q + (n - 1) / BSIZE;
      } else {
        assert (off + n - 1) / BSIZE == q + (r + n - 1) / BSIZE;
      }
    }
  }

  /** Writing a at off and b right after it is writing a + b at off. */
  lemma OverwrittenTwice(c: seq<Byte>, off: nat, a: seq<Byte>, b: seq<Byte>)
    requires off <= |c|
    ensures FileBlocks.Overwritten(FileBlocks.Overwritten(c, off, a), off + |a|, b) ==
            FileBlocks.Overwritten(c, off, a + b)
  {
    var once := FileBlocks.Overwritten(c, off, a);
    assert once[..off + |a|] == c[..off] + a;
    if off + |a| + |b| <= |c| {
      assert once[off + |a| + |b|..] == c[off + |a| + |b|..];
    }
  }

  /** c1 is c0 with a written at off; writing nothing is allowed at any offset. */
  ghost predicate Wrote(c0: seq<Byte>, off: nat, a: seq<Byte>, c1: seq<Byte>) {
    if a == [] then c1 == c0 else off <= |c0| && c1 == FileBlocks.Overwritten(c0, off, a)
  }

  lemma WroteNext(c0: seq<Byte>, base: nat, data: seq<Byte>, i: nat, n1: nat, r: nat, t: nat, c1: seq<Byte>,
      c2: seq<Byte>)
    requires i + n1 <= |data| && r <= n1 && t == i + r
    requires Wrote(c0, base, data[..i], c1) && Wrote(c1, base + i, data[i..i + n1][..r], c2)
    ensures Wrote(c0, base, data[..t], c2)
  {
    var a, b := data[..i], data[i..i + n1][..r];
    assert a + b == data[..t];
    if r > 0 && i > 0 {
      OverwrittenTwice(c0, base, a, b);
    } else if r > 0 {
      assert b == data[..t] && c1 == c0;
    } else {
      assert a == data[..t] && c2 == c1;
    }
  }

  /** An open file on inode inum. */
  class File {
    const inum: nat
    var off: nat

    /** One begin_op .. end_op of filewrite; `count` is the number of blocks it logs. */
    method Transaction(fs: FileSystem, chunk: seq<Byte>, copies: nat) returns (r: int, ghost w: nat, ghost count: nat)
      requires fs.Valid() && inum < |fs.inodes| && off < UINT && 0 < |chunk| <= CHUNK
      modifies this`off, fs`bitmap, fs`blocks, fs`inodes, fs`dinodes, fs`owner, fs`logged
      ensures fs.Valid() && |fs.inodes| == |old(fs.inodes)|
      ensures count == |fs.logged| <= MAXOPBLOCKS && FileCall(fs.L, old(fs.State()), fs.State(), fs.logged)
      ensures -1 <= r <= |chunk| && w == (if r > 0 then r else 0) && off == old(off) + w < UINT
      ensures Wrote(old(fs.Bytes(inum)), old(off), chunk[..w], fs.Bytes(inum))
      ensures forall j: nat :: j < |fs.inodes| && j != inum ==> fs.Bytes(j) == old(fs.Bytes(j))
    {
      fs.logged := {};
      ghost var c := fs.Bytes(inum);
      r := fs.Writei(inum, off, chunk, copies);
      assert fs.logged - {} == fs.logged;
      count := |fs.logged|;
      ChunkFitsBudget(off, |chunk|);
      w := if r > 0 then r else 0;
      if r > 0 {
        off := off + r;
      }
      if r == 0 {
        assert FileBlocks.Overwritten(c, off, chunk[..0]) == c;
      }
    }

    /** Writes data in chunks until one comes back short.  `copies(i)` is how many block
        copies of the chunk at i succeed; `perOp` counts the blocks each transaction logs. */
    method Filewrite(fs: FileSystem, n: int, data: seq<Byte>, copies: nat -> nat)
        returns (ret: int, ghost perOp: seq<nat>)
      requires fs.Valid() && inum < |fs.inodes| && off < UINT
      requires |data| == (if n < 0 then 0 else n) && n < UINT
      modifies this`off, fs`bitmap, fs`blocks, fs`inodes, fs`dinodes, fs`owner, fs`logged
      ensures fs.Valid() && |fs.inodes| == |old(fs.inodes)|
      ensures forall k :: 0 <= k < |perOp| ==> perOp[k] <= MAXOPBLOCKS
      ensures ret == n >= 0 || ret == -1
      ensures old(off) <= off <= old(off) + |data|
      ensures ret != -1 ==> off == old(off) + n
      ensures Wrote(old(fs.Bytes(inum)), old(off), data[..off - old(off)], fs.Bytes(inum))
      ensures forall j: nat :: j < |fs.inodes| && j != inum ==> fs.Bytes(j) == old(fs.Bytes(j))
    {
      perOp := [];
      var i := 0;
      var short := false;
      ghost var base, t := off, 0;
      while i < n && !short
        invariant 0 <= i <= t <= |data| && off == base + t < UINT && (!short ==> t == i) && (short ==> i < n)
        invariant fs.Valid() && |fs.inodes| == |old(fs.inodes)|
        invariant Wrote(old(fs.Bytes(inum)), base, data[..t], fs.Bytes(inum))
        invariant forall j: nat :: j < |fs.inodes| && j != inum ==> fs.Bytes(j) == old(fs.Bytes(j))
        invariant forall k :: 0 <= k < |perOp| ==> perOp[k] <= MAXOPBLOCKS
        decreases n - i, !short
      {
        var n1 := if n - i > CHUNK then CHUNK else n - i;
        ghost var mid := fs.Bytes(inum);
        var r;
        ghost var w, count;
        r, w, count := Transaction(fs, data[i..i + n1], copies(i));
        perOp := perOp + [count];
        t := i + w;
        WroteNext(old(fs.Bytes(inum)), base, data, i, n1, w, t, mid, fs.Bytes(inum));
        if r != n1 {
          short := true;
        } else {
          i := i + r;
        }
      }
      ret := if i == n then n else -1;
    }
  }
}
