// What kernel/fs.c's block operations do to file contents, on values of FsState.

module FileBlocks {
  import opened FsBlocks
  import opened FsState

  /** The byte file j holds at k, or -1 where no block is mapped. */
  function Peek(fs: Fs, j: nat, k: nat): (r: int)
    ensures -1 <= r < 256
  {
    if j < |fs.inodes| && k < MAXFILE * BSIZE && SlotVal(fs, DataSlot(j, k / BSIZE)) != 0 then ByteAt(fs, j, k) else -1
  }

  ghost predicate SameButAddrs(fs: Fs, r: Fs) {
    && |r.inodes| == |fs.inodes|
    && forall i: nat :: i < |fs.inodes| ==> r.inodes[i] == fs.inodes[i].(addrs := r.inodes[i].addrs)
  }

  /** From fs to r every stored block number, size and mapped byte is kept. */
  ghost predicate Extends(fs: Fs, r: Fs) {
    && SameButAddrs(fs, r)
    && (forall y :: IsSlot(fs, y) && SlotVal(fs, y) != 0 ==> SlotVal(r, y) == SlotVal(fs, y))
    && (forall j: nat, k: nat :: Peek(fs, j, k) >= 0 ==> Peek(r, j, k) == Peek(fs, j, k))
  }

  lemma ExtendsRefl(a: Fs)
    ensures Extends(a, a)
  {
  }

  lemma ExtendsTrans(a: Fs, b: Fs, c: Fs)
    requires Extends(a, b) && Extends(b, c)
    ensures Extends(a, c)
  {
    forall j: nat, k: nat | Peek(a, j, k) >= 0 ensures Peek(c, j, k) == Peek(a, j, k) {
      assert Peek(b, j, k) == Peek(a, j, k);
    }
  }

  lemma LinkExtends(L: Layout, fs: Fs, owner: map<nat, Slot>, x: Slot, b: nat)
    requires CanLink(L, fs, owner, x, b)
    requires x.k > NDIRECT ==> fs.inodes[x.inum].addrs[NDIRECT] < |fs.blocks|
    ensures Extends(fs, Link(fs, x, b))
  {
    var r := Link(fs, x, b);
    forall y | IsSlot(fs, y) && SlotVal(fs, y) != 0 ensures SlotVal(r, y) == SlotVal(fs, y) {
      SlotLink(L, fs, owner, x, b, y);
    }
    forall j: nat, k: nat | Peek(fs, j, k) >= 0 ensures Peek(r, j, k) == Peek(fs, j, k) {
      LinkKeepsByte(L, fs, owner, x, b, j, k);
    }
  }

  /** fs is f0 with s written at off0 of file inum, its size aside. */
  ghost predicate Wrote(f0: Fs, fs: Fs, inum: nat, off0: nat, s: seq<Byte>) {
    && SameButAddrs(f0, fs)
    && (forall j: nat, k: nat :: Peek(f0, j, k) >= 0 && !(j == inum && off0 <= k < off0 + |s|) ==>
         Peek(fs, j, k) == Peek(f0, j, k))
    && (forall k: nat :: off0 <= k < off0 + |s| ==> Peek(fs, inum, k) == s[k - off0])
  }

  lemma WroteExtends(f0: Fs, fs: Fs, f1: Fs, inum: nat, off0: nat, s: seq<Byte>)
    requires Wrote(f0, fs, inum, off0, s) && Extends(fs, f1)
    ensures Wrote(f0, f1, inum, off0, s)
  {
    forall j: nat, k: nat | Peek(f0, j, k) >= 0 && !(j == inum && off0 <= k < off0 + |s|)
      ensures Peek(f1, j, k) == Peek(f0, j, k)
    {
      assert Peek(fs, j, k) == Peek(f0, j, k);
    }
    forall k: nat | off0 <= k < off0 + |s| ensures Peek(f1, inum, k) == s[k - off0] {
      assert Peek(fs, inum, k) == s[k - off0];
    }
  }

  /** The block with the bytes from position p on replaced by s. */
  function Splice(b: Blk, p: nat, s: seq<Byte>): (r: Blk)
    requires p + |s| <= BSIZE
  {
    b[..p] + s + b[p + |s|..]
  }

  lemma PutBlockPeek(L: Layout, fs: Fs, owner: map<nat, Slot>, inum: nat, bn: nat, blk: Blk, j: nat, k: nat)
    requires Shape(L, fs) && Owned(L, fs, owner) && inum < |fs.inodes| && bn < MAXFILE
    requires 0 < SlotVal(fs, DataSlot(inum, bn)) < |fs.blocks|
    requires Peek(fs, j, k) >= 0
    ensures Peek(PutBlock(fs, SlotVal(fs, DataSlot(inum, bn)), blk), j, k)
            == if j == inum && k / BSIZE == bn then blk[k % BSIZE] else Peek(fs, j, k)
  {
    PutBlockByte(L, fs, owner, inum, bn, blk, j, k);
    SlotPutBlock(L, fs, owner, inum, bn, blk, DataSlot(j, k / BSIZE));
  }

  /** c stored inside one mapped block, at byte off of the file. */
  function PutChunk(fs: Fs, inum: nat, off: nat, c: seq<Byte>): (r: Fs)
    requires inum < |fs.inodes| && off / BSIZE < MAXFILE && off % BSIZE + |c| <= BSIZE
    requires SlotVal(fs, DataSlot(inum, off / BSIZE)) < |fs.blocks|
  {
    var addr := SlotVal(fs, DataSlot(inum, off / BSIZE));
    PutBlock(fs, addr, Splice(fs.blocks[addr], off % BSIZE, c))
  }

  lemma ChunkPeek(L: Layout, f1: Fs, owner: map<nat, Slot>, inum: nat, off: nat, c: seq<Byte>, j: nat, k: nat)
    requires Shape(L, f1) && Owned(L, f1, owner) && inum < |f1.inodes|
    requires off + |c| <= MAXFILE * BSIZE && off / BSIZE < MAXFILE && off % BSIZE + |c| <= BSIZE
    requires 0 < SlotVal(f1, DataSlot(inum, off / BSIZE)) < |f1.blocks|
    ensures j == inum && off <= k < off + |c| ==> Peek(PutChunk(f1, inum, off, c), j, k) == c[k - off]
    ensures !(j == inum && off <= k < off + |c|) && Peek(f1, j, k) >= 0 ==>
              Peek(PutChunk(f1, inum, off, c), j, k) == Peek(f1, j, k)
  {
    var addr := SlotVal(f1, DataSlot(inum, off / BSIZE));
    var blk := Splice(f1.blocks[addr], off % BSIZE, c);
    if j == inum && off <= k < off + |c| {
      assert k / BSIZE == off / BSIZE && k % BSIZE == off % BSIZE + (k - off);
      PutBlockPeek(L, f1, owner, inum, off / BSIZE, blk, j, k);
    } else if Peek(f1, j, k) >= 0 {
      PutBlockPeek(L, f1, owner, inum, off / BSIZE, blk, j, k);
    }
  }

  /** One more chunk, inside one block, after the bytes s. */
  lemma WroteChunk(L: Layout, f0: Fs, f1: Fs, owner: map<nat, Slot>, inum: nat, off0: nat, s: seq<Byte>, off: nat,
      c: seq<Byte>)
    requires Wrote(f0, f1, inum, off0, s) && off == off0 + |s|
    requires Shape(L, f1) && Owned(L, f1, owner) && inum < |f1.inodes|
    requires off + |c| <= MAXFILE * BSIZE && off / BSIZE < MAXFILE && off % BSIZE + |c| <= BSIZE
    requires 0 < SlotVal(f1, DataSlot(inum, off / BSIZE)) < |f1.blocks|
    ensures Wrote(f0, PutChunk(f1, inum, off, c), inum, off0, s + c)
  {
    var r := PutChunk(f1, inum, off, c);
    assert r.inodes == f1.inodes;
    forall j: nat, k: nat | Peek(f0, j, k) >= 0 && !(j == inum && off0 <= k < off + |c|)
      ensures Peek(r, j, k) == Peek(f0, j, k)
    {
      assert Peek(f1, j, k) == Peek(f0, j, k);
      ChunkPeek(L, f1, owner, inum, off, c, j, k);
    }
    forall k: nat | off0 <= k < off + |c| ensures Peek(r, inum, k) == (s + c)[k - off0] {
      ChunkPeek(L, f1, owner, inum, off, c, inum, k);
      assert k < off ==> Peek(f1, inum, k) == s[k - off0];
    }
  }

  /** The file after s is written at off. */
  ghost function Overwritten(c: seq<Byte>, off: nat, s: seq<Byte>): (r: seq<Byte>)
    requires off <= |c|
  {
    c[..off] + s + (if off + |s| <= |c| then c[off + |s|..] else [])
  }

  function WithSize(fs: Fs, inum: nat, size: nat): (r: Fs)
    requires inum < |fs.inodes|
  {
    fs.(inodes := fs.inodes[inum := fs.inodes[inum].(size := size)])
  }

  lemma PeekMapped(fs: Fs, j: nat, k: nat)
    requires j < |fs.inodes| && Mapped(fs, j) && k < fs.inodes[j].size <= MAXFILE * BSIZE
    ensures Peek(fs, j, k) == Contents(fs, j)[k] >= 0
  {
    assert k / BSIZE * BSIZE <= k;
  }

  lemma WroteMapped(f0: Fs, fs: Fs, inum: nat, off: nat, s: seq<Byte>, i: nat)
    requires Wrote(f0, fs, inum, off, s) && inum < |f0.inodes| && off <= f0.inodes[inum].size <= MAXFILE * BSIZE
    requires off + |s| <= MAXFILE * BSIZE && i < |f0.inodes| && Mapped(f0, i) && f0.inodes[i].size <= MAXFILE * BSIZE
    ensures Mapped(WithSize(fs, inum, if off + |s| > f0.inodes[inum].size then off + |s| else f0.inodes[inum].size), i)
  {
    var r := WithSize(fs, inum, if off + |s| > f0.inodes[inum].size then off + |s| else f0.inodes[inum].size);
    forall bn: nat | bn < MAXFILE && bn * BSIZE < r.inodes[i].size ensures SlotVal(r, DataSlot(i, bn)) != 0 {
      var k := bn * BSIZE;
      assert k / BSIZE == bn;
      if k < f0.inodes[i].size {
        PeekMapped(f0, i, k);
      }
      assert Peek(fs, i, k) >= 0;
      assert SlotVal(r, DataSlot(i, bn)) == SlotVal(fs, DataSlot(i, bn));
    }
  }

  /** fs with the size writei leaves. */
  function Resized(f0: Fs, fs: Fs, inum: nat, end: nat): (r: Fs)
    requires inum < |f0.inodes| == |fs.inodes|
  {
    WithSize(fs, inum, if end > f0.inodes[inum].size then end else f0.inodes[inum].size)
  }

  lemma WroteBytes(f0: Fs, fs: Fs, inum: nat, off: nat, s: seq<Byte>)
    requires Wrote(f0, fs, inum, off, s) && inum < |f0.inodes| && off <= f0.inodes[inum].size <= MAXFILE * BSIZE
    requires off + |s| <= MAXFILE * BSIZE && Mapped(f0, inum) && Mapped(Resized(f0, fs, inum, off + |s|), inum)
    ensures Contents(Resized(f0, fs, inum, off + |s|), inum) == Overwritten(Contents(f0, inum), off, s)
  {
    var r := Resized(f0, fs, inum, off + |s|);
    forall k: nat | k < r.inodes[inum].size
      ensures Contents(r, inum)[k] == Overwritten(Contents(f0, inum), off, s)[k]
    {
      PeekMapped(r, inum, k);
      assert Peek(r, inum, k) == Peek(fs, inum, k);
      if k < off || off + |s| <= k {
        PeekMapped(f0, inum, k);
      }
    }
  }

  lemma WroteOther(f0: Fs, fs: Fs, inum: nat, off: nat, s: seq<Byte>, j: nat)
    requires Wrote(f0, fs, inum, off, s) && inum < |f0.inodes| && j < |f0.inodes| && j != inum
    requires f0.inodes[j].size <= MAXFILE * BSIZE && Mapped(f0, j) && Mapped(Resized(f0, fs, inum, off + |s|), j)
    ensures Resized(f0, fs, inum, off + |s|).inodes[j].size == f0.inodes[j].size
    ensures Contents(Resized(f0, fs, inum, off + |s|), j) == Contents(f0, j)
  {
    var r := Resized(f0, fs, inum, off + |s|);
    assert r.inodes[j] == fs.inodes[j];
    forall k: nat | k < f0.inodes[j].size ensures Contents(r, j)[k] == Contents(f0, j)[k] {
      PeekMapped(f0, j, k);
      PeekMapped(r, j, k);
      assert Peek(r, j, k) == Peek(fs, j, k);
    }
  }

  lemma ResizedSound(L: Layout, fs: Fs, owner: map<nat, Slot>, inum: nat, size: nat)
    requires SoundFs(L, fs, owner) && inum < |fs.inodes| && size <= MAXFILE * BSIZE
    ensures SoundFs(L, WithSize(fs, inum, size), owner)
  {
    var r := WithSize(fs, inum, size);
    forall y | IsSlot(r, y) ensures SlotVal(r, y) == SlotVal(fs, y) {
    }
  }

  lemma SizeTraced(L: Layout, f0: Fs, fs: Fs, inum: nat, size: nat, log: set<nat>, log': set<nat>)
    requires Traced(L, f0, fs, inum, log) && log <= log'
    ensures Traced(L, f0, WithSize(fs, inum, size), inum, log')
  {
    var r := WithSize(fs, inum, size);
    assert Traced(L, fs, r, inum, log');
    TracedTrans(L, f0, fs, r, inum, log, log');
  }

  lemma WroteContents(L: Layout, f0: Fs, owner0: map<nat, Slot>, fs: Fs, owner: map<nat, Slot>, inum: nat, off: nat,
      s: seq<Byte>)
    requires Consistent(L, f0, owner0) && inum < |f0.inodes| && off <= f0.inodes[inum].size
    requires off + |s| <= MAXFILE * BSIZE
    requires Wrote(f0, fs, inum, off, s) && SoundFs(L, fs, owner)
    ensures var r := Resized(f0, fs, inum, off + |s|);
            && Consistent(L, r, owner)
            && Contents(r, inum) == Overwritten(Contents(f0, inum), off, s)
            && forall j: nat :: j < |f0.inodes| && j != inum ==> Contents(r, j) == Contents(f0, j)
  {
    var r := Resized(f0, fs, inum, off + |s|);
    ResizedSound(L, fs, owner, inum, r.inodes[inum].size);
    forall i: nat | i < |r.inodes| ensures Mapped(r, i) {
      WroteMapped(f0, fs, inum, off, s, i);
    }
    WroteBytes(f0, fs, inum, off, s);
    forall j: nat | j < |f0.inodes| && j != inum ensures Contents(r, j) == Contents(f0, j) {
      WroteOther(f0, fs, inum, off, s, j);
    }
  }

  /** A file's bytes depend on its inode and the blocks alone. */
  lemma SameInodeSameContents(f0: Fs, fs: Fs, j: nat)
    requires j < |f0.inodes| && j < |fs.inodes| && fs.inodes[j] == f0.inodes[j] && fs.blocks == f0.blocks
    requires f0.inodes[j].size <= MAXFILE * BSIZE
    ensures Contents(fs, j) == Contents(f0, j)
    ensures Mapped(f0, j) ==> Mapped(fs, j)
  {
    forall bn: nat | bn < MAXFILE ensures SlotVal(fs, DataSlot(j, bn)) == SlotVal(f0, DataSlot(j, bn)) {
    }
    forall k: nat | k < f0.inodes[j].size ensures Contents(fs, j)[k] == Contents(f0, j)[k] {
      assert ByteAt(fs, j, k) == ByteAt(f0, j, k);
    }
  }
}
