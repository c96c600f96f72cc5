// The on-disk state kernel/fs.c works on, who owns each block, and what a file contains.

module FsState {
  import opened FsBlocks

  /** addrs[NDIRECT] is the indirect pointer. */
  type Addrs = a: seq<nat> | |a| == NDIRECT + 1 witness seq(NDIRECT + 1, _ => 0)

  datatype Inode = Inode(kind: int, nlink: int, size: nat, addrs: Addrs)

  /** A place a block number is stored: k <= NDIRECT is addrs[k], the rest are indirect entries. */
  datatype Slot = Slot(inum: nat, k: nat)

  const SLOTS: nat := 269 // NDIRECT + 1 + NINDIRECT

  /** Blocks below `datastart` are boot, super, log, inode and bitmap blocks. */
  datatype Layout = Layout(nblocks: nat, datastart: nat, inodestart: nat, bmapstart: nat, ninodes: nat) {
    ghost predicate Valid() { 0 < datastart <= nblocks < UINT }

    /** The bitmap block that holds byte j of the bitmap, and the inode block that holds inode i. */
    function ByteBlock(j: nat): (b: nat) { j / BSIZE + bmapstart }

    function InodeBlock(i: nat): (b: nat) { i / IPB + inodestart }
  }

  datatype Fs = Fs(bitmap: seq<bv8>, blocks: seq<Blk>, inodes: seq<Inode>)

  ghost predicate Shape(L: Layout, fs: Fs) {
    && L.Valid()
    && |fs.blocks| == L.nblocks && L.nblocks <= 8 * |fs.bitmap| && |fs.inodes| == L.ninodes
    && forall i :: 0 <= i < |fs.inodes| ==> fs.inodes[i].size <= MAXFILE * BSIZE
  }

  predicate IsSlot(fs: Fs, x: Slot) { x.inum < |fs.inodes| && x.k < SLOTS }

  function SlotVal(fs: Fs, x: Slot): (v: nat)
    requires IsSlot(fs, x)
  {
    var a := fs.inodes[x.inum].addrs;
    if x.k <= NDIRECT then a[x.k]
    else if a[NDIRECT] == 0 || a[NDIRECT] >= |fs.blocks| then 0
    else Word(fs.blocks[a[NDIRECT]], x.k - NDIRECT - 1)
  }

  /** Where the number of file block bn is stored. */
  function DataSlot(inum: nat, bn: nat): (x: Slot)
    requires bn < MAXFILE
    ensures x.k < SLOTS && x.k != NDIRECT && x.inum == inum
  {
    Slot(inum, if bn < NDIRECT then bn else bn + 1)
  }

  /** `owner` names the one place each allocated data block is stored. */
  ghost predicate Owned(L: Layout, fs: Fs, owner: map<nat, Slot>) {
    && (forall x :: IsSlot(fs, x) && SlotVal(fs, x) != 0 ==> SlotVal(fs, x) in owner && owner[SlotVal(fs, x)] == x)
    && (forall b {:trigger owner[b]} :: b in owner ==>
          L.datastart <= b < L.nblocks && IsSlot(fs, owner[b]) && SlotVal(fs, owner[b]) == b)
  }

  /** The set bits are the metadata blocks and the owned blocks, less those just freed. */
  ghost predicate Marked(L: Layout, fs: Fs, owner: map<nat, Slot>, freed: set<nat>)
    requires Shape(L, fs)
  {
    forall b: nat {:trigger Bit(fs.bitmap, b)} :: b < L.nblocks ==>
      (Bit(fs.bitmap, b) <==> b < L.datastart || (b in owner && b !in freed))
  }

  /** Every block below the size of the file exists. */
  ghost predicate Mapped(fs: Fs, inum: nat)
    requires inum < |fs.inodes|
  {
    forall bn: nat :: bn < MAXFILE && bn * BSIZE < fs.inodes[inum].size ==> SlotVal(fs, DataSlot(inum, bn)) != 0
  }

  ghost predicate AllMapped(fs: Fs) {
    forall i: nat :: i < |fs.inodes| ==> Mapped(fs, i)
  }

  /** Block ownership, without the claim that files are fully mapped. */
  ghost predicate SoundFs(L: Layout, fs: Fs, owner: map<nat, Slot>) {
    Shape(L, fs) && Owned(L, fs, owner) && Marked(L, fs, owner, {})
  }

  ghost predicate Consistent(L: Layout, fs: Fs, owner: map<nat, Slot>) {
    SoundFs(L, fs, owner) && AllMapped(fs)
  }

  /** Block ownership without the witness: each block is reached from one place at most, and
      the set bits are exactly the metadata blocks and the reached ones. */
  lemma OwnershipMeans(L: Layout, fs: Fs, owner: map<nat, Slot>)
    requires Consistent(L, fs, owner)
    ensures forall x, y :: IsSlot(fs, x) && IsSlot(fs, y) && x != y && SlotVal(fs, x) != 0 ==>
            SlotVal(fs, x) != SlotVal(fs, y)
    ensures forall b: nat :: b < L.nblocks ==>
              (Bit(fs.bitmap, b) <==> b < L.datastart || exists x :: IsSlot(fs, x) && SlotVal(fs, x) == b)
    ensures forall x :: IsSlot(fs, x) ==> SlotVal(fs, x) == 0 || L.datastart <= SlotVal(fs, x) < L.nblocks
  {
    forall b: nat | b < L.nblocks
      ensures Bit(fs.bitmap, b) <==> b < L.datastart || exists x :: IsSlot(fs, x) && SlotVal(fs, x) == b
    {
      if b in owner {
        assert IsSlot(fs, owner[b]) && SlotVal(fs, owner[b]) == b;
      }
    }
  }

  /** Distinct file blocks, of one file or two, live in distinct disk blocks. */
  lemma BmapInjective(L: Layout, fs: Fs, owner: map<nat, Slot>, i: nat, m: nat, j: nat, n: nat)
    requires Consistent(L, fs, owner) && i < |fs.inodes| && j < |fs.inodes| && m < MAXFILE && n < MAXFILE
    requires SlotVal(fs, DataSlot(i, m)) != 0 && SlotVal(fs, DataSlot(i, m)) == SlotVal(fs, DataSlot(j, n))
    ensures i == j && m == n
  {
    var x, y := DataSlot(i, m), DataSlot(j, n);
    assert IsSlot(fs, x) && IsSlot(fs, y);
    assert owner[SlotVal(fs, x)] == x && owner[SlotVal(fs, y)] == y;
  }

  // ---------------------------------------------------------------- contents

  function ByteAt(fs: Fs, inum: nat, k: nat): (r: Byte)
    requires inum < |fs.inodes| && k < MAXFILE * BSIZE
  {
    var v := SlotVal(fs, DataSlot(inum, k / BSIZE));
    if v < |fs.blocks| then fs.blocks[v][k % BSIZE] else 0
  }

  /** The bytes of a file: the abstraction readi and writei are judged by. */
  ghost function Contents(fs: Fs, inum: nat): (c: seq<Byte>)
    requires inum < |fs.inodes| && fs.inodes[inum].size <= MAXFILE * BSIZE
    ensures |c| == fs.inodes[inum].size
  {
    seq(fs.inodes[inum].size, k requires 0 <= k < MAXFILE * BSIZE => ByteAt(fs, inum, k))
  }

  // ---------------------------------------------------------------- allocating into a slot

  /** balloc of b, then its number stored at x. */
  function Link(fs: Fs, x: Slot, b: nat): (r: Fs)
    requires IsSlot(fs, x) && b / 8 < |fs.bitmap| && b < |fs.blocks| && b < UINT
    requires x.k > NDIRECT ==> fs.inodes[x.inum].addrs[NDIRECT] < |fs.blocks|
  {
    var ip := fs.inodes[x.inum];
    var zeroed := fs.blocks[b := Zero()];
    if x.k <= NDIRECT then
      Fs(SetBit(fs.bitmap, b), zeroed, fs.inodes[x.inum := ip.(addrs := ip.addrs[x.k := b])])
    else
      var at := ip.addrs[NDIRECT];
      Fs(SetBit(fs.bitmap, b), zeroed[at := PutWord(zeroed[at], x.k - NDIRECT - 1, b)], fs.inodes)
  }

  ghost predicate CanLink(L: Layout, fs: Fs, owner: map<nat, Slot>, x: Slot, b: nat) {
    && SoundFs(L, fs, owner)
    && IsSlot(fs, x) && SlotVal(fs, x) == 0
    && L.datastart <= b < L.nblocks && !Bit(fs.bitmap, b)
    && (x.k > NDIRECT ==> fs.inodes[x.inum].addrs[NDIRECT] != 0)
  }

  /** An indirect pointer is zero or an owned block. */
  lemma IndirectOwned(L: Layout, fs: Fs, owner: map<nat, Slot>, inum: nat)
    requires Shape(L, fs) && Owned(L, fs, owner) && inum < |fs.inodes|
    ensures var a := fs.inodes[inum].addrs[NDIRECT];
            a == 0 || (L.datastart <= a < L.nblocks && a in owner && owner[a] == Slot(inum, NDIRECT))
  {
    assert IsSlot(fs, Slot(inum, NDIRECT)) && SlotVal(fs, Slot(inum, NDIRECT)) == fs.inodes[inum].addrs[NDIRECT];
  }

  lemma SlotLink(L: Layout, fs: Fs, owner: map<nat, Slot>, x: Slot, b: nat, y: Slot)
    requires CanLink(L, fs, owner, x, b) && IsSlot(fs, y)
    requires x.k > NDIRECT ==> fs.inodes[x.inum].addrs[NDIRECT] < |fs.blocks|
    ensures SlotVal(Link(fs, x, b), y) == if y == x then b else SlotVal(fs, y)
  {
    IndirectOwned(L, fs, owner, x.inum);
    IndirectOwned(L, fs, owner, y.inum);
    assert b !in owner;
    if y.k > NDIRECT {
      if x.k > NDIRECT {
        WordPut(fs.blocks[fs.inodes[x.inum].addrs[NDIRECT]], x.k - NDIRECT - 1, b, y.k - NDIRECT - 1);
      } else if x == Slot(y.inum, NDIRECT) {
        WordZero(y.k - NDIRECT - 1);
      }
    }
  }

  lemma LinkKeepsOwned(L: Layout, fs: Fs, owner: map<nat, Slot>, x: Slot, b: nat)
    requires CanLink(L, fs, owner, x, b)
    requires x.k > NDIRECT ==> fs.inodes[x.inum].addrs[NDIRECT] < |fs.blocks|
    ensures var r := Link(fs, x, b);
            SoundFs(L, r, owner[b := x])
  {
    var r, own := Link(fs, x, b), owner[b := x];
    forall y | IsSlot(r, y) && SlotVal(r, y) != 0 ensures SlotVal(r, y) in own && own[SlotVal(r, y)] == y {
      SlotLink(L, fs, owner, x, b, y);
    }
    forall c | c in own ensures L.datastart <= c < L.nblocks && IsSlot(r, own[c]) && SlotVal(r, own[c]) == c {
      SlotLink(L, fs, owner, x, b, own[c]);
    }
    forall c: nat | c < L.nblocks ensures Bit(r.bitmap, c) <==> c < L.datastart || c in own {
      BitSet(fs.bitmap, b, c);
    }
  }

  /** Allocating a block for one slot changes no byte a mapped slot reaches. */
  lemma LinkKeepsByte(L: Layout, fs: Fs, owner: map<nat, Slot>, x: Slot, b: nat, j: nat, k: nat)
    requires CanLink(L, fs, owner, x, b) && j < |fs.inodes| && k < MAXFILE * BSIZE
    requires x.k > NDIRECT ==> fs.inodes[x.inum].addrs[NDIRECT] < |fs.blocks|
    requires SlotVal(fs, DataSlot(j, k / BSIZE)) != 0
    ensures ByteAt(Link(fs, x, b), j, k) == ByteAt(fs, j, k)
    ensures SlotVal(Link(fs, x, b), DataSlot(j, k / BSIZE)) != 0
  {
    var y := DataSlot(j, k / BSIZE);
    SlotLink(L, fs, owner, x, b, y);
    IndirectOwned(L, fs, owner, x.inum);
    assert owner[SlotVal(fs, y)] == y;
  }

  // ---------------------------------------------------------------- overwriting a data block

  function PutBlock(fs: Fs, b: nat, blk: Blk): (r: Fs)
    requires b < |fs.blocks|
  {
    fs.(blocks := fs.blocks[b := blk])
  }

  lemma SlotPutBlock(L: Layout, fs: Fs, owner: map<nat, Slot>, inum: nat, bn: nat, blk: Blk, y: Slot)
    requires Shape(L, fs) && Owned(L, fs, owner) && inum < |fs.inodes| && bn < MAXFILE
    requires 0 < SlotVal(fs, DataSlot(inum, bn)) < |fs.blocks| && IsSlot(fs, y)
    ensures SlotVal(PutBlock(fs, SlotVal(fs, DataSlot(inum, bn)), blk), y) == SlotVal(fs, y)
  {
    IndirectOwned(L, fs, owner, y.inum);
    assert owner[SlotVal(fs, DataSlot(inum, bn))] == DataSlot(inum, bn);
  }

  lemma PutBlockKeepsOwned(L: Layout, fs: Fs, owner: map<nat, Slot>, inum: nat, bn: nat, blk: Blk)
    requires SoundFs(L, fs, owner) && inum < |fs.inodes| && bn < MAXFILE
    requires 0 < SlotVal(fs, DataSlot(inum, bn)) < |fs.blocks|
    ensures var r := PutBlock(fs, SlotVal(fs, DataSlot(inum, bn)), blk);
            SoundFs(L, r, owner)
  {
    var r := PutBlock(fs, SlotVal(fs, DataSlot(inum, bn)), blk);
    forall y | IsSlot(r, y) ensures SlotVal(r, y) == SlotVal(fs, y) {
      SlotPutBlock(L, fs, owner, inum, bn, blk, y);
    }
  }

  lemma PutBlockByte(L: Layout, fs: Fs, owner: map<nat, Slot>, inum: nat, bn: nat, blk: Blk, j: nat, k: nat)
    requires Shape(L, fs) && Owned(L, fs, owner) && inum < |fs.inodes| && bn < MAXFILE
    requires 0 < SlotVal(fs, DataSlot(inum, bn)) < |fs.blocks|
    requires j < |fs.inodes| && k < MAXFILE * BSIZE
    requires SlotVal(fs, DataSlot(j, k / BSIZE)) != 0
    ensures ByteAt(PutBlock(fs, SlotVal(fs, DataSlot(inum, bn)), blk), j, k)
            == if j == inum && k / BSIZE == bn then blk[k % BSIZE] else ByteAt(fs, j, k)
  {
    var x, y := DataSlot(inum, bn), DataSlot(j, k / BSIZE);
    SlotPutBlock(L, fs, owner, inum, bn, blk, y);
    assert owner[SlotVal(fs, x)] == x && owner[SlotVal(fs, y)] == y;
  }

  // ---------------------------------------------------------------- which disk blocks a change touches

  /** Block k is the same, or in `log`. */
  predicate BlockTraced(a: Fs, b: Fs, log: set<nat>, k: nat)
    requires |b.blocks| == |a.blocks| && k < |a.blocks|
  {
    b.blocks[k] == a.blocks[k] || k in log
  }

  predicate ByteTraced(L: Layout, a: Fs, b: Fs, log: set<nat>, j: nat)
    requires |b.bitmap| == |a.bitmap| && j < |a.bitmap|
  {
    b.bitmap[j] == a.bitmap[j] || L.ByteBlock(j) in log
  }

  /** From a to b only inode inum has changed, and every data or bitmap block that has is in `log`. */
  ghost predicate Traced(L: Layout, a: Fs, b: Fs, inum: nat, log: set<nat>) {
    && |b.inodes| == |a.inodes| && inum < |a.inodes| && b.inodes == a.inodes[inum := b.inodes[inum]]
    && |b.blocks| == |a.blocks| && |b.bitmap| == |a.bitmap|
    && (forall k: nat {:trigger BlockTraced(a, b, log, k)} :: k < |a.blocks| ==> BlockTraced(a, b, log, k))
    && (forall j: nat {:trigger ByteTraced(L, a, b, log, j)} :: j < |a.bitmap| ==> ByteTraced(L, a, b, log, j))
  }

  lemma TracedRefl(L: Layout, a: Fs, inum: nat, log: set<nat>)
    requires inum < |a.inodes|
    ensures Traced(L, a, a, inum, log)
  {
  }

  lemma TracedTrans(L: Layout, a: Fs, b: Fs, c: Fs, inum: nat, log: set<nat>, log': set<nat>)
    requires Traced(L, a, b, inum, log) && Traced(L, b, c, inum, log') && log <= log'
    ensures Traced(L, a, c, inum, log')
  {
    forall k: nat | k < |a.blocks| ensures BlockTraced(a, c, log', k) {
      assert BlockTraced(a, b, log, k) && BlockTraced(b, c, log', k);
    }
    forall j: nat | j < |a.bitmap| ensures ByteTraced(L, a, c, log', j) {
      assert ByteTraced(L, a, b, log, j) && ByteTraced(L, b, c, log', j);
    }
  }

  lemma TracedMore(L: Layout, a: Fs, b: Fs, inum: nat, log: set<nat>, log': set<nat>)
    requires Traced(L, a, b, inum, log) && log <= log'
    ensures Traced(L, a, b, inum, log')
  {
    TracedRefl(L, b, inum, log');
    TracedTrans(L, a, b, b, inum, log, log');
  }

  lemma BitsByte(b: nat)
    ensures b / 8 / BSIZE == b / BPB
  {
  }

  lemma LinkTraced(L: Layout, fs: Fs, x: Slot, b: nat, log: set<nat>)
    requires IsSlot(fs, x) && b / 8 < |fs.bitmap| && b < |fs.blocks| && b < UINT
    requires x.k > NDIRECT ==> fs.inodes[x.inum].addrs[NDIRECT] < |fs.blocks| && fs.inodes[x.inum].addrs[NDIRECT] in log
    requires b in log && b / BPB + L.bmapstart in log
    ensures Traced(L, fs, Link(fs, x, b), x.inum, log)
  {
    BitsByte(b);
  }

  lemma PutBlockTraced(L: Layout, fs: Fs, b: nat, blk: Blk, inum: nat, log: set<nat>)
    requires b < |fs.blocks| && b in log && inum < |fs.inodes|
    ensures Traced(L, fs, PutBlock(fs, b, blk), inum, log)
  {
  }

  // ---------------------------------------------------------------- whole calls

  predicate InodeTraced(L: Layout, a: Fs, b: Fs, log: set<nat>, i: nat)
    requires |b.inodes| == |a.inodes| && i < |a.inodes|
  {
    b.inodes[i] == a.inodes[i] || L.InodeBlock(i) in log
  }

  /** Every disk block that holds something different in b than in a is in `log`. */
  ghost predicate AgreesOutside(L: Layout, a: Fs, b: Fs, log: set<nat>) {
    && |b.inodes| == |a.inodes| && |b.blocks| == |a.blocks| && |b.bitmap| == |a.bitmap|
    && (forall k: nat {:trigger BlockTraced(a, b, log, k)} :: k < |a.blocks| ==> BlockTraced(a, b, log, k))
    && (forall j: nat {:trigger ByteTraced(L, a, b, log, j)} :: j < |a.bitmap| ==> ByteTraced(L, a, b, log, j))
    && (forall i: nat {:trigger InodeTraced(L, a, b, log, i)} :: i < |a.inodes| ==> InodeTraced(L, a, b, log, i))
  }

  ghost predicate Sane(L: Layout, a: Fs) {
    exists owner :: Consistent(L, a, owner)
  }

  /** What every call promises the log: from a consistent file system to a consistent one, with
      each block it changes among those it logs. */
  ghost predicate FileCall(L: Layout, a: Fs, b: Fs, log: set<nat>) {
    Sane(L, a) && Sane(L, b) && AgreesOutside(L, a, b, log)
  }

  lemma TracedIsCall(L: Layout, a: Fs, own: map<nat, Slot>, b: Fs, own': map<nat, Slot>, inum: nat, log: set<nat>)
    requires Consistent(L, a, own) && Consistent(L, b, own') && Traced(L, a, b, inum, log)
    requires b != a ==> L.InodeBlock(inum) in log
    ensures FileCall(L, a, b, log)
  {
    forall i: nat | i < |a.inodes| ensures InodeTraced(L, a, b, log, i) {
    }
  }
}
