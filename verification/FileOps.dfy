// The fs.c operations, updating the file system in place, against FsState and FileBlocks.

module FileOps {
  import opened FsBlocks
  import opened FsState
  import opened FileBlocks
  import opened Truncate

  /** Blocks that hold a byte of [off, off + n). */
  function Touched(off: nat, n: nat): (t: nat)
  {
    if n == 0 then 0 else (off + n - 1) / BSIZE - off / BSIZE + 1
  }

  /** Distinct blocks writei may log: inode, indirect block and its bitmap block, and for each
      block touched itself and its bitmap block, except that an unaligned first block exists. */
  function WriteBudget(off: nat, n: nat): (r: int)
  {
    3 + 2 * Touched(off, n) - if n > 0 && off % BSIZE != 0 then 1 else 0
  }

  lemma BitIndex(b: nat, bi: nat)
    requires b % BPB == 0
    ensures b / 8 + bi / 8 == (b + bi) / 8 && bi % 8 == (b + bi) % 8
  {
    var q := b / BPB;
    assert b == 8 * (1024 * q);
  }

  lemma BitIndexDown(b: nat)
    ensures b / BPB * BSIZE + b % BPB / 8 == b / 8 && b % BPB % 8 == b % 8
  {
    var q, r := b / BPB, b % BPB;
    assert b == 8 * (1024 * q) + r;
  }

  /** How far the copy loops of readi and writei go in one turn. */
  function ChunkLen(o: nat, left: nat): (m: nat)
    requires left > 0
    ensures 0 < m <= left && o % BSIZE + m <= BSIZE
  {
    if left < BSIZE - o % BSIZE then left else BSIZE - o % BSIZE
  }

  /** The i-th turn works inside block off/BSIZE + i; after the last, i is the blocks touched. */
  ghost predicate Progress(off: nat, n: nat, tot: nat, i: nat) {
    && tot <= n
    && (tot < n ==>
        (off + tot) / BSIZE == off / BSIZE + i && (i > 0 ==> (off + tot) % BSIZE == 0) && i < Touched(off, n))
    && (tot == n ==> i == Touched(off, n))
    && (tot == 0 <==> i == 0)
  }

  /** Bytes in the first i chunks, none of them the last. */
  function BytesIn(off: nat, i: nat): (r: int) {
    if i == 0 then 0 else i * BSIZE - off % BSIZE
  }

  lemma ProgressBytes(off: nat, n: nat, tot: nat, i: nat)
    requires Progress(off, n, tot, i) && tot < n
    ensures tot == BytesIn(off, i)
  {
    if i > 0 {
      assert off + tot == BSIZE * ((off + tot) / BSIZE) && off == BSIZE * (off / BSIZE) + off % BSIZE;
    }
  }

  lemma ProgressStep(off: nat, n: nat, tot: nat, i: nat)
    requires Progress(off, n, tot, i) && tot < n
    ensures Progress(off, n, tot + ChunkLen(off + tot, n - tot), i + 1)
  {
    var o, m := off + tot, ChunkLen(off + tot, n - tot);
    if tot + m < n {
      assert m == BSIZE - o % BSIZE;
      assert o + m == BSIZE * (o / BSIZE + 1);
      assert (o + m) / BSIZE == o / BSIZE + 1;
      assert (off + n - 1) / BSIZE >= (o + m) / BSIZE;
    } else {
      assert (o + m - 1) / BSIZE == o / BSIZE;
    }
  }

  lemma ChunkBytes(fs: Fs, inum: nat, o: nat, m: nat)
    requires inum < |fs.inodes| && o + m <= fs.inodes[inum].size <= MAXFILE * BSIZE && o % BSIZE + m <= BSIZE && m > 0
    requires SlotVal(fs, DataSlot(inum, o / BSIZE)) < |fs.blocks|
    ensures fs.blocks[SlotVal(fs, DataSlot(inum, o / BSIZE))][o % BSIZE..o % BSIZE + m] == Contents(fs, inum)[o..o + m]
  {
    var b := fs.blocks[SlotVal(fs, DataSlot(inum, o / BSIZE))][o % BSIZE..o % BSIZE + m];
    forall k | 0 <= k < m ensures b[k] == Contents(fs, inum)[o..o + m][k] {
      assert (o + k) / BSIZE == o / BSIZE && (o + k) % BSIZE == o % BSIZE + k;
    }
  }

  /** Bitmap blocks logged after i turns: one each, but none for an unaligned first block. */
  ghost function BitmapsAfter(off: nat, n: nat, i: nat): int {
    if i == 0 then 0 else i - if n > 0 && off % BSIZE != 0 then 1 else 0
  }

  lemma BudgetStep(off: nat, n: nat, tot: nat, i: nat)
    requires Progress(off, n, tot, i) && tot < n
    ensures i + 1 + BitmapsAfter(off, n, i + 1) <= WriteBudget(off, n) - 3
    ensures i < Touched(off, n)
    ensures BitmapsAfter(off, n, i + 1) == BitmapsAfter(off, n, i) + if i == 0 && off % BSIZE != 0 then 0 else 1
    ensures i == 0 ==> tot == 0
  {
  }

  lemma SliceStep(c: seq<Byte>, off: nat, tot: nat, m: nat)
    requires off + tot + m <= |c|
    ensures c[off..off + tot] + c[off + tot..off + tot + m] == c[off..off + (tot + m)]
  {
  }

  lemma PrefixStep(src: seq<Byte>, tot: nat, m: nat)
    requires tot + m <= |src|
    ensures src[..tot] + src[tot..tot + m] == src[..tot + m]
  {
  }

  lemma CardUnion(a: set<nat>, b: set<nat>)
    ensures |a + b| <= |a| + |b|
  {
    assert |a + b| == |a| + |b| - |a * b|;
  }

  lemma CardSub(a: set<nat>, b: set<nat>)
    requires a <= b
    ensures |a| <= |b|
  {
    assert b == a + (b - a) && a !! b - a;
  }

  ghost predicate LogsAtMost(before: set<nat>, after: set<nat>, ind: set<nat>, ds: set<nat>, bs: set<nat>) {
    after <= before + ind + ds + bs
  }

  lemma LogsTrans(a: set<nat>, b: set<nat>, c: set<nat>, ind0: set<nat>, ind: set<nat>, ds: set<nat>, bs: set<nat>,
      d: set<nat>, e: set<nat>)
    requires LogsAtMost(a, b, ind0, ds, bs) && LogsAtMost(b, c, ind, d, e) && ind0 <= ind && |d| <= 1 && |e| <= 1
    ensures LogsAtMost(a, c, ind, ds + d, bs + e)
    ensures |ds + d| <= |ds| + 1 && |bs + e| <= |bs| + |e|
  {
    CardUnion(ds, d);
    CardUnion(bs, e);
  }

  lemma LogsData(a: set<nat>, b: set<nat>, ind: set<nat>, ds: set<nat>, bs: set<nat>, addr: nat)
    requires LogsAtMost(a, b, ind, ds, bs) && addr in ds
    ensures LogsAtMost(a, b + {addr}, ind, ds, bs)
  {
  }

  lemma LoggedBound(before: set<nat>, after: set<nat>, ind: set<nat>, ds: set<nat>, bs: set<nat>, ib: nat)
    requires exists mid :: LogsAtMost(before, mid, ind, ds, bs) && after == mid + {ib}
    ensures |after - before| <= |ind| + |ds| + |bs| + 1
  {
    CardSub(after - before, ind + ds + bs + {ib});
    CardUnion(ind, ds);
    CardUnion(ind + ds, bs);
    CardUnion(ind + ds + bs, {ib});
  }

  lemma FreshCanLink(L: Layout, fs: Fs, own: map<nat, Slot>, x: Slot, addr: nat)
    requires SoundFs(L, fs, own) && IsSlot(fs, x) && SlotVal(fs, x) == 0
    requires addr < L.nblocks && !Bit(fs.bitmap, addr)
    requires x.k > NDIRECT ==> fs.inodes[x.inum].addrs[NDIRECT] != 0
    ensures CanLink(L, fs, own, x, addr)
  {
  }

  /** Blocks logged by an allocation for slot x: the block, its bitmap block, the block x is in. */
  ghost function AllocLog(L: Layout, fs: Fs, x: Slot, addr: nat): (log: set<nat>)
    requires IsSlot(fs, x)
  {
    {addr, addr / BPB + L.bmapstart} + if x.k > NDIRECT then {fs.inodes[x.inum].addrs[NDIRECT]} else {}
  }

  lemma AllocLink(L: Layout, fs: Fs, own: map<nat, Slot>, x: Slot, addr: nat)
    requires CanLink(L, fs, own, x, addr)
    requires x.k > NDIRECT ==> fs.inodes[x.inum].addrs[NDIRECT] < |fs.blocks|
    ensures var r := Link(fs, x, addr);
            && SoundFs(L, r, own[addr := x])
            && Extends(fs, r)
            && Traced(L, fs, r, x.inum, AllocLog(L, fs, x, addr))
            && forall y :: IsSlot(r, y) ==> SlotVal(r, y) == if y == x then addr else SlotVal(fs, y)
  {
    var r := Link(fs, x, addr);
    LinkTraced(L, fs, x, addr, AllocLog(L, fs, x, addr));
    LinkKeepsOwned(L, fs, own, x, addr);
    LinkExtends(L, fs, own, x, addr);
    forall y | IsSlot(r, y) ensures SlotVal(r, y) == if y == x then addr else SlotVal(fs, y) {
      SlotLink(L, fs, own, x, addr, y);
    }
  }

  /** bfree's place of block b: its byte, counted over all bitmap blocks, and its mask. */
  method LocateBit(b: nat) returns (at: nat, m: bv8)
    ensures at == b / 8 && m == Mask(b % 8)
  {
    var bi := b % BPB;
    BitIndexDown(b);
    at := b / BPB * BSIZE + bi / 8;
    m := Mask(bi % 8);
  }

  /** bfree on the bitmap alone. */
  method ClearIfSet(bits: seq<bv8>, b: nat) returns (ok: bool, r: seq<bv8>)
    requires b / 8 < |bits|
    ensures ok == Bit(bits, b) && r == if ok then ClearBit(bits, b) else bits
  {
    var at, m := LocateBit(b);
    ok := bits[at] & m != 0;
    r := if ok then bits[at := bits[at] & !m] else bits;
  }

  class FileSystem {
    const L: Layout
    var bitmap: seq<bv8>
    var blocks: seq<Blk>
    var inodes: seq<Inode>  // in-memory copies
    var dinodes: seq<Inode> // on-disk copies
    ghost var owner: map<nat, Slot>
    ghost var logged: set<nat> // blocks passed to log_write

    ghost function State(): Fs
      reads this
    {
      Fs(bitmap, blocks, inodes)
    }

    /** Block ownership, without the claim that files are fully mapped. */
    ghost predicate Sound()
      reads this
    {
      SoundFs(L, State(), owner) && |dinodes| == |inodes|
    }

    /** Between calls: every block owned, every file mapped, every inode written back. */
    ghost predicate Valid()
      reads this
    {
      Consistent(L, State(), owner) && dinodes == inodes
    }

    function BBlock(b: nat): nat { b / BPB + L.bmapstart }

    function IBlock(inum: nat): nat { L.InodeBlock(inum) }

    ghost predicate Full(m: seq<bv8>)
      requires L.nblocks <= 8 * |m|
    {
      forall k: nat :: k < L.nblocks ==> Bit(m, k)
    }

    method Bzero(b: nat)
      requires b < |blocks|
      modifies this`blocks, this`logged
      ensures blocks == old(blocks)[b := Zero()] && logged == old(logged) + {b}
    {
      blocks := blocks[b := Zero()];
      logged := logged + {b};
    }

    /** The inner loop of balloc: the first free bit of the bitmap block that covers b. */
    method ScanBitmapBlock(b: nat) returns (bi: nat, found: bool)
      requires b % BPB == 0 && b < L.nblocks <= 8 * |bitmap|
      ensures bi <= BPB && b + bi <= L.nblocks
      ensures forall k: nat :: b <= k < b + bi ==> Bit(bitmap, k)
      ensures found ==> bi < BPB && b + bi < L.nblocks && !Bit(bitmap, b + bi)
      ensures !found ==> bi == BPB || b + bi == L.nblocks
    {
      bi := 0;
      while bi < BPB && b + bi < L.nblocks
        invariant bi <= BPB && b + bi <= L.nblocks
        invariant forall k: nat :: b <= k < b + bi ==> Bit(bitmap, k)
      {
        BitIndex(b, bi);
        if bitmap[b / 8 + bi / 8] & Mask(bi % 8) == 0 {
          return bi, true;
        }
        assert Bit(bitmap, b + bi);
        bi := bi + 1;
      }
      found := false;
    }

    /** Takes the lowest free block; 0 exactly when none is free (block 0 is never free). */
    method Balloc() returns (r: nat)
      requires |blocks| == L.nblocks <= 8 * |bitmap|
      modifies this`bitmap, this`blocks, this`logged
      ensures Full(old(bitmap)) ==> r == 0 && bitmap == old(bitmap) && blocks == old(blocks) && logged == old(logged)
      ensures !Full(old(bitmap)) ==>
                && r < L.nblocks && !Bit(old(bitmap), r)
                && (forall k: nat :: k < r ==> Bit(old(bitmap), k))
                && bitmap == SetBit(old(bitmap), r)
                && blocks == old(blocks)[r := Zero()]
                && logged == old(logged) + {BBlock(r), r}
    {
      var b := 0;
      while b < L.nblocks
        invariant b % BPB == 0
        invariant bitmap == old(bitmap) && blocks == old(blocks) && logged == old(logged)
        invariant forall k: nat :: k < b && k < L.nblocks ==> Bit(bitmap, k)
      {
        var bi, found := ScanBitmapBlock(b);
        if found {
          BitIndex(b, bi);
          bitmap := bitmap[b / 8 + bi / 8 := bitmap[b / 8 + bi / 8] | Mask(bi % 8)];
          logged := logged + {BBlock(b + bi)};
          Bzero(b + bi);
          return b + bi;
        }
        b := b + BPB;
      }
      assert Full(bitmap);
      r := 0;
    }

    /** Not ok is the panic "freeing free block". */
    method Bfree(b: nat) returns (ok: bool)
      requires b / 8 < |bitmap|
      modifies this`bitmap, this`logged
      ensures ok == Bit(old(bitmap), b)
      ensures !ok ==> bitmap == old(bitmap) && logged == old(logged)
      ensures ok ==> bitmap == ClearBit(old(bitmap), b) && logged == old(logged) + {BBlock(b)}
    {
      var bits;
      ok, bits := ClearIfSet(bitmap, b);
      if ok {
        bitmap := bits;
        logged := logged + {BBlock(b)};
      }
    }

    method Iupdate(inum: nat)
      requires inum < |inodes| == |dinodes|
      modifies this`dinodes, this`logged
      ensures dinodes == old(dinodes)[inum := inodes[inum]] && logged == old(logged) + {IBlock(inum)}
    {
      dinodes := dinodes[inum := inodes[inum]];
      logged := logged + {IBlock(inum)};
    }

    /** balloc, then storing the number at slot k of the inode or its indirect block. */
    method AllocSlot(inum: nat, k: nat) returns (addr: nat)
      requires Sound() && inum < |inodes| && k < SLOTS && SlotVal(State(), Slot(inum, k)) == 0
      requires k > NDIRECT ==> 0 < inodes[inum].addrs[NDIRECT] < |blocks|
      modifies this`bitmap, this`blocks, this`inodes, this`owner, this`logged
      ensures addr == 0 <==> Full(old(bitmap))
      ensures addr == 0 ==> State() == old(State()) && owner == old(owner) && logged == old(logged)
      ensures addr != 0 ==>
                && CanLink(L, old(State()), old(owner), Slot(inum, k), addr)
                && State() == Link(old(State()), Slot(inum, k), addr)
                && owner == old(owner)[addr := Slot(inum, k)]
                && logged == old(logged) + AllocLog(L, old(State()), Slot(inum, k), addr)
    {
      ghost var fs, own, x := State(), owner, Slot(inum, k);
      assert Bit(bitmap, 0);
      addr := Balloc();
      if addr == 0 {
        return;
      }
      FreshCanLink(L, fs, own, x, addr);
      if k <= NDIRECT {
        inodes := inodes[inum := inodes[inum].(addrs := inodes[inum].addrs[k := addr])];
      } else {
        var at := inodes[inum].addrs[NDIRECT];
        blocks := blocks[at := PutWord(blocks[at], k - NDIRECT - 1, addr)];
        logged := logged + {at};
      }
      owner := owner[addr := x];
      assert State() == Link(fs, x, addr);
    }

    /** The indirect block, if any, and its bitmap block. */
    ghost function IndirectSet(ind: nat): (s: set<nat>) {
      if ind == 0 then {} else {ind, BBlock(ind)}
    }

    ghost function DataSet(addr: nat): (s: set<nat>)
      ensures |s| <= 1
    {
      if addr == 0 then {} else {addr}
    }

    ghost function BitmapSet(addr: nat): (s: set<nat>)
      ensures |s| <= 1
    {
      if addr == 0 then {} else {BBlock(addr)}
    }

    lemma SlotInRange(x: Slot)
      requires Sound() && IsSlot(State(), x) && SlotVal(State(), x) != 0
      ensures L.datastart <= SlotVal(State(), x) < L.nblocks
    {
      assert SlotVal(State(), x) in owner;
    }

    method LoadIndirect(inum: nat) returns (ind: nat)
      requires Sound() && inum < |inodes|
      modifies this`bitmap, this`blocks, this`inodes, this`owner, this`logged
      ensures Sound() && Extends(old(State()), State())
      ensures ind == inodes[inum].addrs[NDIRECT] < L.nblocks
      ensures forall y :: IsSlot(State(), y) && y != Slot(inum, NDIRECT) ==>
              SlotVal(State(), y) == SlotVal(old(State()), y)
      ensures ind == 0 ==> Full(bitmap)
      ensures old(inodes[inum].addrs[NDIRECT]) != 0 ==>
              State() == old(State()) && owner == old(owner) && logged == old(logged)
      ensures logged <= old(logged) + IndirectSet(inodes[inum].addrs[NDIRECT])
      ensures old(logged) <= logged && Traced(L, old(State()), State(), inum, logged)
    {
      TracedRefl(L, State(), inum, logged);
      ind := inodes[inum].addrs[NDIRECT];
      assert ind == SlotVal(State(), Slot(inum, NDIRECT));
      if ind == 0 {
        ghost var fs, own := State(), owner;
        ind := AllocSlot(inum, NDIRECT);
        if ind != 0 {
          AllocLink(L, fs, own, Slot(inum, NDIRECT), ind);
          TracedMore(L, fs, State(), inum, AllocLog(L, fs, Slot(inum, NDIRECT), ind), logged);
        } else {
          assert Extends(fs, fs);
        }
      } else {
        IndirectOwned(L, State(), owner, inum);
        assert Extends(State(), State());
      }
    }

    method BmapDirect(inum: nat, bn: nat) returns (addr: nat)
      requires Sound() && inum < |inodes| && bn < NDIRECT
      modifies this`bitmap, this`blocks, this`inodes, this`owner, this`logged
      ensures Sound() && Extends(old(State()), State())
      ensures addr == SlotVal(State(), Slot(inum, bn))
      ensures addr == 0 ==> Full(bitmap)
      ensures old(SlotVal(State(), Slot(inum, bn))) != 0 ==>
              State() == old(State()) && logged == old(logged) && owner == old(owner)
      ensures LogsAtMost(old(logged), logged, {}, DataSet(addr), BitmapSet(addr))
      ensures old(logged) <= logged && Traced(L, old(State()), State(), inum, logged)
    {
      ghost var fs, own := State(), owner;
      ExtendsRefl(fs);
      TracedRefl(L, fs, inum, logged);
      addr := inodes[inum].addrs[bn];
      if addr == 0 {
        addr := AllocSlot(inum, bn);
        if addr != 0 {
          AllocLink(L, fs, own, Slot(inum, bn), addr);
          TracedMore(L, fs, State(), inum, AllocLog(L, fs, Slot(inum, bn), addr), logged);
        }
      }
    }

    /** bmap once the indirect block is there: its entry for bn, allocated if absent. */
    method BmapEntry(inum: nat, bn: nat, ind: nat) returns (addr: nat)
      requires Sound() && inum < |inodes| && NDIRECT <= bn < MAXFILE
      requires 0 < ind == inodes[inum].addrs[NDIRECT] < |blocks|
      modifies this`bitmap, this`blocks, this`inodes, this`owner, this`logged
      ensures Sound() && Extends(old(State()), State())
      ensures inodes == old(inodes) && addr == SlotVal(State(), Slot(inum, bn + 1))
      ensures addr == 0 ==> Full(bitmap)
      ensures old(SlotVal(State(), Slot(inum, bn + 1))) != 0 ==>
              State() == old(State()) && logged == old(logged) && owner == old(owner)
      ensures LogsAtMost(old(logged), logged, {ind}, DataSet(addr), BitmapSet(addr))
      ensures old(logged) <= logged && Traced(L, old(State()), State(), inum, logged)
    {
      ghost var fs, own, x := State(), owner, Slot(inum, bn + 1);
      ExtendsRefl(fs);
      TracedRefl(L, fs, inum, logged);
      addr := Word(blocks[ind], bn - NDIRECT);
      assert addr == SlotVal(fs, x);
      if addr == 0 {
        addr := AllocSlot(inum, bn + 1);
        if addr != 0 {
          AllocLink(L, fs, own, x, addr);
          TracedMore(L, fs, State(), inum, AllocLog(L, fs, x, addr), logged);
        }
      }
    }

    method BmapIndirect(inum: nat, bn: nat) returns (addr: nat)
      requires Sound() && inum < |inodes| && NDIRECT <= bn < MAXFILE
      modifies this`bitmap, this`blocks, this`inodes, this`owner, this`logged
      ensures Sound() && Extends(old(State()), State())
      ensures addr == SlotVal(State(), Slot(inum, bn + 1))
      ensures addr == 0 ==> Full(bitmap)
      ensures old(SlotVal(State(), Slot(inum, bn + 1))) != 0 ==>
              State() == old(State()) && logged == old(logged) && owner == old(owner)
      ensures LogsAtMost(old(logged), logged, IndirectSet(inodes[inum].addrs[NDIRECT]), DataSet(addr), BitmapSet(addr))
      ensures old(logged) <= logged && Traced(L, old(State()), State(), inum, logged)
    {
      ghost var fs := State();
      var ind := LoadIndirect(inum);
      if ind == 0 {
        return 0;
      }
      ghost var mid, log1 := State(), logged;
      assert SlotVal(mid, Slot(inum, bn + 1)) == SlotVal(fs, Slot(inum, bn + 1));
      addr := BmapEntry(inum, bn, ind);
      ExtendsTrans(fs, mid, State());
      TracedTrans(L, fs, mid, State(), inum, log1, logged);
    }

    /** The number of file block bn, allocated if absent; 0 only when the disk is full. */
    method Bmap(inum: nat, bn: nat) returns (addr: nat)
      requires Sound() && inum < |inodes| && bn < MAXFILE
      modifies this`bitmap, this`blocks, this`inodes, this`owner, this`logged
      ensures Sound() && Extends(old(State()), State())
      ensures addr == SlotVal(State(), DataSlot(inum, bn))
      ensures addr != 0 ==> L.datastart <= addr < L.nblocks
      ensures addr == 0 ==> Full(bitmap)
      ensures old(SlotVal(State(), DataSlot(inum, bn))) != 0 ==>
              State() == old(State()) && logged == old(logged) && owner == old(owner)
      ensures LogsAtMost(old(logged), logged, IndirectSet(inodes[inum].addrs[NDIRECT]), DataSet(addr), BitmapSet(addr))
      ensures old(logged) <= logged && Traced(L, old(State()), State(), inum, logged)
    {
      if bn < NDIRECT {
        addr := BmapDirect(inum, bn);
      } else {
        addr := BmapIndirect(inum, bn);
      }
      if addr != 0 {
        SlotInRange(DataSlot(inum, bn));
      }
    }

    ghost function Bytes(inum: nat): (c: seq<Byte>)
      requires Valid() && inum < |inodes|
      reads this
    {
      Contents(State(), inum)
    }

    lemma MappedByte(inum: nat, off: nat)
      requires Valid() && inum < |inodes| && off < inodes[inum].size
      ensures off / BSIZE < MAXFILE && SlotVal(State(), DataSlot(inum, off / BSIZE)) != 0
    {
      assert inodes[inum].size <= MAXFILE * BSIZE;
      assert off / BSIZE * BSIZE <= off;
      assert Mapped(State(), inum);
    }

    /** One turn of readi: bmap, bread, and the bytes to copy out. */
    method ReadChunk(inum: nat, o: nat, m: nat) returns (chunk: seq<Byte>)
      requires Valid() && inum < |inodes| && 0 < m && o + m <= inodes[inum].size && o % BSIZE + m <= BSIZE
      modifies this`bitmap, this`blocks, this`inodes, this`owner, this`logged
      ensures State() == old(State()) && owner == old(owner) && logged == old(logged)
      ensures chunk == old(Bytes(inum))[o..o + m]
    {
      MappedByte(inum, o);
      var addr := Bmap(inum, o / BSIZE);
      ChunkBytes(State(), inum, o, m);
      chunk := blocks[addr][o % BSIZE..o % BSIZE + m];
    }

    /** readi's loop; not ok when a copy fails. */
    method ReadLoop(inum: nat, off: nat, m: nat, copies: nat) returns (ok: bool, dst: seq<Byte>)
      requires Valid() && inum < |inodes| && off + m <= inodes[inum].size
      modifies this`bitmap, this`blocks, this`inodes, this`owner, this`logged
      ensures State() == old(State()) && owner == old(owner) && logged == old(logged)
      ensures ok <==> copies >= Touched(off, m)
      ensures ok ==> dst == old(Bytes(inum))[off..off + m]
      ensures !ok ==> 0 <= BytesIn(off, copies) <= m && dst == old(Bytes(inum))[off..off + BytesIn(off, copies)]
    {
      dst := [];
      ghost var c := Bytes(inum);
      var tot, i := 0, 0;
      while tot < m
        invariant State() == old(State()) && owner == old(owner) && logged == old(logged)
        invariant 0 <= tot <= m && dst == c[off..off + tot]
        invariant i <= copies && Progress(off, m, tot, i)
      {
        var step := ChunkLen(off + tot, m - tot);
        SliceStep(c, off, tot, step);
        ProgressStep(off, m, tot, i);
        ProgressBytes(off, m, tot, i);
        var chunk := ReadChunk(inum, off + tot, step);
        if i == copies {
          return false, dst;
        }
        dst, tot, i := dst + chunk, tot + step, i + 1;
      }
      return true, dst;
    }

    /** readi of n bytes at off.  The copy out of the first `copies` chunks succeeds; when a copy
        fails, dst is what had been copied out by then. */
    method Readi(inum: nat, off: nat, n: nat, copies: nat) returns (tot: int, dst: seq<Byte>)
      requires Valid() && inum < |inodes| && off < UINT && n < UINT
      modifies this`bitmap, this`blocks, this`inodes, this`owner, this`logged
      ensures State() == old(State()) && owner == old(owner) && logged == old(logged)
      ensures off > inodes[inum].size || off + n >= UINT ==> tot == 0 && dst == []
      ensures off <= inodes[inum].size && off + n < UINT ==>
                var m := if off + n > inodes[inum].size then inodes[inum].size - off else n;
                && (copies >= Touched(off, m) ==> tot == m && dst == Bytes(inum)[off..off + m])
                && (copies < Touched(off, m) ==> tot == -1 && 0 <= BytesIn(off, copies) <= m
                                                 && dst == Bytes(inum)[off..off + BytesIn(off, copies)])
    {
      var size := inodes[inum].size;
      if off > size || off + n >= UINT {
        return 0, [];
      }
      var m := if off + n > size then size - off else n;
      var ok;
      ok, dst := ReadLoop(inum, off, m, copies);
      tot := if ok then m else -1;
    }

    /** The copy into a mapped block, and log_write. */
    method PutData(inum: nat, o: nat, c: seq<Byte>, addr: nat)
      requires Sound() && inum < |inodes| && o % BSIZE + |c| <= BSIZE && o / BSIZE < MAXFILE
      requires 0 < addr == SlotVal(State(), DataSlot(inum, o / BSIZE)) < |blocks|
      modifies this`blocks, this`logged
      ensures Sound() && State() == PutChunk(old(State()), inum, o, c) && logged == old(logged) + {addr}
      ensures Traced(L, old(State()), State(), inum, logged)
    {
      ghost var fs := State();
      var blk := Splice(blocks[addr], o % BSIZE, c);
      PutBlockKeepsOwned(L, fs, owner, inum, o / BSIZE, blk);
      blocks := blocks[addr := blk];
      logged := logged + {addr};
      PutBlockTraced(L, fs, addr, blk, inum, logged);
      assert State() == PutChunk(fs, inum, o, c);
    }

    /** One turn of writei: bmap, and when it and the copy-in succeed, the block and log_write. */
    method WriteChunk(inum: nat, o: nat, c: seq<Byte>, copied: bool) returns (addr: nat, ghost mid: Fs)
      requires Sound() && inum < |inodes| && 0 < |c| && o % BSIZE + |c| <= BSIZE && o / BSIZE < MAXFILE
      modifies this`bitmap, this`blocks, this`inodes, this`owner, this`logged
      ensures Sound() && SoundFs(L, mid, owner) && Extends(old(State()), mid)
      ensures addr == SlotVal(mid, DataSlot(inum, o / BSIZE)) < |mid.blocks|
      ensures addr == 0 ==> Full(mid.bitmap)
      ensures State() == if addr != 0 && copied then PutChunk(mid, inum, o, c) else mid
      ensures LogsAtMost(old(logged), logged, IndirectSet(inodes[inum].addrs[NDIRECT]), DataSet(addr),
                         BitmapSet(if old(SlotVal(State(), DataSlot(inum, o / BSIZE))) != 0 then 0 else addr))
      ensures old(logged) <= logged && Traced(L, old(State()), State(), inum, logged)
    {
      ghost var fs, slot := State(), SlotVal(State(), DataSlot(inum, o / BSIZE));
      addr := Bmap(inum, o / BSIZE);
      mid := State();
      ghost var log1 := logged;
      if addr != 0 && copied {
        PutData(inum, o, c, addr);
        TracedTrans(L, fs, mid, State(), inum, log1, logged);
        ghost var bits := BitmapSet(if slot != 0 then 0 else addr);
        LogsData(old(logged), log1, IndirectSet(inodes[inum].addrs[NDIRECT]), DataSet(addr), bits, addr);
      }
    }

    /** The same turn, with what has been written and logged since the loop began at f0. */
    method WriteTurn(inum: nat, off: nat, c: seq<Byte>, copied: bool,
                     ghost f0: Fs, ghost base: nat, ghost s: seq<Byte>, ghost log0: set<nat>, ghost ds: set<nat>,
                       ghost bs: set<nat>)
      returns (addr: nat, ghost ds': set<nat>, ghost bs': set<nat>)
      requires Sound() && inum < |inodes| == |f0.inodes|
      requires 0 < |c| && off % BSIZE + |c| <= BSIZE && off + |c| <= MAXFILE * BSIZE && off == base + |s|
      requires Wrote(f0, State(), inum, base, s) && Traced(L, f0, State(), inum, logged)
      requires LogsAtMost(log0, logged, IndirectSet(inodes[inum].addrs[NDIRECT]), ds, bs)
      modifies this`bitmap, this`blocks, this`inodes, this`owner, this`logged
      ensures Sound() && |inodes| == |f0.inodes| && Traced(L, f0, State(), inum, logged)
      ensures addr != 0 && copied ==> Wrote(f0, State(), inum, base, s + c)
      ensures addr == 0 || !copied ==> Wrote(f0, State(), inum, base, s)
      ensures addr == 0 ==> Full(bitmap)
      ensures LogsAtMost(log0, logged, IndirectSet(inodes[inum].addrs[NDIRECT]), ds', bs')
      ensures |ds'| <= |ds| + 1
      ensures |bs'| <= |bs| + if old(SlotVal(State(), DataSlot(inum, off / BSIZE))) != 0 then 0 else 1
    {
      ghost var fs, before, slot := State(), logged, SlotVal(State(), DataSlot(inum, off / BSIZE));
      ghost var mid;
      addr, mid := WriteChunk(inum, off, c, copied);
      TracedTrans(L, f0, fs, State(), inum, before, logged);
      IndirectKept(fs, mid, inum);
      ghost var d, e := DataSet(addr), BitmapSet(if slot != 0 then 0 else addr);
      LogsTrans(log0, before, logged, IndirectSet(fs.inodes[inum].addrs[NDIRECT]),
        IndirectSet(inodes[inum].addrs[NDIRECT]), ds, bs, d, e);
      ds', bs' := ds + d, bs + e;
      WroteExtends(f0, fs, mid, inum, base, s);
      if addr != 0 && copied {
        WroteChunk(L, f0, mid, owner, inum, base, s, off, c);
        assert State() == PutChunk(mid, inum, off, c);
      }
    }

    /** What writei's loop keeps: s is written, ds and bs are the data and bitmap blocks logged. */
    ghost predicate Looping(f0: Fs, inum: nat, off: nat, n: nat, s: seq<Byte>, i: nat, log0: set<nat>, ds: set<nat>,
        bs: set<nat>)
      reads this
    {
      && Sound() && inum < |inodes| == |f0.inodes|
      && Progress(off, n, |s|, i)
      && (i == 0 ==> State() == f0)
      && Wrote(f0, State(), inum, off, s) && Traced(L, f0, State(), inum, logged)
      && |ds| <= i && |bs| <= BitmapsAfter(off, n, i)
      && LogsAtMost(log0, logged, IndirectSet(inodes[inum].addrs[NDIRECT]), ds, bs)
    }

    /** What the loop leaves, whether it ran to the end or stopped early. */
    ghost predicate Looped(f0: Fs, inum: nat, off: nat, n: nat, s: seq<Byte>, log0: set<nat>, ds: set<nat>,
        bs: set<nat>)
      reads this
    {
      && Sound() && inum < |inodes| == |f0.inodes|
      && Wrote(f0, State(), inum, off, s) && Traced(L, f0, State(), inum, logged)
      && |ds| + |bs| <= WriteBudget(off, n) - 3
      && LogsAtMost(log0, logged, IndirectSet(inodes[inum].addrs[NDIRECT]), ds, bs)
    }

    method LoopBody(inum: nat, off: nat, n: nat, i: nat, o: nat, c: seq<Byte>, copied: bool,
                    ghost f0: Fs, ghost s: seq<Byte>, ghost log0: set<nat>, ghost ds: set<nat>, ghost bs: set<nat>)
      returns (addr: nat, ghost ds': set<nat>, ghost bs': set<nat>)
      requires Looping(f0, inum, off, n, s, i, log0, ds, bs)
      requires off + n <= MAXFILE * BSIZE && o == off + |s| && |s| < n && |c| == ChunkLen(o, n - |s|)
      requires off % BSIZE != 0 ==> SlotVal(f0, DataSlot(inum, off / BSIZE)) != 0
      modifies this`bitmap, this`blocks, this`inodes, this`owner, this`logged
      ensures addr != 0 && copied ==> Looping(f0, inum, off, n, s + c, i + 1, log0, ds', bs')
      ensures addr == 0 || !copied ==> Looped(f0, inum, off, n, s, log0, ds', bs')
      ensures addr == 0 ==> Full(bitmap)
    {
      BudgetStep(off, n, |s|, i);
      ProgressStep(off, n, |s|, i);
      assert i == 0 ==> o == off;
      assert |s + c| == |s| + ChunkLen(o, n - |s|);
      addr, ds', bs' := WriteTurn(inum, o, c, copied, f0, off, s, log0, ds, bs);
    }

    lemma LoopStarts(inum: nat, off: nat, n: nat)
      requires Sound() && inum < |inodes|
      ensures Looping(State(), inum, off, n, [], 0, logged, {}, {})
    {
      TracedRefl(L, State(), inum, logged);
    }

    lemma LoopEnds(f0: Fs, inum: nat, off: nat, s: seq<Byte>, i: nat, log0: set<nat>, ds: set<nat>, bs: set<nat>)
      requires Looping(f0, inum, off, |s|, s, i, log0, ds, bs)
      ensures Looped(f0, inum, off, |s|, s, log0, ds, bs)
    {
    }

    /** One turn of writei's loop, on the source from tot on. */
    method WriteStep(inum: nat, off: nat, src: seq<Byte>, copies: nat, tot: nat, i: nat,
                     ghost f0: Fs, ghost log0: set<nat>, ghost ds: set<nat>, ghost bs: set<nat>)
      returns (stop: bool, more: nat, ghost ds': set<nat>, ghost bs': set<nat>)
      requires tot < |src| && i <= copies && Looping(f0, inum, off, |src|, src[..tot], i, log0, ds, bs)
      requires off + |src| <= MAXFILE * BSIZE && (off % BSIZE != 0 ==> SlotVal(f0, DataSlot(inum, off / BSIZE)) != 0)
      modifies this`bitmap, this`blocks, this`inodes, this`owner, this`logged
      ensures stop ==>
                && Looped(f0, inum, off, |src|, src[..tot], log0, ds', bs')
                && (Full(bitmap) || copies < Touched(off, |src|))
      ensures !stop ==>
                && tot < more <= |src| && i < copies
                && Looping(f0, inum, off, |src|, src[..more], i + 1, log0, ds', bs')
    {
      var m := ChunkLen(off + tot, |src| - tot);
      var addr;
      BudgetStep(off, |src|, tot, i);
      PrefixStep(src, tot, m);
      addr, ds', bs' := LoopBody(inum, off, |src|, i, off + tot, src[tot..tot + m], i < copies, f0, src[..tot], log0,
        ds, bs);
      stop, more := addr == 0 || i == copies, tot + m;
    }

    method WriteLoop(inum: nat, off: nat, src: seq<Byte>, copies: nat)
        returns (tot: nat, ghost ds: set<nat>, ghost bs: set<nat>)
      requires Sound() && inum < |inodes| && off + |src| <= MAXFILE * BSIZE
      requires off % BSIZE != 0 && |src| > 0 ==> SlotVal(State(), DataSlot(inum, off / BSIZE)) != 0
      modifies this`bitmap, this`blocks, this`inodes, this`owner, this`logged
      ensures tot <= |src| && Looped(old(State()), inum, off, |src|, src[..tot], old(logged), ds, bs)
      ensures tot < |src| ==> Full(bitmap) || copies < Touched(off, |src|)
    {
      ghost var f0 := State();
      LoopStarts(inum, off, |src|);
      ds, bs := {}, {};
      tot := 0;
      var i, stop := 0, false;
      assert src[..0] == [];
      while tot < |src|
        invariant tot <= |src| && i <= copies
        invariant Looping(f0, inum, off, |src|, src[..tot], i, old(logged), ds, bs)
      {
        var more;
        stop, more, ds, bs := WriteStep(inum, off, src, copies, tot, i, f0, old(logged), ds, bs);
        if stop {
          return;
        }
        tot, i := more, i + 1;
      }
      assert src[..tot] == src;
      LoopEnds(f0, inum, off, src, i, old(logged), ds, bs);
    }

    /** The end of writei: the size, and the inode written back. */
    method WriteFinish(inum: nat, off: nat, tot: nat, ghost n: nat, ghost s: seq<Byte>, ghost f0: Fs,
        ghost own0: map<nat, Slot>,
                       ghost log0: set<nat>, ghost ds: set<nat>, ghost bs: set<nat>)
      requires Consistent(L, f0, own0) && inum < |f0.inodes| && off <= f0.inodes[inum].size
      requires off + tot <= MAXFILE * BSIZE
      requires |s| == tot && Looped(f0, inum, off, n, s, log0, ds, bs) && dinodes == f0.inodes
      modifies this`inodes, this`dinodes, this`logged
      ensures Valid() && |inodes| == |f0.inodes| && bitmap == old(bitmap)
      ensures Bytes(inum) == Overwritten(Contents(f0, inum), off, s)
      ensures forall j: nat :: j < |inodes| && j != inum ==> Bytes(j) == Contents(f0, j)
      ensures inodes[inum].kind == f0.inodes[inum].kind && inodes[inum].nlink == f0.inodes[inum].nlink
      ensures |logged - log0| <= WriteBudget(off, n)
      ensures Traced(L, f0, State(), inum, logged) && IBlock(inum) in logged
    {
      ghost var fs, log1 := State(), logged;
      WroteContents(L, f0, own0, fs, owner, inum, off, s);
      assert inodes[inum].size == f0.inodes[inum].size;
      if off + tot > inodes[inum].size {
        inodes := inodes[inum := inodes[inum].(size := off + tot)];
      }
      assert State() == Resized(f0, fs, inum, off + tot);
      Iupdate(inum);
      SizeTraced(L, f0, fs, inum, inodes[inum].size, log1, logged);
      assert LogsAtMost(log0, log1, IndirectSet(inodes[inum].addrs[NDIRECT]), ds, bs);
      LoggedBound(log0, logged, IndirectSet(inodes[inum].addrs[NDIRECT]), ds, bs, IBlock(inum));
    }

    /** writei of src at off.  The copy in of the first `copies` chunks succeeds. */
    method Writei(inum: nat, off: nat, src: seq<Byte>, copies: nat) returns (tot: int)
      requires Valid() && inum < |inodes| && off < UINT && |src| < UINT
      modifies this`bitmap, this`blocks, this`inodes, this`dinodes, this`owner, this`logged
      ensures Valid() && |inodes| == |old(inodes)|
      ensures tot == -1 <==> off > old(inodes[inum].size) || off + |src| >= UINT || off + |src| > MAXFILE * BSIZE
      ensures tot == -1 ==> State() == old(State()) && logged == old(logged)
      ensures tot != -1 ==>
                && 0 <= tot <= |src|
                && Bytes(inum) == Overwritten(old(Bytes(inum)), off, src[..tot])
                && (forall j: nat :: j < |inodes| && j != inum ==> Bytes(j) == old(Bytes(j)))
                && inodes[inum].kind == old(inodes[inum].kind) && inodes[inum].nlink == old(inodes[inum].nlink)
                && (tot < |src| ==> Full(bitmap) || copies < Touched(off, |src|))
      ensures |logged - old(logged)| <= WriteBudget(off, |src|)
      ensures FileCall(L, old(State()), State(), logged)
    {
      ghost var f0, own0 := State(), owner;
      TracedRefl(L, f0, inum, logged);
      TracedIsCall(L, f0, own0, f0, own0, inum, logged);
      if off > inodes[inum].size || off + |src| >= UINT {
        return -1;
      }
      if off + |src| > MAXFILE * BSIZE {
        return -1;
      }
      ghost var ds, bs;
      FirstBlockExists(f0, own0, inum, off, |src|);
      tot, ds, bs := WriteLoop(inum, off, src, copies);
      WriteFinish(inum, off, tot, |src|, src[..tot], f0, own0, old(logged), ds, bs);
      TracedIsCall(L, f0, own0, State(), owner, inum, logged);
    }

    /** An unaligned write starts inside a block the file already has. */
    lemma FirstBlockExists(fs: Fs, own: map<nat, Slot>, inum: nat, off: nat, n: nat)
      requires Consistent(L, fs, own) && inum < |fs.inodes| && off <= fs.inodes[inum].size && off + n <= MAXFILE * BSIZE
      ensures off % BSIZE != 0 && n > 0 ==> SlotVal(fs, DataSlot(inum, off / BSIZE)) != 0
    {
      assert Mapped(fs, inum);
    }

    lemma IndirectKept(fs: Fs, mid: Fs, inum: nat)
      requires inum < |fs.inodes| && Extends(fs, mid)
      ensures IndirectSet(fs.inodes[inum].addrs[NDIRECT]) <= IndirectSet(mid.inodes[inum].addrs[NDIRECT])
    {
      assert IsSlot(fs, Slot(inum, NDIRECT));
      if fs.inodes[inum].addrs[NDIRECT] != 0 {
        assert SlotVal(mid, Slot(inum, NDIRECT)) == SlotVal(fs, Slot(inum, NDIRECT));
      }
    }

    /** Files other than inum, their blocks, and all data stay as they were at f0. */
    ghost predicate OnlyShrinks(f0: Fs, inum: nat)
      reads this
    {
      && |inodes| == |f0.inodes| && inum < |inodes| && blocks == f0.blocks
      && inodes == f0.inodes[inum := inodes[inum]]
      && inodes[inum] == f0.inodes[inum].(addrs := inodes[inum].addrs)
    }

    /** One direct block freed and its number cleared, or nothing to free. */
    method FreeDirectOne(inum: nat, i: nat, ghost own0: map<nat, Slot>) returns (ok: bool)
      requires Sound() && inum < |inodes| && i < NDIRECT && owner == Without(own0, inum, i)
      modifies this`bitmap, this`inodes, this`owner, this`logged
      ensures ok && Sound() && owner == Without(own0, inum, i + 1)
      ensures inodes == old(inodes)[inum := old(inodes)[inum].(addrs := old(inodes)[inum].addrs[i := 0])]
      ensures old(logged) <= logged && Traced(L, old(State()), State(), inum, logged)
    {
      ghost var fs := State();
      FreeDirect(L, fs, own0, inum, i);
      TracedRefl(L, fs, inum, logged);
      ok := true;
      var v := inodes[inum].addrs[i];
      if v != 0 {
        ok := Bfree(v);
        inodes := inodes[inum := inodes[inum].(addrs := inodes[inum].addrs[i := 0])];
        assert State() == WithAddr(FreeBit(fs, v), inum, i, 0);
        FreeBitTraced(L, fs, v, inum, logged);
        WithAddrTraced(L, FreeBit(fs, v), inum, i, 0, logged);
        TracedTrans(L, fs, FreeBit(fs, v), State(), inum, logged, logged);
      } else {
        assert inodes[inum].addrs[i := 0] == inodes[inum].addrs;
      }
      owner := Without(own0, inum, i + 1);
    }

    method FreeDirectBlocks(inum: nat) returns (ok: bool)
      requires Sound() && inum < |inodes|
      modifies this`bitmap, this`inodes, this`owner, this`logged
      ensures ok && Sound() && OnlyShrinks(old(State()), inum)
      ensures owner == Without(old(owner), inum, NDIRECT)
      ensures forall k :: 0 <= k < NDIRECT ==> inodes[inum].addrs[k] == 0
      ensures inodes[inum].addrs[NDIRECT] == old(inodes[inum].addrs[NDIRECT])
      ensures old(logged) <= logged && Traced(L, old(State()), State(), inum, logged)
    {
      ghost var f0, own0 := State(), owner;
      assert Without(own0, inum, 0) == own0;
      TracedRefl(L, f0, inum, logged);
      ok := true;
      var i := 0;
      while i < NDIRECT
        invariant 0 <= i <= NDIRECT && ok && Sound() && OnlyShrinks(f0, inum) && owner == Without(own0, inum, i)
        invariant forall k :: 0 <= k < i ==> inodes[inum].addrs[k] == 0
        invariant inodes[inum].addrs[NDIRECT] == f0.inodes[inum].addrs[NDIRECT]
        invariant old(logged) <= logged && Traced(L, f0, State(), inum, logged)
      {
        ghost var fs, log1 := State(), logged;
        ok := FreeDirectOne(inum, i, own0);
        TracedTrans(L, f0, fs, State(), inum, log1, logged);
        i := i + 1;
      }
    }

    /** One block named by the indirect block freed, or nothing to free. */
    method FreeEntryOne(inum: nat, j: nat, v: nat, ghost own: map<nat, Slot>) returns (ok: bool)
      requires Shape(L, State()) && Owned(L, State(), own) && inum < |inodes| && j < NINDIRECT
      requires 0 < inodes[inum].addrs[NDIRECT] < |blocks| && v == Word(blocks[inodes[inum].addrs[NDIRECT]], j)
      requires Marked(L, State(), own, EntryBlocks(own, inum, j))
      modifies this`bitmap, this`logged
      ensures ok && Shape(L, State()) && Owned(L, State(), own)
      ensures Marked(L, State(), own, EntryBlocks(own, inum, j + 1))
      ensures old(logged) <= logged && Traced(L, old(State()), State(), inum, logged)
    {
      ghost var fs := State();
      FreeEntry(L, fs, own, inum, j);
      TracedRefl(L, fs, inum, logged);
      ok := true;
      if v != 0 {
        ok := Bfree(v);
        assert State() == FreeBit(fs, v);
        FreeBitTraced(L, fs, v, inum, logged);
        assert forall y :: IsSlot(fs, y) ==> SlotVal(State(), y) == SlotVal(fs, y);
      }
    }

    /** The indirect block itself. */
    method FreeIndirectSelf(inum: nat, ghost own0: map<nat, Slot>) returns (ok: bool)
      requires Shape(L, State()) && |dinodes| == |inodes| && inum < |inodes| && inodes[inum].addrs[NDIRECT] != 0
      requires owner == Without(own0, inum, NDIRECT) && Owned(L, State(), owner)
      requires Marked(L, State(), owner, EntryBlocks(owner, inum, NINDIRECT))
      modifies this`bitmap, this`inodes, this`owner, this`logged
      ensures ok && Sound() && owner == Without(own0, inum, SLOTS)
      ensures inodes == old(inodes)[inum := old(inodes)[inum].(addrs := old(inodes)[inum].addrs[NDIRECT := 0])]
      ensures old(logged) <= logged && Traced(L, old(State()), State(), inum, logged)
    {
      ghost var fs := State();
      IndirectStillMarked(L, fs, owner, inum);
      DropIndirect(L, fs, own0, inum);
      var ind := inodes[inum].addrs[NDIRECT];
      ok := Bfree(ind);
      inodes := inodes[inum := inodes[inum].(addrs := inodes[inum].addrs[NDIRECT := 0])];
      owner := Without(own0, inum, SLOTS);
      assert State() == WithAddr(FreeBit(fs, ind), inum, NDIRECT, 0);
      FreeBitTraced(L, fs, ind, inum, logged);
      WithAddrTraced(L, FreeBit(fs, ind), inum, NDIRECT, 0, logged);
      TracedTrans(L, fs, FreeBit(fs, ind), State(), inum, logged, logged);
    }

    method FreeIndirectBlocks(inum: nat, ghost own0: map<nat, Slot>) returns (ok: bool)
      requires Sound() && inum < |inodes| && inodes[inum].addrs[NDIRECT] != 0 && owner == Without(own0, inum, NDIRECT)
      modifies this`bitmap, this`inodes, this`owner, this`logged
      ensures ok && Sound() && OnlyShrinks(old(State()), inum)
      ensures owner == Without(own0, inum, SLOTS)
      ensures inodes[inum].addrs == old(inodes[inum].addrs)[NDIRECT := 0]
      ensures old(logged) <= logged && Traced(L, old(State()), State(), inum, logged)
    {
      ghost var f0, own := State(), owner;
      IndirectOwned(L, f0, own, inum);
      TracedRefl(L, f0, inum, logged);
      var a := blocks[inodes[inum].addrs[NDIRECT]];
      ok := true;
      var j := 0;
      while j < NINDIRECT
        invariant 0 <= j <= NINDIRECT && ok && owner == own && inodes == f0.inodes && blocks == f0.blocks
        invariant Shape(L, State()) && Owned(L, State(), own) && Marked(L, State(), own, EntryBlocks(own, inum, j))
        invariant old(logged) <= logged && Traced(L, f0, State(), inum, logged)
      {
        ghost var fs, log1 := State(), logged;
        ok := FreeEntryOne(inum, j, Word(a, j), own);
        TracedTrans(L, f0, fs, State(), inum, log1, logged);
        j := j + 1;
      }
      ghost var fs, log1 := State(), logged;
      ok := FreeIndirectSelf(inum, own0);
      TracedTrans(L, f0, fs, State(), inum, log1, logged);
    }

    /** itrunc: never "freeing free block"; frees exactly the blocks this file owned. */
    method Itrunc(inum: nat) returns (ok: bool)
      requires Valid() && inum < |inodes|
      modifies this`bitmap, this`inodes, this`dinodes, this`owner, this`logged
      ensures ok && Valid() && |inodes| == |old(inodes)|
      ensures Bytes(inum) == [] && (forall k :: 0 <= k <= NDIRECT ==> inodes[inum].addrs[k] == 0)
      ensures forall j: nat :: j < |inodes| && j != inum ==> Bytes(j) == old(Bytes(j)) && inodes[j] == old(inodes[j])
      ensures forall b: nat :: b < L.nblocks ==>
                (Bit(bitmap, b) <==> old(Bit(bitmap, b)) && !(b in old(owner) && old(owner)[b].inum == inum))
      ensures FileCall(L, old(State()), State(), logged)
    {
      ghost var f0, own0 := State(), owner;
      ok := FreeDirectBlocks(inum);
      ghost var f1, log1 := State(), logged;
      if inodes[inum].addrs[NDIRECT] != 0 {
        ok := FreeIndirectBlocks(inum, own0);
        TracedTrans(L, f0, f1, State(), inum, log1, logged);
      } else {
        NoIndirect(L, State(), own0, inum);
      }
      ghost var fs := State();
      inodes := inodes[inum := inodes[inum].(size := 0)];
      ResizedSound(L, fs, owner, inum, 0);
      assert State() == WithSize(fs, inum, 0);
      ghost var log2 := logged;
      forall j: nat | j < |inodes| && j != inum ensures Contents(State(), j) == Contents(f0, j) && Mapped(State(), j) {
        assert Mapped(f0, j);
        SameInodeSameContents(f0, State(), j);
      }
      assert Mapped(State(), inum);
      Iupdate(inum);
      SizeTraced(L, f0, fs, inum, 0, log2, logged);
      TracedIsCall(L, f0, own0, State(), owner, inum, logged);
    }
  }
}
