// itrunc of kernel/fs.c: every block of the file is freed, each once, and no other.

module Truncate {
  import opened FsBlocks
  import opened FsState

  /** The blocks owned through slots of other files, or through slots of inum from k on. */
  ghost function Without(own: map<nat, Slot>, inum: nat, k: nat): (r: map<nat, Slot>) {
    map b | b in own && !(own[b].inum == inum && own[b].k < k) :: own[b]
  }

  /** The blocks named by the first j entries of inum's indirect block. */
  ghost function EntryBlocks(own: map<nat, Slot>, inum: nat, j: nat): (r: set<nat>) {
    set b | b in own && own[b].inum == inum && NDIRECT < own[b].k < NDIRECT + 1 + j
  }

  function WithAddr(fs: Fs, inum: nat, k: nat, v: nat): (r: Fs)
    requires inum < |fs.inodes| && k <= NDIRECT
  {
    fs.(inodes := fs.inodes[inum := fs.inodes[inum].(addrs := fs.inodes[inum].addrs[k := v])])
  }

  function FreeBit(fs: Fs, v: nat): (r: Fs)
    requires v / 8 < |fs.bitmap|
  {
    fs.(bitmap := ClearBit(fs.bitmap, v))
  }

  lemma MarkedCleared(L: Layout, fs: Fs, own: map<nat, Slot>, freed: set<nat>, v: nat)
    requires Shape(L, fs) && Marked(L, fs, own, freed) && v in own && L.datastart <= v < L.nblocks
    ensures Marked(L, FreeBit(fs, v), own, freed + {v})
  {
    forall b: nat | b < L.nblocks
      ensures Bit(ClearBit(fs.bitmap, v), b) <==> b < L.datastart || (b in own && b !in freed + {v})
    {
      BitCleared(fs.bitmap, v, b);
    }
  }

  /** Dropping slot k from the owners removes exactly the block it names, if any. */
  lemma WithoutNext(L: Layout, fs: Fs, own0: map<nat, Slot>, inum: nat, k: nat)
    requires L.Valid() && Owned(L, fs, Without(own0, inum, k)) && inum < |fs.inodes| && k < NDIRECT
    ensures Without(own0, inum, k + 1) == Without(own0, inum, k) - {fs.inodes[inum].addrs[k]}
  {
    var v, own, own' := fs.inodes[inum].addrs[k], Without(own0, inum, k), Without(own0, inum, k + 1);
    var x := Slot(inum, k);
    assert IsSlot(fs, x) && SlotVal(fs, x) == v;
    forall b | b in own ensures b in own' <==> b != v {
      assert SlotVal(fs, own[b]) == b;
    }
  }

  lemma FreeDirect(L: Layout, fs: Fs, own0: map<nat, Slot>, inum: nat, k: nat)
    requires SoundFs(L, fs, Without(own0, inum, k)) && inum < |fs.inodes| && k < NDIRECT
    ensures var v := fs.inodes[inum].addrs[k];
            if v == 0 then SoundFs(L, fs, Without(own0, inum, k + 1))
            else
              && v < L.nblocks && Bit(fs.bitmap, v)
              && SoundFs(L, WithAddr(FreeBit(fs, v), inum, k, 0), Without(own0, inum, k + 1))
  {
    var v, own, own' := fs.inodes[inum].addrs[k], Without(own0, inum, k), Without(own0, inum, k + 1);
    var x := Slot(inum, k);
    WithoutNext(L, fs, own0, inum, k);
    assert IsSlot(fs, x) && SlotVal(fs, x) == v;
    if v == 0 {
      assert 0 !in own;
      assert own == own';
    } else {
      assert v in own && own[v] == x;
      MarkedCleared(L, fs, own, {}, v);
      var r := WithAddr(FreeBit(fs, v), inum, k, 0);
      forall y | IsSlot(r, y) ensures SlotVal(r, y) == if y == x then 0 else SlotVal(fs, y) {
      }
      assert Owned(L, r, own');
      assert Marked(L, r, own', {});
    }
  }

  lemma FreeEntry(L: Layout, fs: Fs, own: map<nat, Slot>, inum: nat, j: nat)
    requires Shape(L, fs) && Owned(L, fs, own) && inum < |fs.inodes| && j < NINDIRECT
    requires 0 < fs.inodes[inum].addrs[NDIRECT] < |fs.blocks|
    requires Marked(L, fs, own, EntryBlocks(own, inum, j))
    ensures var v := Word(fs.blocks[fs.inodes[inum].addrs[NDIRECT]], j);
            if v == 0 then EntryBlocks(own, inum, j + 1) == EntryBlocks(own, inum, j)
            else v < L.nblocks && Bit(fs.bitmap, v) && Marked(L, FreeBit(fs, v), own, EntryBlocks(own, inum, j + 1))
  {
    var v, x := Word(fs.blocks[fs.inodes[inum].addrs[NDIRECT]], j), Slot(inum, NDIRECT + 1 + j);
    assert IsSlot(fs, x) && SlotVal(fs, x) == v;
    forall b | b in EntryBlocks(own, inum, j + 1) && b !in EntryBlocks(own, inum, j) ensures own[b] == x && b == v {
      assert SlotVal(fs, own[b]) == b;
    }
    if v != 0 {
      assert v in own && own[v] == x;
      assert EntryBlocks(own, inum, j + 1) == EntryBlocks(own, inum, j) + {v};
      MarkedCleared(L, fs, own, EntryBlocks(own, inum, j), v);
    }
  }

  /** The indirect block is still marked when its own turn comes. */
  lemma IndirectStillMarked(L: Layout, fs: Fs, own: map<nat, Slot>, inum: nat)
    requires Shape(L, fs) && Owned(L, fs, own) && inum < |fs.inodes| && fs.inodes[inum].addrs[NDIRECT] != 0
    requires Marked(L, fs, own, EntryBlocks(own, inum, NINDIRECT))
    ensures fs.inodes[inum].addrs[NDIRECT] < L.nblocks && Bit(fs.bitmap, fs.inodes[inum].addrs[NDIRECT])
  {
    IndirectOwned(L, fs, own, inum);
  }

  lemma DropIndirect(L: Layout, fs: Fs, own0: map<nat, Slot>, inum: nat)
    requires Shape(L, fs) && inum < |fs.inodes|
    requires Owned(L, fs, Without(own0, inum, NDIRECT)) && fs.inodes[inum].addrs[NDIRECT] != 0
    requires fs.inodes[inum].addrs[NDIRECT] < L.nblocks
    requires Marked(L, fs, Without(own0, inum, NDIRECT), EntryBlocks(Without(own0, inum, NDIRECT), inum, NINDIRECT))
    ensures SoundFs(L, WithAddr(FreeBit(fs, fs.inodes[inum].addrs[NDIRECT]), inum, NDIRECT, 0),
            Without(own0, inum, SLOTS))
  {
    var v, own, own' := fs.inodes[inum].addrs[NDIRECT], Without(own0, inum, NDIRECT), Without(own0, inum, SLOTS);
    var r := WithAddr(FreeBit(fs, v), inum, NDIRECT, 0);
    IndirectOwned(L, fs, own, inum);
    MarkedCleared(L, fs, own, EntryBlocks(own, inum, NINDIRECT), v);
    forall y | IsSlot(r, y) ensures SlotVal(r, y) == if y.inum == inum && y.k >= NDIRECT then 0 else SlotVal(fs, y) {
    }
    forall b | b in own ensures b in own' <==> b !in EntryBlocks(own, inum, NINDIRECT) && b != v {
      assert SlotVal(fs, own[b]) == b;
    }
    forall y | IsSlot(r, y) && SlotVal(r, y) != 0 ensures SlotVal(r, y) in own' && own'[SlotVal(r, y)] == y {
      assert SlotVal(fs, y) in own && own[SlotVal(fs, y)] == y;
      assert y.inum != inum || y.k < NDIRECT;
      assert own0[SlotVal(fs, y)] == y;
    }
    forall b | b in own' ensures L.datastart <= b < L.nblocks && IsSlot(r, own'[b]) && SlotVal(r, own'[b]) == b {
      assert b in own && own[b] == own'[b];
      assert SlotVal(fs, own[b]) == b;
    }
    assert Marked(L, r, own', {});
  }

  /** A file without an indirect block owns nothing through indirect entries. */
  lemma NoIndirect(L: Layout, fs: Fs, own0: map<nat, Slot>, inum: nat)
    requires SoundFs(L, fs, Without(own0, inum, NDIRECT)) && inum < |fs.inodes| && fs.inodes[inum].addrs[NDIRECT] == 0
    ensures Without(own0, inum, NDIRECT) == Without(own0, inum, SLOTS)
  {
    var own, own' := Without(own0, inum, NDIRECT), Without(own0, inum, SLOTS);
    forall b | b in own ensures b in own' {
      assert SlotVal(fs, own[b]) == b;
    }
  }

  lemma FreeBitTraced(L: Layout, fs: Fs, v: nat, inum: nat, log: set<nat>)
    requires v / 8 < |fs.bitmap| && v / BPB + L.bmapstart in log && inum < |fs.inodes|
    ensures Traced(L, fs, FreeBit(fs, v), inum, log)
  {
    BitsByte(v);
  }

  lemma WithAddrTraced(L: Layout, fs: Fs, inum: nat, k: nat, v: nat, log: set<nat>)
    requires inum < |fs.inodes| && k <= NDIRECT
    ensures Traced(L, fs, WithAddr(fs, inum, k, v), inum, log)
  {
  }
}
