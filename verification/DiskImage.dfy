// What the disk blocks hold when a file system is stored in them: data blocks, bitmap blocks
// and inode blocks as kernel/fs.h lays them out.

module DiskImage {
  import opened FsBlocks
  import opened FsState
  import D = DiskBlocks

  // ---------------------------------------------------------------- words and bytes

  /** Byte k of a 32-bit word, least significant first. */
  function Digit(x: int, k: nat): (b: Byte) {
    match k
    case 0 => x % 256
    case 1 => x / 256 % 256
    case 2 => x / 65536 % 256
    case _ => x / 16777216 % 256
  }

  /** A block of words, as the log sees it, byte by byte. */
  function BytesOf(w: D.Block): (b: Blk) {
    seq(BSIZE, i requires 0 <= i < BSIZE => Digit(w[i / 4], i % 4))
  }

  function WordsOf(b: Blk): (w: D.Block) {
    seq(D.WORDS, i requires 0 <= i < D.WORDS => Word(b, i))
  }

  lemma DigitOfWord(a: Byte, b: Byte, c: Byte, d: Byte)
    ensures var x := a as int + 256 * (b as int) + 65536 * (c as int) + 16777216 * (d as int);
            Digit(x, 0) == a && Digit(x, 1) == b && Digit(x, 2) == c && Digit(x, 3) == d
  {
    var x := a as int + 256 * (b as int) + 65536 * (c as int) + 16777216 * (d as int);
    assert x / 256 == b as int + 256 * (c as int) + 65536 * (d as int);
    assert x / 65536 == c as int + 256 * (d as int);
    assert x / 16777216 == d as int;
  }

  /** Every block of bytes is a block of words. */
  lemma BytesRoundTrip(b: Blk)
    ensures BytesOf(WordsOf(b)) == b
  {
    forall i | 0 <= i < BSIZE ensures BytesOf(WordsOf(b))[i] == b[i] {
      var q := i / 4;
      assert i == 4 * q + i % 4;
      DigitOfWord(b[4 * q], b[4 * q + 1], b[4 * q + 2], b[4 * q + 3]);
    }
  }

  // ---------------------------------------------------------------- inodes

  /** A C short. */
  function Signed16(x: nat): (r: int) { if x < 32768 then x else x - 65536 }

  function Unsigned16(x: int): (r: nat)
    ensures r < 65536 && (-32768 <= x < 32768 ==> Signed16(r) == x)
  {
    x % 65536
  }

  /** n words from word `at` on. */
  function WordsFrom(b: Blk, at: nat, n: nat): (ws: seq<nat>)
    requires at + n <= NINDIRECT
    ensures |ws| == n && forall i :: 0 <= i < n ==> ws[i] == Word(b, at + i)
  {
    if n == 0 then [] else WordsFrom(b, at, n - 1) + [Word(b, at + n - 1)]
  }

  /** struct dinode k of an inode block, 64 bytes: type, major, minor, nlink, size, addrs. */
  function GetInode(b: Blk, k: nat): (ino: Inode)
    requires k < IPB
  {
    Inode(Signed16(Word(b, 16 * k) % 65536), Signed16(Word(b, 16 * k + 1) / 65536 % 65536), Word(b, 16 * k + 2),
          WordsFrom(b, 16 * k + 3, NDIRECT + 1))
  }

  /** Words stored from word `at` on. */
  function PutWords(b: Blk, at: nat, ws: seq<nat>): (r: Blk)
    requires at + |ws| <= NINDIRECT && forall i :: 0 <= i < |ws| ==> ws[i] < UINT
  {
    if ws == [] then b else PutWord(PutWords(b, at, ws[..|ws| - 1]), at + |ws| - 1, ws[|ws| - 1])
  }

  lemma {:induction false} PutWordsAt(b: Blk, at: nat, ws: seq<nat>, j: nat)
    requires at + |ws| <= NINDIRECT && j < NINDIRECT && forall i :: 0 <= i < |ws| ==> ws[i] < UINT
    ensures Word(PutWords(b, at, ws), j) == if at <= j < at + |ws| then ws[j - at] else Word(b, j)
  {
    if ws != [] {
      var front := ws[..|ws| - 1];
      PutWordsAt(b, at, front, j);
      WordPut(PutWords(b, at, front), at + |front|, ws[|ws| - 1], j);
    }
  }

  /** Fields that fit the on-disk inode. */
  predicate Storable(ino: Inode) {
    && -32768 <= ino.kind < 32768 && -32768 <= ino.nlink < 32768 && ino.size < UINT
    && forall a :: 0 <= a < |ino.addrs| ==> ino.addrs[a] < UINT
  }

  /** The words iupdate stores; major and minor are the two fields the model does not follow. */
  function InodeWords(ino: Inode, major: int, minor: int): (ws: seq<nat>)
    requires Storable(ino)
    ensures |ws| == 16 && forall i :: 0 <= i < |ws| ==> ws[i] < UINT
  {
    [Unsigned16(ino.kind) + 65536 * Unsigned16(major), Unsigned16(minor) + 65536 * Unsigned16(ino.nlink), ino.size]
      + ino.addrs
  }

  function PutInode(b: Blk, k: nat, ino: Inode, major: int, minor: int): (r: Blk)
    requires k < IPB && Storable(ino)
  {
    PutWords(b, 16 * k, InodeWords(ino, major, minor))
  }

  lemma InodeWord(b: Blk, k: nat, ino: Inode, major: int, minor: int, j: nat, i: nat)
    requires k < IPB && j < IPB && Storable(ino) && i < 16
    ensures Word(PutInode(b, k, ino, major, minor), 16 * j + i)
            == if j == k then InodeWords(ino, major, minor)[i] else Word(b, 16 * j + i)
  {
    PutWordsAt(b, 16 * k, InodeWords(ino, major, minor), 16 * j + i);
  }

  lemma AddrsBack(b: Blk, k: nat, ino: Inode, major: int, minor: int, j: nat)
    requires k < IPB && j < IPB && Storable(ino)
    ensures WordsFrom(PutInode(b, k, ino, major, minor), 16 * j + 3, NDIRECT + 1)
            == if j == k then ino.addrs else WordsFrom(b, 16 * j + 3, NDIRECT + 1)
  {
    var r := PutInode(b, k, ino, major, minor);
    var x, y := WordsFrom(r, 16 * j + 3, NDIRECT + 1), if j == k then ino.addrs
      else WordsFrom(b, 16 * j + 3, NDIRECT + 1);
    forall a | 0 <= a < NDIRECT + 1 ensures x[a] == y[a] {
      InodeWord(b, k, ino, major, minor, j, 3 + a);
    }
  }

  lemma Halves(lo: nat, hi: nat)
    requires lo < 65536 && hi < 65536
    ensures (lo + 65536 * hi) % 65536 == lo && (lo + 65536 * hi) / 65536 % 65536 == hi
  {
    assert (lo + 65536 * hi) / 65536 == hi;
  }

  /** What iupdate stores ilock reads back, and the other inodes of the block stay. */
  lemma InodeRoundTrip(b: Blk, k: nat, ino: Inode, major: int, minor: int, j: nat)
    requires k < IPB && j < IPB && Storable(ino)
    ensures GetInode(PutInode(b, k, ino, major, minor), j) == if j == k then ino else GetInode(b, j)
  {
    InodeWord(b, k, ino, major, minor, j, 0);
    InodeWord(b, k, ino, major, minor, j, 1);
    InodeWord(b, k, ino, major, minor, j, 2);
    AddrsBack(b, k, ino, major, minor, j);
    Halves(Unsigned16(ino.kind), Unsigned16(major));
    Halves(Unsigned16(minor), Unsigned16(ino.nlink));
  }

  // ---------------------------------------------------------------- whole disks

  predicate ByteShown(L: Layout, x: D.Block, fs: Fs, b: nat, j: nat)
    requires j < |fs.bitmap|
  {
    L.ByteBlock(j) == b ==> BytesOf(x)[j % BSIZE] == fs.bitmap[j] as int
  }

  predicate InodeShown(L: Layout, x: D.Block, fs: Fs, b: nat, i: nat)
    requires i < |fs.inodes|
  {
    L.InodeBlock(i) == b ==> GetInode(BytesOf(x), i % IPB) == fs.inodes[i]
  }

  /** Disk block b may hold x: the data, the part of the bitmap and the inodes stored there. */
  ghost predicate BlockShows(L: Layout, x: D.Block, fs: Fs, b: nat) {
    && (L.datastart <= b < |fs.blocks| ==> BytesOf(x) == fs.blocks[b])
    && (forall j: nat {:trigger ByteShown(L, x, fs, b, j)} :: j < |fs.bitmap| ==> ByteShown(L, x, fs, b, j))
    && (forall i: nat {:trigger InodeShown(L, x, fs, b, i)} :: i < |fs.inodes| ==> InodeShown(L, x, fs, b, i))
  }

  /** mkfs makes one bitmap block for every BPB blocks, and one more. */
  function BitmapBytes(L: Layout): (n: nat) { BSIZE * (L.nblocks / BPB + 1) }

  /** The file system's blocks are on the disk and outside the log. */
  ghost predicate Fits(L: Layout, g: D.Geometry) {
    && L.Valid() && g.Valid() && L.nblocks == g.nblocks
    && (forall b: nat :: L.datastart <= b < L.nblocks ==> g.IsHome(b))
    && (forall j: nat :: j < BitmapBytes(L) ==> g.IsHome(L.ByteBlock(j)))
    && (forall i: nat :: i < L.ninodes ==> g.IsHome(L.InodeBlock(i)))
  }

  ghost predicate ShowsAt(L: Layout, g: D.Geometry, d: D.Disk, fs: Fs, b: nat)
    requires g.GoodDisk(d)
  {
    g.IsHome(b) ==> BlockShows(L, d[b], fs, b)
  }

  /** The home blocks of d hold fs. */
  ghost predicate Shows(L: Layout, g: D.Geometry, d: D.Disk, fs: Fs) {
    && g.GoodDisk(d) && |fs.blocks| == L.nblocks && |fs.bitmap| == BitmapBytes(L) && |fs.inodes| == L.ninodes
    && forall b: nat {:trigger ShowsAt(L, g, d, fs, b)} :: ShowsAt(L, g, d, fs, b)
  }

  /** A disk holds one file system at most. */
  lemma OneReading(L: Layout, g: D.Geometry, d: D.Disk, a: Fs, b: Fs)
    requires Fits(L, g) && Shows(L, g, d, a) && Shows(L, g, d, b)
    ensures a.bitmap == b.bitmap && a.inodes == b.inodes && a.blocks[L.datastart..] == b.blocks[L.datastart..]
  {
    forall j: nat | j < |a.bitmap| ensures a.bitmap[j] == b.bitmap[j] {
      var k := L.ByteBlock(j);
      assert ShowsAt(L, g, d, a, k) && ShowsAt(L, g, d, b, k);
      assert ByteShown(L, d[k], a, k, j) && ByteShown(L, d[k], b, k, j);
      SameByteValue(a.bitmap[j], b.bitmap[j]);
    }
    forall i: nat | i < |a.inodes| ensures a.inodes[i] == b.inodes[i] {
      var k := L.InodeBlock(i);
      assert ShowsAt(L, g, d, a, k) && ShowsAt(L, g, d, b, k);
      assert InodeShown(L, d[k], a, k, i) && InodeShown(L, d[k], b, k, i);
    }
    forall k: nat | L.datastart <= k < L.nblocks ensures a.blocks[k] == b.blocks[k] {
      assert ShowsAt(L, g, d, a, k) && ShowsAt(L, g, d, b, k);
    }
  }

  lemma SameByteValue(x: bv8, y: bv8)
    requires x as int == y as int
    ensures x == y
  {
  }

  /** A block no call has logged holds after the call what it held before. */
  lemma UntouchedShows(L: Layout, a: Fs, b: Fs, log: set<nat>, x: D.Block, k: nat)
    requires AgreesOutside(L, a, b, log) && k !in log && BlockShows(L, x, a, k)
    ensures BlockShows(L, x, b, k)
  {
    if L.datastart <= k < |b.blocks| {
      assert BlockTraced(a, b, log, k);
    }
    forall j: nat | j < |b.bitmap| ensures ByteShown(L, x, b, k, j) {
      assert ByteShown(L, x, a, k, j) && ByteTraced(L, a, b, log, j);
    }
    forall i: nat | i < |b.inodes| ensures InodeShown(L, x, b, k, i) {
      assert InodeShown(L, x, a, k, i) && InodeTraced(L, a, b, log, i);
    }
  }
}
