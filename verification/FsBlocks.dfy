// Block formats of kernel/fs.h: the free bitmap, indirect blocks and the layout constants.

module FsBlocks {
  const BSIZE: nat := 1024
  const NDIRECT: nat := 12
  const NINDIRECT: nat := 256 // BSIZE / sizeof(uint)
  const MAXFILE: nat := 268   // NDIRECT + NINDIRECT
  const BPB: nat := 8192      // bitmap bits per block
  const IPB: nat := 16        // BSIZE / sizeof(struct dinode)
  const UINT: nat := 0x1_0000_0000

  type Byte = x: int | 0 <= x < 256

  type Blk = b: seq<Byte> | |b| == BSIZE witness seq(BSIZE, _ => 0)

  function Zero(): (z: Blk)
    ensures forall i :: 0 <= i < BSIZE ==> z[i] == 0
  {
    seq(BSIZE, _ => 0)
  }

  /** Entry i of an indirect block: a little-endian uint. */
  function Word(b: Blk, i: nat): (w: nat)
    requires i < NINDIRECT
  {
    b[4 * i] as int + 256 * (b[4 * i + 1] as int) + 65536 * (b[4 * i + 2] as int) + 16777216 * (b[4 * i + 3] as int)
  }

  function PutWord(b: Blk, i: nat, w: nat): (r: Blk)
    requires i < NINDIRECT && w < UINT
  {
    b[4 * i := w % 256][4 * i + 1 := w / 256 % 256][4 * i + 2 := w / 65536 % 256][4 * i + 3 := w / 16777216]
  }

  lemma Digits(w: nat)
    requires w < UINT
    ensures w / 16777216 < 256
    ensures w == w % 256 + 256 * (w / 256 % 256) + 65536 * (w / 65536 % 256) + 16777216 * (w / 16777216)
  {
    var a := w / 256;
    var b := a / 256;
    assert b == w / 65536 && b / 256 == w / 16777216;
  }

  lemma WordPut(b: Blk, i: nat, w: nat, j: nat)
    requires i < NINDIRECT && j < NINDIRECT && w < UINT
    ensures Word(PutWord(b, i, w), j) == if i == j then w else Word(b, j)
  {
    Digits(w);
    var r, p, q := PutWord(b, i, w), 4 * i, 4 * j;
    if i == j {
      assert r[p] == w % 256 && r[p + 1] == w / 256 % 256 && r[p + 2] == w / 65536 % 256 && r[p + 3] == w / 16777216;
    } else {
      assert r[q] == b[q] && r[q + 1] == b[q + 1] && r[q + 2] == b[q + 2] && r[q + 3] == b[q + 3];
    }
  }

  lemma WordZero(j: nat)
    requires j < NINDIRECT
    ensures Word(Zero(), j) == 0
  {
  }

  // The bitmap, eight blocks a byte.

  function Mask(j: nat): (m: bv8)
    requires j < 8
  {
    match j
    case 0 => 0x01
    case 1 => 0x02
    case 2 => 0x04
    case 3 => 0x08
    case 4 => 0x10
    case 5 => 0x20
    case 6 => 0x40
    case _ => 0x80
  }

  predicate ByteBit(x: bv8, j: nat)
    requires j < 8
  {
    x & Mask(j) != 0
  }

  lemma MaskSet(x: bv8, i: nat, j: nat)
    requires i < 8 && j < 8
    ensures ByteBit(x | Mask(i), j) <==> i == j || ByteBit(x, j)
  {
  }

  lemma MaskClear(x: bv8, i: nat, j: nat)
    requires i < 8 && j < 8
    ensures ByteBit(x & !Mask(i), j) <==> i != j && ByteBit(x, j)
  {
  }

  predicate Bit(m: seq<bv8>, k: nat)
    requires k / 8 < |m|
  {
    ByteBit(m[k / 8], k % 8)
  }

  function SetBit(m: seq<bv8>, k: nat): (r: seq<bv8>)
    requires k / 8 < |m|
    ensures |r| == |m|
  {
    m[k / 8 := m[k / 8] | Mask(k % 8)]
  }

  function ClearBit(m: seq<bv8>, k: nat): (r: seq<bv8>)
    requires k / 8 < |m|
    ensures |r| == |m|
  {
    m[k / 8 := m[k / 8] & !Mask(k % 8)]
  }

  /** Two bit numbers are equal exactly when they name the same place in the same byte. */
  lemma SameByte(j: nat, k: nat)
    ensures j == k <==> j / 8 == k / 8 && j % 8 == k % 8
  {
    assert j == 8 * (j / 8) + j % 8 && k == 8 * (k / 8) + k % 8;
  }

  lemma BitSet(m: seq<bv8>, k: nat, j: nat)
    requires k / 8 < |m| && j / 8 < |m|
    ensures Bit(SetBit(m, k), j) <==> j == k || Bit(m, j)
  {
    SameByte(j, k);
    MaskSet(m[k / 8], k % 8, j % 8);
  }

  lemma BitCleared(m: seq<bv8>, k: nat, j: nat)
    requires k / 8 < |m| && j / 8 < |m|
    ensures Bit(ClearBit(m, k), j) <==> j != k && Bit(m, j)
  {
    SameByte(j, k);
    MaskClear(m[k / 8], k % 8, j % 8);
  }
}
