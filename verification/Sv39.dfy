// Sv39 words and addresses as kernel/riscv.h takes them apart
// (section 4.4 of the RISC-V Privileged Architecture manual).

module Sv39 {
  const PGSIZE: nat := 4096
  const FAN: nat := 512

  /** MAXVA, TRAMPOLINE and TRAPFRAME in bytes. */
  const MAXVA: nat := 0x40_0000_0000
  const TRAMPOLINE: nat := MAXVA - PGSIZE
  const TRAPFRAME: nat := TRAMPOLINE - PGSIZE

  /** The same three as page numbers. */
  const MAX_VPN: nat := 0x400_0000
  const TRAMPOLINE_VPN: nat := MAX_VPN - 1
  const TRAPFRAME_VPN: nat := MAX_VPN - 2

  // PTE flag bits.
  const V: nat := 1
  const R: nat := 2
  const W: nat := 4
  const X: nat := 8
  const U: nat := 16

  datatype Pte = Empty | Table(ppn: nat) | Leaf(ppn: nat, flags: nat)

  /** Any of R, W, X: the entry maps a page rather than pointing to a lower table. */
  predicate HasRwx(flags: nat) { flags / 2 % 8 != 0 }

  /** Ten flag bits with V set and some of R, W, X. */
  predicate LeafFlags(flags: nat) { flags < 1024 && flags % 2 == 1 && HasRwx(flags) }

  /** Flag bits as they end up in the entry: perm | PTE_V. */
  function WithV(perm: nat): (r: nat)
    ensures r % 2 == 1 && r / 2 == perm / 2 && (perm < 1024 ==> r < 1024) && (HasRwx(r) <==> HasRwx(perm))
  {
    if perm % 2 == 1 then perm else perm + 1
  }

  /** PA2PTE and PTE2PA on physical addresses. */
  function Pa2Pte(pa: nat): (w: nat) { pa / 4096 * 1024 }

  function Pte2Pa(w: nat): (pa: nat) { w / 1024 * 4096 }

  function PteFlags(w: nat): (f: nat) { w % 1024 }

  /** What an entry's 64-bit word says. */
  function Decode(w: nat): (e: Pte) {
    if w % 2 == 0 then Empty
    else if !HasRwx(PteFlags(w)) then Table(Pte2Pa(w) / PGSIZE)
    else Leaf(Pte2Pa(w) / PGSIZE, PteFlags(w))
  }

  /** The word the kernel writes for an entry. */
  function Encode(e: Pte): (w: nat) {
    match e
    case Empty => 0
    case Table(ppn) => Pa2Pte(ppn * PGSIZE) + V
    case Leaf(ppn, flags) => Pa2Pte(ppn * PGSIZE) + flags
  }

  predicate Encodable(e: Pte) {
    e.Leaf? ==> LeafFlags(e.flags)
  }

  /** PTE2PA undoes PA2PTE on page addresses, whatever flags are or-ed in. */
  lemma AddressRoundTrip(pa: nat, flags: nat)
    requires pa % PGSIZE == 0 && flags < 1024
    ensures Pte2Pa(Pa2Pte(pa) + flags) == pa && PteFlags(Pa2Pte(pa) + flags) == flags
  {
    var p := pa / 4096;
    assert pa == p * 4096 && Pa2Pte(pa) == p * 1024;
    assert (p * 1024 + flags) / 1024 == p && (p * 1024 + flags) % 1024 == flags;
  }

  /** No entry is misread: empty, table and leaf words stay apart, and each gives back its page and flags. */
  lemma EntryRoundTrip(e: Pte)
    requires Encodable(e)
    ensures Decode(Encode(e)) == e
  {
    if e != Empty {
      var f := if e.Table? then V else e.flags;
      AddressRoundTrip(e.ppn * PGSIZE, f);
      assert Encode(e) == e.ppn * 1024 + f;
      assert Encode(e) % 2 == f % 2;
    }
  }

  /** Whatever the word, a leaf it stands for has V and some of R, W, X. */
  lemma DecodeEncodable(w: nat)
    ensures Encodable(Decode(w))
  {
    assert w % 1024 % 2 == w % 2;
  }

  // ---------------------------------------------------------------- addresses

  /** PX(level, va). */
  function Px(level: nat, va: nat): (i: nat)
    requires level <= 2
    ensures i < FAN
  {
    match level
    case 0 => va / 4096 % 512
    case 1 => va / 2097152 % 512
    case 2 => va / 1073741824 % 512
  }

  /** The three indices and the page offset determine an address below MAXVA. */
  lemma PxDetermines(a: nat, b: nat)
    requires a < MAXVA && b < MAXVA && Px(2, a) == Px(2, b) && Px(1, a) == Px(1, b) && Px(0, a) == Px(0, b)
    ensures a / PGSIZE == b / PGSIZE
  {
    PxSplits(a);
    PxSplits(b);
  }

  lemma PxSplits(a: nat)
    requires a < MAXVA
    ensures a / PGSIZE == (Px(2, a) * 512 + Px(1, a)) * 512 + Px(0, a)
  {
    var p := a / 4096;
    assert a / 2097152 == p / 512;
    assert a / 1073741824 == p / 512 / 512;
    assert p / 512 / 512 < 512;
  }

  /** The leading part of page number v that selects its entry at level l. */
  function Prefix(v: nat, l: nat): (i: nat)
    requires l <= 2
  {
    match l case 0 => v case 1 => v / 512 case 2 => v / 512 / 512
  }

  /** PX on an address is the last nine bits of that part of its page number. */
  lemma PxOfPage(va: nat, level: nat)
    requires level <= 2
    ensures Px(level, va) == Prefix(va / PGSIZE, level) % 512
  {
    var p := va / 4096;
    assert va / 2097152 == p / 512;
    assert va / 1073741824 == p / 512 / 512;
  }

  /** PGROUNDUP(sz) / PGSIZE. */
  function PagesUp(sz: nat): (n: nat)
    ensures n * PGSIZE >= sz && (n > 0 ==> (n - 1) * PGSIZE < sz)
  {
    (sz + PGSIZE - 1) / PGSIZE
  }
}
