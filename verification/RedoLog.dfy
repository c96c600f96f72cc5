// The redo log of kernel/log.c: header codec, commit and recovery, with the
// disk states a crash can expose.  One bwrite is one atomic step.

module DiskBlocks {
  const WORDS: nat := 256 // BSIZE / sizeof(int)

  /** A disk block, as BSIZE/4 words. */
  type Block = b: seq<int> | |b| == WORDS witness seq(WORDS, _ => 0)

  type Disk = seq<Block>

  /** Where the log lives: the header at `start`, entries after it, `size` blocks in
      all (superblock nlog); `cap` is LOGSIZE, the capacity of the header. */
  datatype Geometry = Geometry(start: nat, size: nat, cap: nat, nblocks: nat) {
    ghost predicate Valid() {
      && cap + 1 < WORDS // initlog: sizeof(struct logheader) < BSIZE
      && 1 <= size
      && start + size <= nblocks
    }

    predicate InLog(b: int) { start <= b < start + size }

    predicate IsHome(b: int) { 0 <= b < nblocks && !InLog(b) }

    /** The bound log_write enforces on lh.n. */
    function Limit(): nat { if size == 0 then 0 else if cap < size - 1 then cap else size - 1 }

    ghost predicate GoodDisk(d: Disk) { |d| == nblocks }
  }

  ghost predicate AllHome(g: Geometry, lh: seq<int>) {
    forall i :: 0 <= i < |lh| ==> g.IsHome(lh[i])
  }

  // The header block: word 0 is n, words 1..n are home block numbers; the rest is stale.

  ghost predicate GoodHead(g: Geometry, h: Block) {
    && 0 <= h[0] <= g.Limit()
    && g.Limit() < WORDS
    && forall i :: 1 <= i <= h[0] ==> g.IsHome(h[i])
  }

  ghost function Entries(g: Geometry, h: Block): (lh: seq<int>)
    requires GoodHead(g, h)
    ensures |lh| <= g.Limit() && AllHome(g, lh)
  {
    h[1..1 + h[0]]
  }

  function PutHead(h: Block, lh: seq<int>): (r: Block)
    requires |lh| < WORDS
  {
    [|lh|] + lh + h[1 + |lh|..]
  }

  lemma HeadRoundTrip(g: Geometry, h: Block, lh: seq<int>)
    requires g.Valid() && |lh| <= g.Limit()
    requires AllHome(g, lh)
    ensures GoodHead(g, PutHead(h, lh))
    ensures Entries(g, PutHead(h, lh)) == lh
  {
    var r := PutHead(h, lh);
    forall i | 1 <= i <= r[0] ensures g.IsHome(r[i]) {
      assert r[i] == lh[i - 1];
    }
    assert r[1..1 + |lh|] == lh;
  }

  /** The first k log entries copied to their home locations. */
  ghost function Installed(g: Geometry, d: Disk, lh: seq<int>, k: nat): (r: Disk)
    requires g.Valid() && g.GoodDisk(d) && k <= |lh| <= g.Limit()
    requires AllHome(g, lh)
    ensures g.GoodDisk(r)
    ensures forall b :: g.InLog(b) ==> r[b] == d[b]
  {
    if k == 0 then d else Installed(g, d, lh, k - 1)[lh[k - 1] := d[g.start + k]]
  }

  /** What a completed recover_from_log leaves on the disk. */
  ghost function Recovered(g: Geometry, d: Disk): (r: Disk)
    requires g.Valid() && g.GoodDisk(d) && GoodHead(g, d[g.start])
    ensures g.GoodDisk(r)
    ensures GoodHead(g, r[g.start]) && Entries(g, r[g.start]) == []
  {
    var lh := Entries(g, d[g.start]);
    HeadRoundTrip(g, d[g.start], []);
    Installed(g, d, lh, |lh|)[g.start := PutHead(d[g.start], [])]
  }

  ghost predicate SameHome(g: Geometry, d: Disk, e: Disk)
    requires g.GoodDisk(d) && g.GoodDisk(e)
  {
    forall b :: g.IsHome(b) ==> d[b] == e[b]
  }

  /** Two disks that agree on the log area and on every home block the log does not name
      install to the same disk. */
  lemma {:induction false} InstalledPointwise(g: Geometry, d: Disk, e: Disk, lh: seq<int>, k: nat, b: nat)
    requires g.Valid() && g.GoodDisk(d) && g.GoodDisk(e) && k <= |lh| <= g.Limit() && b < g.nblocks
    requires AllHome(g, lh)
    requires forall x :: g.start < x < g.start + g.size ==> d[x] == e[x]
    requires b in lh[..k] || d[b] == e[b]
    ensures Installed(g, d, lh, k)[b] == Installed(g, e, lh, k)[b]
  {
    if k > 0 && b != lh[k - 1] {
      assert lh[..k] == lh[..k - 1] + [lh[k - 1]];
      InstalledPointwise(g, d, e, lh, k - 1, b);
    }
  }

  lemma {:induction false} InstalledFrame(g: Geometry, d: Disk, lh: seq<int>, k: nat, b: nat)
    requires g.Valid() && g.GoodDisk(d) && k <= |lh| <= g.Limit() && b < g.nblocks
    requires AllHome(g, lh)
    requires b !in lh[..k]
    ensures Installed(g, d, lh, k)[b] == d[b]
  {
    if k > 0 {
      assert lh[..k] == lh[..k - 1] + [lh[k - 1]];
      InstalledFrame(g, d, lh, k - 1, b);
    }
  }

  /** When the log block of every entry naming b holds v, installing leaves v at b. */
  lemma {:induction false} InstalledValue(g: Geometry, d: Disk, lh: seq<int>, k: nat, b: nat, v: Block)
    requires g.Valid() && g.GoodDisk(d) && k <= |lh| <= g.Limit() && b < g.nblocks
    requires AllHome(g, lh)
    requires b in lh[..k]
    requires forall i :: 0 <= i < |lh| && lh[i] == b ==> d[g.start + 1 + i] == v
    ensures Installed(g, d, lh, k)[b] == v
  {
    if b == lh[k - 1] {
      assert d[g.start + 1 + (k - 1)] == v;
    } else {
      assert lh[..k] == lh[..k - 1] + [lh[k - 1]];
      InstalledValue(g, d, lh, k - 1, b, v);
    }
  }

  /** The disk during recovery: k home blocks copied, or (k == n + 1) the log cleared. */
  ghost function RecoveryState(g: Geometry, d: Disk, k: nat): (r: Disk)
    requires g.Valid() && g.GoodDisk(d) && GoodHead(g, d[g.start])
    requires k <= d[g.start][0] + 1
    ensures g.GoodDisk(r)
  {
    var lh := Entries(g, d[g.start]);
    if k <= |lh| then Installed(g, d, lh, k) else Recovered(g, d)
  }

  /** A crash anywhere inside recovery loses nothing: recovering again ends in the same home blocks. */
  lemma RecoveryIdempotent(g: Geometry, d: Disk, k: nat)
    requires g.Valid() && g.GoodDisk(d) && GoodHead(g, d[g.start]) && k <= d[g.start][0] + 1
    ensures GoodHead(g, RecoveryState(g, d, k)[g.start])
    ensures SameHome(g, Recovered(g, RecoveryState(g, d, k)), Recovered(g, d))
  {
    var lh := Entries(g, d[g.start]);
    var e := RecoveryState(g, d, k);
    if k <= |lh| {
      assert e[g.start] == d[g.start];
      forall b | g.IsHome(b) ensures Recovered(g, e)[b] == Recovered(g, d)[b] {
        if b !in lh[..|lh|] {
          InstalledFrame(g, d, lh, k, b);
        }
        InstalledPointwise(g, e, d, lh, |lh|, b);
      }
    } else {
      assert Entries(g, e[g.start]) == [];
    }
  }

  /** ds[j+1] is what a crash inside the recovery of ds[j] left behind. */
  ghost predicate CrashChain(g: Geometry, ds: seq<Disk>)
    requires g.Valid()
  {
    && |ds| > 0
    && g.GoodDisk(ds[0]) && GoodHead(g, ds[0][g.start])
    && (forall j :: 0 < j < |ds| ==> CrashedDuringRecovery(g, ds[j - 1], ds[j]))
  }

  ghost predicate CrashedDuringRecovery(g: Geometry, d: Disk, e: Disk)
    requires g.Valid()
  {
    g.GoodDisk(d) && GoodHead(g, d[g.start]) &&
    exists k: nat :: k <= d[g.start][0] + 1 && e == RecoveryState(g, d, k)
  }

  /** Any number of crashes inside recovery, then one completed recovery. */
  lemma {:induction false} RepeatedCrashes(g: Geometry, ds: seq<Disk>)
    requires g.Valid() && CrashChain(g, ds)
    ensures g.GoodDisk(ds[|ds| - 1]) && GoodHead(g, ds[|ds| - 1][g.start])
    ensures SameHome(g, Recovered(g, ds[|ds| - 1]), Recovered(g, ds[0]))
  {
    if |ds| > 1 {
      var last := |ds| - 1;
      var prefix := ds[..last];
      RepeatedCrashes(g, prefix);
      assert CrashedDuringRecovery(g, ds[last - 1], ds[last]);
      var k: nat :| k <= ds[last - 1][g.start][0] + 1 && ds[last] == RecoveryState(g, ds[last - 1], k);
      RecoveryIdempotent(g, ds[last - 1], k);
    }
  }
}

module RedoLog {
  import opened DiskBlocks

  /** d with the first k logged values copied into the log area. */
  ghost function LogFilled(g: Geometry, d: Disk, data: seq<Block>, k: nat): (r: Disk)
    requires g.Valid() && g.GoodDisk(d) && k <= |data| <= g.Limit()
    ensures g.GoodDisk(r)
    ensures forall i :: 0 <= i < k ==> r[g.start + 1 + i] == data[i]
    ensures forall b :: 0 <= b < |d| && !(g.start < b <= g.start + k) ==> r[b] == d[b]
  {
    if k == 0 then d else LogFilled(g, d, data, k - 1)[g.start + k := data[k - 1]]
  }

  /** The disk after the i-th of the 2n+2 writes commit() makes: n log copies, the header,
      n home copies, the cleared header. */
  ghost function CommitState(g: Geometry, d: Disk, lh: seq<int>, data: seq<Block>, i: nat): (r: Disk)
    requires g.Valid() && g.GoodDisk(d) && |lh| == |data| <= g.Limit() && i <= 2 * |lh| + 2
    requires AllHome(g, lh)
    ensures g.GoodDisk(r)
  {
    var n := |lh|;
    var filled := LogFilled(g, d, data, if i <= n then i else n);
    if i <= n then filled
    else
      var headed := filled[g.start := PutHead(filled[g.start], lh)];
      if i <= 2 * n + 1 then Installed(g, headed, lh, i - n - 1)
      else
        var all := Installed(g, headed, lh, n);
        all[g.start := PutHead(all[g.start], [])]
  }

  /** The home blocks once the transaction is in: logged blocks take their cached value. */
  ghost predicate IsPost(g: Geometry, d: Disk, lh: seq<int>, data: seq<Block>, post: Disk)
    requires g.Valid() && g.GoodDisk(d) && g.GoodDisk(post) && |lh| == |data|
  {
    && (forall b :: g.IsHome(b) && b !in lh ==> post[b] == d[b])
    && (forall i :: 0 <= i < |lh| && g.IsHome(lh[i]) ==> post[lh[i]] == data[i])
  }

  lemma CommitBeforeHead(g: Geometry, d: Disk, lh: seq<int>, data: seq<Block>, i: nat)
    requires g.Valid() && g.GoodDisk(d) && |lh| == |data| <= g.Limit() && i <= |lh|
    requires AllHome(g, lh)
    requires GoodHead(g, d[g.start]) && Entries(g, d[g.start]) == []
    ensures GoodHead(g, CommitState(g, d, lh, data, i)[g.start])
    ensures SameHome(g, Recovered(g, CommitState(g, d, lh, data, i)), d)
  {
    var c := CommitState(g, d, lh, data, i);
    assert c[g.start] == d[g.start];
    assert d[g.start][0] == 0;
  }

  /** The disk once the header is on it: the commit point. */
  ghost function Headed(g: Geometry, d: Disk, lh: seq<int>, data: seq<Block>): (r: Disk)
    requires g.Valid() && g.GoodDisk(d) && |lh| == |data| <= g.Limit() && AllHome(g, lh)
    ensures g.GoodDisk(r) && GoodHead(g, r[g.start]) && Entries(g, r[g.start]) == lh && SameHome(g, r, d)
    ensures forall i :: 0 <= i < |lh| ==> r[g.start + 1 + i] == data[i]
  {
    var filled := LogFilled(g, d, data, |lh|);
    HeadRoundTrip(g, filled[g.start], lh);
    filled[g.start := PutHead(filled[g.start], lh)]
  }

  /** From the commit point on, commit() goes through the states of a recovery. */
  lemma CommitIsRecovery(g: Geometry, d: Disk, lh: seq<int>, data: seq<Block>, i: nat)
    requires g.Valid() && g.GoodDisk(d) && |lh| == |data| <= g.Limit() && |lh| < i <= 2 * |lh| + 2
    requires AllHome(g, lh)
    ensures CommitState(g, d, lh, data, i) == RecoveryState(g, Headed(g, d, lh, data), i - |lh| - 1)
  {
  }

  lemma PostOfSame(g: Geometry, d: Disk, lh: seq<int>, data: seq<Block>, a: Disk, b: Disk)
    requires g.Valid() && g.GoodDisk(d) && g.GoodDisk(a) && g.GoodDisk(b) && |lh| == |data|
    requires IsPost(g, d, lh, data, a) && SameHome(g, b, a)
    ensures IsPost(g, d, lh, data, b)
  {
  }

  /** c is what recovery of the headed disk h is after k writes. */
  lemma AfterHead(g: Geometry, d: Disk, lh: seq<int>, data: seq<Block>, h: Disk, k: nat, c: Disk)
    requires g.Valid() && g.GoodDisk(d) && g.GoodDisk(h) && |lh| == |data| <= g.Limit() && AllHome(g, lh)
    requires forall i, j :: 0 <= i < j < |lh| && lh[i] == lh[j] ==> data[i] == data[j]
    requires forall i :: 0 <= i < |lh| ==> h[g.start + 1 + i] == data[i]
    requires SameHome(g, h, d) && GoodHead(g, h[g.start]) && Entries(g, h[g.start]) == lh
    requires k <= |lh| + 1 && c == RecoveryState(g, h, k)
    ensures g.GoodDisk(c) && GoodHead(g, c[g.start]) && IsPost(g, d, lh, data, Recovered(g, c))
  {
    InstalledIsPost(g, d, h, lh, data);
    RecoveryIdempotent(g, h, k);
    PostOfSame(g, d, lh, data, Recovered(g, h), Recovered(g, c));
  }

  lemma CommitAfterHead(g: Geometry, d: Disk, lh: seq<int>, data: seq<Block>, i: nat)
    requires g.Valid() && g.GoodDisk(d) && |lh| == |data| <= g.Limit() && |lh| < i <= 2 * |lh| + 2
    requires AllHome(g, lh)
    requires forall i, j :: 0 <= i < j < |lh| && lh[i] == lh[j] ==> data[i] == data[j]
    ensures GoodHead(g, CommitState(g, d, lh, data, i)[g.start])
    ensures IsPost(g, d, lh, data, Recovered(g, CommitState(g, d, lh, data, i)))
  {
    CommitIsRecovery(g, d, lh, data, i);
    AfterHead(g, d, lh, data, Headed(g, d, lh, data), i - |lh| - 1, CommitState(g, d, lh, data, i));
  }

  lemma InstalledIsPost(g: Geometry, d: Disk, headed: Disk, lh: seq<int>, data: seq<Block>)
    requires g.Valid() && g.GoodDisk(d) && g.GoodDisk(headed) && |lh| == |data| <= g.Limit()
    requires AllHome(g, lh)
    requires forall i, j :: 0 <= i < j < |lh| && lh[i] == lh[j] ==> data[i] == data[j]
    requires forall i :: 0 <= i < |lh| ==> headed[g.start + 1 + i] == data[i]
    requires SameHome(g, headed, d)
    requires GoodHead(g, headed[g.start]) && Entries(g, headed[g.start]) == lh
    ensures IsPost(g, d, lh, data, Recovered(g, headed))
  {
    var n := |lh|;
    assert lh[..n] == lh;
    forall b | g.IsHome(b) && b !in lh ensures Recovered(g, headed)[b] == d[b] {
      InstalledFrame(g, headed, lh, n, b);
    }
    forall i | 0 <= i < n && g.IsHome(lh[i]) ensures Recovered(g, headed)[lh[i]] == data[i] {
      InstalledValue(g, headed, lh, n, lh[i], data[i]);
    }
  }

  /** Crash atomicity.  Stop commit() after any of its writes, crash any number of times
      inside recovery, then let one recovery finish: the home blocks are exactly the old ones
      if the crash came before the first header write, and exactly the new ones after it. */
  lemma CrashAtomicity(g: Geometry, d: Disk, lh: seq<int>, data: seq<Block>, i: nat, crashes: seq<Disk>)
    requires g.Valid() && g.GoodDisk(d) && |lh| == |data| <= g.Limit() && i <= 2 * |lh| + 2
    requires AllHome(g, lh)
    requires forall i, j :: 0 <= i < j < |lh| && lh[i] == lh[j] ==> data[i] == data[j]
    requires GoodHead(g, d[g.start]) && Entries(g, d[g.start]) == []
    requires CrashChain(g, crashes) && crashes[0] == CommitState(g, d, lh, data, i)
    ensures g.GoodDisk(crashes[|crashes| - 1]) && GoodHead(g, crashes[|crashes| - 1][g.start])
    ensures var r := Recovered(g, crashes[|crashes| - 1]);
            && Entries(g, r[g.start]) == []
            && (i <= |lh| ==> SameHome(g, r, d))
            && (i > |lh| ==> IsPost(g, d, lh, data, r))
  {
    RepeatedCrashes(g, crashes);
    if i <= |lh| {
      CommitBeforeHead(g, d, lh, data, i);
    } else {
      CommitAfterHead(g, d, lh, data, i);
    }
  }

  /** The disks write_log leaves, one a write. */
  ghost function FillTrace(g: Geometry, d: Disk, data: seq<Block>): (t: seq<Disk>)
    requires g.Valid() && g.GoodDisk(d) && |data| <= g.Limit()
    ensures |t| == |data|
  {
    seq(|data|, k requires 0 <= k < |data| => LogFilled(g, d, data, k + 1))
  }

  /** The disks install_trans leaves, one a write. */
  ghost function InstallTrace(g: Geometry, d: Disk, lh: seq<int>): (t: seq<Disk>)
    requires g.Valid() && g.GoodDisk(d) && |lh| <= g.Limit() && AllHome(g, lh)
    ensures |t| == |lh|
  {
    seq(|lh|, k requires 0 <= k < |lh| => Installed(g, d, lh, k + 1))
  }

  ghost function CommitTrace(g: Geometry, d: Disk, lh: seq<int>, data: seq<Block>): (t: seq<Disk>)
    requires g.Valid() && g.GoodDisk(d) && |lh| == |data| <= g.Limit() && AllHome(g, lh)
    ensures |t| == 2 * |lh| + 2
  {
    seq(2 * |lh| + 2, i requires 0 <= i < 2 * |lh| + 2 => CommitState(g, d, lh, data, i + 1))
  }

  ghost function RecoveryTrace(g: Geometry, d: Disk): (t: seq<Disk>)
    requires g.Valid() && g.GoodDisk(d) && GoodHead(g, d[g.start])
    ensures |t| == d[g.start][0] + 1
  {
    seq(d[g.start][0] + 1, k requires 0 <= k < d[g.start][0] + 1 => RecoveryState(g, d, k + 1))
  }

  /** The pinned buffers left once the first k logged blocks are unpinned. */
  ghost function Unpinned(cache: map<int, Block>, lh: seq<int>, k: nat): (r: map<int, Block>)
    requires k <= |lh|
    ensures forall b :: b in r <==> b in cache && b !in lh[..k]
    ensures forall b :: b in r ==> r[b] == cache[b]
  {
    if k == 0 then cache
    else
      assert lh[..k] == lh[..k - 1] + [lh[k - 1]];
      Unpinned(cache, lh, k - 1) - {lh[k - 1]}
  }

  lemma CommitTraceAt(g: Geometry, d: Disk, lh: seq<int>, data: seq<Block>, filled: Disk, headed: Disk, all: Disk,
      t: seq<Disk>)
    requires g.Valid() && g.GoodDisk(d) && |lh| == |data| <= g.Limit() && AllHome(g, lh)
    requires filled == LogFilled(g, d, data, |data|)
    requires headed == filled[g.start := PutHead(filled[g.start], lh)]
    requires all == Installed(g, headed, lh, |lh|)
    requires t == FillTrace(g, d, data) + [headed] + InstallTrace(g, headed, lh)
             + [all[g.start := PutHead(all[g.start], [])]]
    ensures t == CommitTrace(g, d, lh, data)
  {
    forall i | 0 <= i < |t| ensures t[i] == CommitState(g, d, lh, data, i + 1) {
      var n := |lh|;
      if i < n {
        assert t[i] == FillTrace(g, d, data)[i];
      } else if n < i <= 2 * n {
        assert t[i] == InstallTrace(g, headed, lh)[i - n - 1];
      }
    }
  }

  /** log_write's effect on the in-memory header: absorb a repeated block, else append. */
  function Absorb(lh: seq<int>, b: int): (r: seq<int>)
    ensures b in r && lh <= r && |r| <= |lh| + 1
    ensures forall x :: x in r <==> x in lh || x == b
  {
    if b in lh then lh else lh + [b]
  }

  function Lookup(cache: map<int, Block>, d: Disk, b: int): (r: Block)
    requires 0 <= b < |d|
  {
    if b in cache then cache[b] else d[b]
  }

  ghost function Values(g: Geometry, cache: map<int, Block>, d: Disk, lh: seq<int>): (vs: seq<Block>)
    requires g.GoodDisk(d) && AllHome(g, lh)
    ensures |vs| == |lh|
  {
    seq(|lh|, i requires 0 <= i < |lh| => Lookup(cache, d, lh[i]))
  }

  /** struct log together with the disk under it and the pinned, modified buffers of the
      cache.  `trace` records the disk after every bwrite. */
  class Log {
    const g: Geometry
    var n: nat
    var block: array<int>
    var outstanding: nat
    var cache: map<int, Block>
    var disk: Disk
    ghost var trace: seq<Disk>

    ghost predicate Valid()
      reads this, block
    {
      && g.Valid() && g.GoodDisk(disk)
      && block.Length == g.cap
      && n <= g.Limit()
      && AllHome(g, block[..n])
      && (forall b :: b in cache ==> g.IsHome(b))
    }

    ghost function Logged(): (lh: seq<int>)
      requires n <= block.Length
      reads this, block
    {
      block[..n]
    }

    /** bread: the cached copy if there is one, else the disk. */
    function Bread(b: int): (r: Block)
      requires 0 <= b < |disk|
      reads this
    {
      Lookup(cache, disk, b)
    }

    method Bwrite(b: int, data: Block)
      requires 0 <= b < |disk|
      modifies this`disk, this`trace
      ensures disk == old(disk)[b := data] && trace == old(trace) + [disk]
    {
      disk := disk[b := data];
      trace := trace + [disk];
    }

    /** log_write on a buffer for b that now holds `data`; not ok is a panic.  The guard is
        tested before absorption, so a full header refuses even a block already logged. */
    method LogWrite(b: int, data: Block) returns (ok: bool)
      requires Valid() && g.IsHome(b)
      modifies this`n, this`cache, block
      ensures Valid()
      ensures ok <==> old(n) < g.Limit() && outstanding >= 1
      ensures !ok ==> n == old(n) && cache == old(cache) && block[..] == old(block[..])
      ensures ok ==> Logged() == Absorb(old(Logged()), b) && cache == old(cache)[b := data]
    {
      if n >= block.Length || n >= g.size - 1 {
        return false;
      }
      if outstanding < 1 {
        return false;
      }
      ghost var lh := Logged();
      var i := 0;
      while i < n
        invariant 0 <= i <= n
        invariant forall j :: 0 <= j < i ==> block[j] != b
      {
        if block[i] == b {
          break;
        }
        i := i + 1;
      }
      assert i < n ==> lh[i] == b;
      block[i] := b;
      if i == n {
        n := n + 1;
      }
      cache := cache[b := data];
      assert Logged() == Absorb(lh, b);
      ok := true;
    }

    /** One turn of write_log's loop. */
    method CopyOne(tail: nat, ghost data: seq<Block>, ghost d0: Disk)
      requires Valid() && tail < n && g.GoodDisk(d0) && data == Values(g, cache, d0, Logged())
      requires disk == LogFilled(g, d0, data, tail)
      modifies this`disk, this`trace
      ensures Valid() && disk == LogFilled(g, d0, data, tail + 1) && trace == old(trace) + [disk]
    {
      var from := Bread(block[tail]);
      assert from == data[tail] by { assert Logged()[tail] == block[tail]; assert g.IsHome(block[tail]); }
      Bwrite(g.start + tail + 1, from);
    }

    method WriteLog()
      requires Valid()
      modifies this`disk, this`trace
      ensures Valid()
      ensures disk == LogFilled(g, old(disk), Values(g, cache, old(disk), Logged()), n)
      ensures trace == old(trace) + FillTrace(g, old(disk), Values(g, cache, old(disk), Logged()))
    {
      ghost var data := Values(g, cache, disk, Logged());
      ghost var full := FillTrace(g, disk, data);
      var tail := 0;
      while tail < n
        invariant 0 <= tail <= n && Valid()
        invariant disk == LogFilled(g, old(disk), data, tail)
        invariant trace == old(trace) + full[..tail]
      {
        CopyOne(tail, data, old(disk));
        assert disk == full[tail];
        tail := tail + 1;
      }
      assert full[..n] == full;
    }

    method WriteHead()
      requires Valid()
      modifies this`disk, this`trace
      ensures Valid()
      ensures disk == old(disk)[g.start := PutHead(old(disk)[g.start], Logged())]
      ensures trace == old(trace) + [disk]
    {
      var hb := Bread(g.start);
      ghost var h0: Block := hb;
      var i := 0;
      hb := hb[0 := n];
      while i < n
        invariant 0 <= i <= n
        invariant hb[0] == n
        invariant forall j :: 0 <= j < i ==> hb[1 + j] == block[j]
        invariant forall j :: 1 + i <= j < WORDS ==> hb[j] == h0[j]
      {
        hb := hb[1 + i := block[i]];
        i := i + 1;
      }
      assert hb == PutHead(h0, Logged());
      Bwrite(g.start, hb);
    }

    method ReadHead()
      requires Valid() && GoodHead(g, disk[g.start])
      modifies this`n, block
      ensures Valid() && Logged() == Entries(g, disk[g.start])
    {
      var lh := Bread(g.start);
      n := lh[0];
      var i := 0;
      while i < n
        invariant 0 <= i <= n == lh[0] <= block.Length
        invariant forall j :: 0 <= j < i ==> block[j] == lh[1 + j]
      {
        block[i] := lh[1 + i];
        i := i + 1;
      }
      assert Logged() == Entries(g, disk[g.start]);
    }

    method InstallOne(tail: nat, recovering: bool)
      requires Valid() && tail < n
      modifies this`disk, this`trace, this`cache
      ensures Valid()
      ensures disk == old(disk)[block[tail] := old(disk)[g.start + tail + 1]]
      ensures trace == old(trace) + [disk]
      ensures cache == if recovering then old(cache) else old(cache) - {block[tail]}
    {
      assert Logged()[tail] == block[tail] && g.IsHome(block[tail]);
      var lbuf := Bread(g.start + tail + 1);
      Bwrite(block[tail], lbuf);
      if !recovering {
        cache := cache - {block[tail]};
      }
    }

    /** Copies log blocks home; unless recovering, unpins each destination. */
    method InstallTrans(recovering: bool)
      requires Valid()
      modifies this`disk, this`trace, this`cache
      ensures Valid()
      ensures disk == Installed(g, old(disk), Logged(), n)
      ensures trace == old(trace) + InstallTrace(g, old(disk), Logged())
      ensures cache == if recovering then old(cache) else Unpinned(old(cache), Logged(), n)
    {
      var tail := 0;
      ghost var lh := Logged();
      ghost var full := InstallTrace(g, disk, lh);
      while tail < n
        invariant 0 <= tail <= n && Valid() && Logged() == lh
        invariant disk == Installed(g, old(disk), lh, tail)
        invariant trace == old(trace) + full[..tail]
        invariant cache == if recovering then old(cache) else Unpinned(old(cache), lh, tail)
      {
        assert lh[tail] == block[tail];
        InstallOne(tail, recovering);
        assert disk == full[tail];
        tail := tail + 1;
      }
      assert lh[..n] == lh && full[..n] == full;
    }

    /** recover_from_log, run on a cold cache. */
    method RecoverFromLog()
      requires Valid() && GoodHead(g, disk[g.start]) && cache == map[]
      modifies this`n, this`disk, this`trace, this`cache, block
      ensures Valid() && n == 0
      ensures disk == Recovered(g, old(disk))
      ensures trace == old(trace) + RecoveryTrace(g, old(disk))
    {
      ReadHead();
      InstallTrans(true);
      n := 0;
      assert Logged() == [];
      WriteHead();
      assert trace == old(trace) + RecoveryTrace(g, old(disk));
    }

    /** Every disk state commit() passes through is the CommitState of its position. */
    method Commit()
      requires Valid() && GoodHead(g, disk[g.start]) && Entries(g, disk[g.start]) == []
      modifies this`n, this`disk, this`trace, this`cache
      ensures Valid() && n == 0
      ensures old(n) == 0 ==> disk == old(disk) && trace == old(trace)
      ensures old(n) > 0 ==>
                var lh, data := old(Logged()), Values(g, old(cache), old(disk), old(Logged()));
                && trace == old(trace) + CommitTrace(g, old(disk), lh, data)
                && disk == CommitState(g, old(disk), lh, data, 2 * |lh| + 2)
      ensures cache == Unpinned(old(cache), old(Logged()), old(n))
    {
      if n > 0 {
        ghost var lh, data := Logged(), Values(g, cache, disk, Logged());
        WriteLog();
        ghost var filled := disk;
        WriteHead();
        ghost var headed := disk;
        InstallTrans(false);
        ghost var all := disk;
        n := 0;
        assert Logged() == [];
        WriteHead();
        ghost var t := FillTrace(g, old(disk), data) + [headed] + InstallTrace(g, headed, lh) + [disk];
        assert trace == old(trace) + t;
        CommitTraceAt(g, old(disk), lh, data, filled, headed, all, t);
      }
    }
  }
}
