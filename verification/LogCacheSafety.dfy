// What every step of the log-and-cache machine keeps, and what follows for whole runs.

module LogCacheSafety {
  import opened DiskBlocks
  import opened RedoLog
  import opened LogCache

  /** Only buffer i changed, and nothing the other buffers are judged by did. */
  lemma FrameBufs(s: State, t: State, i: nat, bi: Buf)
    requires Shape(s.c) && CacheInv(s) && Shape(t.c) && i < |s.bufs|
    requires t.bufs == s.bufs[i := bi] && t.c.g == s.c.g
    requires Pins(t.c) == Pins(s.c) && t.c.ops.Keys >= s.c.ops.Keys
    requires forall b :: 0 <= b < |s.c.disk| && s.bufs[i].key != Some(b) ==> View(t.c, b) == View(s.c, b)
    requires BufOk(t.c, bi)
    requires bi.key == s.bufs[i].key || (bi.key.Some? && Uncached(s, bi.key.value))
    requires s.bufs[i].key.Some? && s.bufs[i].key.value in Pins(s.c) && s.bufs[i].valid ==>
             bi.key == s.bufs[i].key && bi.valid
    ensures CacheInv(t)
  {
    forall k | 0 <= k < |t.bufs| ensures BufOk(t.c, t.bufs[k]) {
      if k != i {
        assert BufOk(s.c, s.bufs[k]);
        assert s.bufs[k].key.Some? ==> s.bufs[k].key != s.bufs[i].key;
      }
    }
    PinsKept(s, t, i, bi);
  }

  lemma PinsKept(s: State, t: State, i: nat, bi: Buf)
    requires Shape(s.c) && CacheInv(s) && i < |s.bufs|
    requires t.bufs == s.bufs[i := bi]
    requires forall b :: b in Pins(t.c) ==> b in Pins(s.c)
    requires s.bufs[i].key.Some? && s.bufs[i].key.value in Pins(s.c) && s.bufs[i].valid ==>
             bi.key == s.bufs[i].key && bi.valid
    ensures forall b :: b in Pins(t.c) ==> Pinned(t.bufs, b)
  {
    forall b | b in Pins(t.c) ensures Pinned(t.bufs, b) {
      assert Pinned(s.bufs, b);
      var k :| 0 <= k < |s.bufs| && Caches(s.bufs[k], b);
      assert Caches(t.bufs[k], b);
    }
  }

  /** A step that changes one buffer and nothing else. */
  lemma BufStep(s: State, t: State, i: nat, bi: Buf)
    requires Inv(s) && i < |s.bufs| && t == Put(s, i, bi)
    requires BufOk(s.c, bi)
    requires bi.key == s.bufs[i].key || (bi.key.Some? && Uncached(s, bi.key.value))
    requires s.bufs[i].key.Some? && s.bufs[i].key.value in Pins(s.c) && s.bufs[i].valid ==>
             bi.key == s.bufs[i].key && bi.valid
    ensures Inv(t)
  {
    FrameBufs(s, t, i, bi);
  }

  lemma KeepGetHit(s: State, t: State, h: Handle, i: nat)
    requires Inv(s) && StepGetHit(s, t, h, i)
    ensures Inv(t)
  {
    assert BufOk(s.c, s.bufs[i]);
    BufStep(s, t, i, t.bufs[i]);
  }

  lemma UncachedUnpinned(s: State, b: nat)
    requires Inv(s) && Uncached(s, b)
    ensures b !in Pins(s.c)
  {
    if Pinned(s.bufs, b) {
      assert false;
    }
  }

  lemma KeepGetMiss(s: State, t: State, h: Handle, i: nat, b: nat)
    requires Inv(s) && StepGetMiss(s, t, h, i, b)
    ensures Inv(t)
  {
    assert BufOk(s.c, s.bufs[i]);
    UncachedUnpinned(s, b);
    assert s.bufs[i].refs == {};
    BufStep(s, t, i, t.bufs[i]);
  }

  lemma KeepAcquire(s: State, t: State, h: Handle, i: nat)
    requires Inv(s) && StepAcquire(s, t, h, i)
    ensures Inv(t)
  {
    assert BufOk(s.c, s.bufs[i]);
    BufStep(s, t, i, t.bufs[i]);
  }

  /** A block whose buffer is not valid has its latest value on the disk. */
  lemma InvalidIsHome(s: State, i: nat)
    requires Inv(s) && i < |s.bufs| && s.bufs[i].key.Some? && !s.bufs[i].valid
    ensures s.bufs[i].key.value < |s.c.disk|
    ensures s.c.disk[s.bufs[i].key.value] == View(s.c, s.bufs[i].key.value)
  {
    assert BufOk(s.c, s.bufs[i]);
    var b := s.bufs[i].key.value;
    assert !Pinned(s.bufs, b);
  }

  lemma KeepLoad(s: State, t: State, h: Handle, i: nat)
    requires Inv(s) && StepLoad(s, t, h, i)
    ensures Inv(t)
  {
    assert BufOk(s.c, s.bufs[i]);
    InvalidIsHome(s, i);
    BufStep(s, t, i, t.bufs[i]);
  }

  lemma KeepModify(s: State, t: State, h: Handle, i: nat, op: Op, v: Block)
    requires Inv(s) && StepModify(s, t, h, i, op, v)
    ensures Inv(t)
  {
    assert BufOk(s.c, s.bufs[i]);
    BufStep(s, t, i, t.bufs[i]);
  }

  lemma KeepRelease(s: State, t: State, h: Handle, i: nat)
    requires Inv(s) && StepRelease(s, t, h, i)
    ensures Inv(t)
  {
    assert BufOk(s.c, s.bufs[i]);
    BufStep(s, t, i, t.bufs[i]);
  }

  /** The buffers stay and what they are judged by does too. */
  lemma SameBufs(s: State, t: State)
    requires Shape(s.c) && CacheInv(s) && Shape(t.c)
    requires t.bufs == s.bufs && t.c.g == s.c.g && t.c.disk == s.c.disk && t.c.logical == s.c.logical
    requires Pins(t.c) == Pins(s.c)
    requires forall i :: 0 <= i < |s.bufs| && s.bufs[i].dirty.Some? ==> s.bufs[i].dirty.value in t.c.ops
    ensures CacheInv(t)
  {
    forall k | 0 <= k < |t.bufs| ensures BufOk(t.c, t.bufs[k]) {
      assert BufOk(s.c, s.bufs[k]);
    }
  }

  lemma KeepBeginOp(s: State, t: State, op: Op)
    requires Inv(s) && StepBeginOp(s, t, op)
    ensures Inv(t)
  {
    UnusedRemove(t.c.ops, t.c.maxop, op);
    assert t.c.ops - {op} == s.c.ops;
    UnusedBounds(s.c.ops, s.c.maxop);
    TimesSucc(|s.c.ops|, s.c.maxop);
    forall i | 0 <= i < |s.bufs| && s.bufs[i].dirty.Some? ensures s.bufs[i].dirty.value in t.c.ops {
      assert BufOk(s.c, s.bufs[i]);
    }
    SameBufs(s, t);
  }

  lemma KeepEndOp(s: State, t: State, op: Op)
    requires Inv(s) && StepEndOp(s, t, op)
    ensures Inv(t)
  {
    UnusedRemove(s.c.ops, s.c.maxop, op);
    UnusedBounds(s.c.ops - {op}, s.c.maxop);
    assert s.c.phase.Logging?;
    forall i | 0 <= i < |s.bufs| && s.bufs[i].dirty.Some? ensures s.bufs[i].dirty.value in t.c.ops {
      assert BufOk(s.c, s.bufs[i]);
    }
    SameBufs(s, t);
  }

  lemma KeepForget(s: State, t: State)
    requires Inv(s) && StepForget(s, t)
    ensures Inv(t)
  {
    assert Pins(s.c) == [] == Pins(t.c);
    forall i | 0 <= i < |s.bufs| && s.bufs[i].dirty.Some? ensures s.bufs[i].dirty.value in t.c.ops {
      assert BufOk(s.c, s.bufs[i]);
    }
    SameBufs(s, t);
  }

  lemma KeepFinish(s: State, t: State)
    requires Inv(s) && StepFinish(s, t)
    ensures Inv(t)
  {
    forall i | 0 <= i < |s.bufs| && s.bufs[i].dirty.Some? ensures s.bufs[i].dirty.value in t.c.ops {
      assert BufOk(s.c, s.bufs[i]);
    }
    SameBufs(s, t);
  }

  lemma AbsorbDistinct(lh: seq<int>, b: int)
    requires Distinct(lh)
    ensures Distinct(Absorb(lh, b))
  {
  }

  lemma LogWriteCore(s: State, t: State, h: Handle, i: nat, op: Op)
    requires Inv(s) && StepLogWrite(s, t, h, i, op)
    ensures CoreInv(t.c) && s.c.phase.Logging?
  {
    var b := s.bufs[i].key.value;
    AbsorbDistinct(s.c.lh, b);
    if b !in s.c.lh {
      UnusedRemove(s.c.ops, s.c.maxop, op);
      UnusedRemove(t.c.ops, s.c.maxop, op);
      assert t.c.ops - {op} == s.c.ops - {op};
    }
  }

  lemma KeepLogWrite(s: State, t: State, h: Handle, i: nat, op: Op)
    requires Inv(s) && StepLogWrite(s, t, h, i, op)
    ensures Inv(t)
  {
    LogWriteCore(s, t, h, i, op);
    var b := s.bufs[i].key.value;
    assert BufOk(s.c, s.bufs[i]);
    forall k | 0 <= k < |t.bufs| ensures BufOk(t.c, t.bufs[k]) {
      assert BufOk(s.c, s.bufs[k]);
      if k != i {
        assert s.bufs[k].key != Some(b);
      }
    }
    forall x | x in Pins(t.c) ensures Pinned(t.bufs, x) {
      if x == b {
        assert Caches(t.bufs[i], b);
      } else {
        assert Pinned(s.bufs, x);
        var k :| 0 <= k < |s.bufs| && Caches(s.bufs[k], x);
        assert Caches(t.bufs[k], x);
      }
    }
  }

  /** No operation runs during a commit, so every valid buffer shows the current view. */
  lemma CleanDuringCommit(s: State, i: nat)
    requires Inv(s) && !s.c.phase.Logging? && i < |s.bufs| && s.bufs[i].valid
    ensures s.bufs[i].dirty.None? && s.bufs[i].key.Some? && s.bufs[i].key.value < |s.c.disk|
    ensures s.bufs[i].data == View(s.c, s.bufs[i].key.value)
  {
    assert BufOk(s.c, s.bufs[i]);
  }

  lemma KeepFill(s: State, t: State, h: Handle, i: nat, hj: Handle, j: nat)
    requires Inv(s) && StepFill(s, t, h, i, hj, j)
    ensures Inv(t)
  {
    CleanDuringCommit(s, i);
    CleanDuringCommit(s, j);
    var at := s.c.g.start + 1 + s.c.phase.tail;
    assert s.c.g.IsHome(s.c.lh[s.c.phase.tail]);
    assert t.c.disk[t.c.g.start] == s.c.disk[s.c.g.start];
    assert BufOk(s.c, s.bufs[i]);
    FrameBufs(s, t, i, t.bufs[i]);
  }

  lemma KeepWriteHead(s: State, t: State, h: Handle, i: nat)
    requires Inv(s) && StepWriteHead(s, t, h, i)
    ensures Inv(t)
  {
    CleanDuringCommit(s, i);
    HeadRoundTrip(s.c.g, s.bufs[i].data, s.c.lh);
    assert Pins(t.c) == Pins(s.c);
    assert BufOk(s.c, s.bufs[i]);
    FrameBufs(s, t, i, t.bufs[i]);
  }

  lemma KeepClearHead(s: State, t: State, h: Handle, i: nat)
    requires Inv(s) && StepClearHead(s, t, h, i)
    ensures Inv(t)
  {
    CleanDuringCommit(s, i);
    HeadRoundTrip(s.c.g, s.bufs[i].data, []);
    assert BufOk(s.c, s.bufs[i]);
    FrameBufs(s, t, i, t.bufs[i]);
  }

  lemma InstallPins(s: State, t: State, h: Handle, i: nat, hj: Handle, j: nat)
    requires Inv(s) && StepInstall(s, t, h, i, hj, j)
    ensures forall b :: b in Pins(s.c) <==> b in Pins(t.c) || b == s.c.lh[s.c.phase.tail]
    ensures s.c.lh[s.c.phase.tail] !in Pins(t.c)
  {
    var tail := s.c.phase.tail;
    assert Pins(s.c) == [s.c.lh[tail]] + Pins(t.c);
  }

  /** The log buffer being installed holds the logical value of its block. */
  lemma InstallValue(s: State, t: State, h: Handle, i: nat, hj: Handle, j: nat)
    requires Inv(s) && StepInstall(s, t, h, i, hj, j)
    ensures s.c.g.IsHome(s.c.lh[s.c.phase.tail]) && s.bufs[i].data == s.c.logical[s.c.lh[s.c.phase.tail]]
  {
    CleanDuringCommit(s, i);
    assert s.c.g.IsHome(s.c.lh[s.c.phase.tail]);
  }

  lemma InstallOne(c: Core, d: Core, at: int)
    requires CoreInv(c) && c.phase.Installing? && c.phase.tail < |c.lh| && at == c.lh[c.phase.tail] && c.g.IsHome(at)
    requires d == c.(disk := c.disk[at := c.logical[at]], phase := Installing(c.phase.tail + 1))
    requires forall b :: b in Pins(c) <==> b in Pins(d) || b == at
    ensures CoreInv(d)
  {
    assert d.disk[d.g.start] == c.disk[c.g.start];
  }

  lemma InstallCore(s: State, t: State, h: Handle, i: nat, hj: Handle, j: nat)
    requires Inv(s) && StepInstall(s, t, h, i, hj, j)
    ensures CoreInv(t.c)
    ensures s.bufs[i].data == s.c.logical[s.c.lh[s.c.phase.tail]]
  {
    InstallValue(s, t, h, i, hj, j);
    InstallPins(s, t, h, i, hj, j);
    InstallOne(s.c, t.c, s.c.lh[s.c.phase.tail]);
  }

  lemma InstallBuf(s: State, t: State, h: Handle, i: nat, hj: Handle, j: nat, k: nat)
    requires Inv(s) && StepInstall(s, t, h, i, hj, j) && Shape(t.c) && k < |t.bufs|
    requires s.bufs[i].data == s.c.logical[s.c.lh[s.c.phase.tail]]
    ensures BufOk(t.c, t.bufs[k])
  {
    CleanDuringCommit(s, j);
    InstallPins(s, t, h, i, hj, j);
    assert s.c.g.IsHome(s.c.lh[s.c.phase.tail]);
    assert BufOk(s.c, s.bufs[k]);
    if k != j {
      assert s.bufs[k].key.Some? ==> s.bufs[k].key != s.bufs[j].key;
    }
  }

  lemma KeepInstall(s: State, t: State, h: Handle, i: nat, hj: Handle, j: nat)
    requires Inv(s) && StepInstall(s, t, h, i, hj, j)
    ensures Inv(t)
  {
    InstallCore(s, t, h, i, hj, j);
    forall k | 0 <= k < |t.bufs| ensures BufOk(t.c, t.bufs[k]) {
      InstallBuf(s, t, h, i, hj, j, k);
    }
    InstallPins(s, t, h, i, hj, j);
    PinsKept(s, t, j, t.bufs[j]);
  }

  lemma LoggedValue(g: Geometry, d: Disk, logical: Disk, head: seq<int>, b: int)
    requires g.Valid() && g.GoodDisk(d) && g.GoodDisk(logical) && |head| <= g.Limit() && AllHome(g, head)
    requires LogHolds(g, d, logical, head, |head|) && g.IsHome(b) && b in head
    ensures Installed(g, d, head, |head|)[b] == logical[b]
  {
    assert head[..|head|] == head;
    InstalledValue(g, d, head, |head|, b, logical[b]);
  }

  lemma UnloggedValue(g: Geometry, d: Disk, head: seq<int>, b: int)
    requires g.Valid() && g.GoodDisk(d) && |head| <= g.Limit() && AllHome(g, head) && g.IsHome(b) && b !in head
    ensures Installed(g, d, head, |head|)[b] == d[b]
  {
    assert head[..|head|] == head;
    InstalledFrame(g, d, head, |head|, b);
  }

  /** What the header and the phase say of a block, logged or not. */
  lemma CommittedIs(c: Core, head: seq<int>, b: int)
    requires CoreInv(c) && head == Entries(c.g, c.disk[c.g.start]) && c.g.IsHome(b)
    ensures AllHome(c.g, head) && |head| <= c.g.Limit()
    ensures b in head ==> LogHolds(c.g, c.disk, c.logical, head, |head|) && c.committed[b] == c.logical[b]
    ensures b !in head ==> c.committed[b] == c.disk[b]
  {
  }

  /** A logged block gets its logical value, which is the committed one once the header is out. */
  lemma CrashedBlock(c: Core, head: seq<int>, b: int)
    requires CoreInv(c) && head == Entries(c.g, c.disk[c.g.start]) && c.g.IsHome(b)
    ensures Installed(c.g, c.disk, head, |head|)[b] == c.committed[b]
  {
    CommittedIs(c, head, b);
    if b in head {
      LoggedValue(c.g, c.disk, c.logical, head, b);
    } else {
      UnloggedValue(c.g, c.disk, head, b);
    }
  }

  /** What a crash in this state recovers to. */
  lemma CrashGivesCommitted(c: Core)
    requires CoreInv(c)
    ensures SameHome(c.g, Recovered(c.g, c.disk), c.committed)
  {
    forall b | c.g.IsHome(b) ensures Recovered(c.g, c.disk)[b] == c.committed[b] {
      CrashedBlock(c, Entries(c.g, c.disk[c.g.start]), b);
    }
  }

  lemma KeepCrash(s: State, t: State, crashes: seq<Disk>, cold: seq<Buf>)
    requires Inv(s) && StepCrash(s, t, crashes, cold)
    ensures Inv(t)
  {
    CrashGivesCommitted(s.c);
    RepeatedCrashes(s.c.g, crashes);
    assert SameHome(s.c.g, t.c.disk, s.c.committed);
    forall k | 0 <= k < |t.bufs| ensures BufOk(t.c, t.bufs[k]) {
      assert ColdBuf(cold[k], t.c.disk);
    }
  }

  lemma InitInv(s: State)
    requires Init(s)
    ensures Inv(s)
  {
    forall k | 0 <= k < |s.bufs| ensures BufOk(s.c, s.bufs[k]) {
      assert ColdBuf(s.bufs[k], s.c.disk);
    }
  }

  lemma NextInv(s: State, t: State, step: Step)
    requires Inv(s) && NextStep(s, t, step)
    ensures Inv(t)
  {
    match step
    case BeginOp(op) => KeepBeginOp(s, t, op);
    case EndOp(op) => KeepEndOp(s, t, op);
    case GetHit(h, i) => KeepGetHit(s, t, h, i);
    case GetMiss(h, i, b) => KeepGetMiss(s, t, h, i, b);
    case Acquire(h, i) => KeepAcquire(s, t, h, i);
    case Load(h, i) => KeepLoad(s, t, h, i);
    case Modify(h, i, op, v) => KeepModify(s, t, h, i, op, v);
    case LogWrite(h, i, op) => KeepLogWrite(s, t, h, i, op);
    case Release(h, i) => KeepRelease(s, t, h, i);
    case Fill(h, i, hj, j) => KeepFill(s, t, h, i, hj, j);
    case WriteHead(h, i) => KeepWriteHead(s, t, h, i);
    case Install(h, i, hj, j) => KeepInstall(s, t, h, i, hj, j);
    case Forget => KeepForget(s, t);
    case ClearHead(h, i) => KeepClearHead(s, t, h, i);
    case Finish => KeepFinish(s, t);
    case Crash(crashes, cold) => KeepCrash(s, t, crashes, cold);
  }
}
