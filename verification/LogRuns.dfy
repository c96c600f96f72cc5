// Whole runs of the log-and-cache machine refine a plain array of blocks with a durable copy.

module LogRuns {
  import opened DiskBlocks
  import opened LogCache
  import opened LogCacheSafety

  /** The simple machine: `now` is what reads see, `durable` what a power loss falls back to. */
  datatype Array = Array(now: Disk, durable: Disk)

  datatype Event =
    | Nop
    | Read(b: nat, v: Block)
    | Write(b: nat, v: Block)
    | Sync(open: set<Op>)
    | PowerLoss(home: Disk)

  ghost predicate ArrayStep(g: Geometry, a: Array, a': Array, e: Event) {
    && g.GoodDisk(a.now) && g.GoodDisk(a.durable)
    && match e
       case Nop => a' == a
       case Read(b, v) => a' == a && b < g.nblocks && (g.IsHome(b) ==> v == a.now[b])
       case Write(b, v) => g.IsHome(b) && a' == a.(now := a.now[b := v])
       case Sync(open) => open == {} && a' == a.(durable := a.now)
       case PowerLoss(home) => a' == a.(now := a.durable) && g.GoodDisk(home) && SameHome(g, home, a.durable)
  }

  ghost function Abs(s: State): Array { Array(s.c.logical, s.c.committed) }

  /** A bread returns when its sleep lock is taken on a valid buffer, or when the load ends. */
  ghost function EventOf(s: State, t: State, step: Step): Event
    requires NextStep(s, t, step)
  {
    match step
    case Load(h, i) => Read(t.bufs[i].key.value, t.bufs[i].data)
    case Acquire(h, i) =>
      if t.bufs[i].valid && t.bufs[i].key.Some? then Read(t.bufs[i].key.value, t.bufs[i].data) else Nop
    case LogWrite(h, i, op) => Write(s.bufs[i].key.value, s.bufs[i].data)
    case WriteHead(h, i) => Sync(s.c.ops.Keys)
    case Crash(crashes, cold) => PowerLoss(t.c.disk)
    case _ => Nop
  }

  /** Every bread returns the latest logged value; a sync happens only between operations;
      a crash brings back exactly the array of the last sync. */
  lemma StepRefines(s: State, t: State, step: Step)
    requires Inv(s) && NextStep(s, t, step)
    ensures Inv(t) && t.c.g == s.c.g
    ensures ArrayStep(s.c.g, Abs(s), Abs(t), EventOf(s, t, step))
  {
    NextInv(s, t, step);
    match step
    case Load(h, i) =>
      assert BufOk(t.c, t.bufs[i]);
      assert BufOk(s.c, s.bufs[i]);
    case Acquire(h, i) =>
      assert BufOk(t.c, t.bufs[i]);
      assert BufOk(s.c, s.bufs[i]);
    case Crash(crashes, cold) =>
      CrashGivesCommitted(s.c);
      RepeatedCrashes(s.c.g, crashes);
    case _ =>
  }

  ghost predicate IsRun(ss: seq<State>, steps: seq<Step>) {
    && |ss| == |steps| + 1 && Init(ss[0])
    && forall k :: 0 <= k < |steps| ==> NextStep(ss[k], ss[k + 1], steps[k])
  }

  ghost predicate RefinesAt(ss: seq<State>, steps: seq<Step>, k: nat)
    requires k < |steps| && |ss| == |steps| + 1
  {
    && NextStep(ss[k], ss[k + 1], steps[k])
    && ArrayStep(ss[0].c.g, Abs(ss[k]), Abs(ss[k + 1]), EventOf(ss[k], ss[k + 1], steps[k]))
  }

  lemma {:induction false} RunInv(ss: seq<State>, steps: seq<Step>, k: nat)
    requires IsRun(ss, steps) && k < |ss|
    ensures Inv(ss[k]) && ss[k].c.g == ss[0].c.g
  {
    if k == 0 {
      InitInv(ss[0]);
    } else {
      RunInv(ss, steps, k - 1);
      assert NextStep(ss[k - 1], ss[k], steps[k - 1]);
      StepRefines(ss[k - 1], ss[k], steps[k - 1]);
    }
  }

  /** Every run, crashes included, is a run of the plain array. */
  lemma RunRefines(ss: seq<State>, steps: seq<Step>)
    requires IsRun(ss, steps)
    ensures forall k :: 0 <= k < |steps| ==> RefinesAt(ss, steps, k)
  {
    forall k | 0 <= k < |steps| ensures RefinesAt(ss, steps, k) {
      RunInv(ss, steps, k);
      StepRefines(ss[k], ss[k + 1], steps[k]);
    }
  }

  /** State j is where the durable array of state k was captured: the start, or a commit
      point at which no operation was open, with no later commit point before k. */
  ghost predicate LastSync(ss: seq<State>, steps: seq<Step>, j: nat, k: nat)
    requires |ss| == |steps| + 1
  {
    && j <= k < |ss|
    && (j > 0 ==> steps[j - 1].WriteHead? && ss[j].c.ops == map[])
    && (forall m :: j <= m < k ==> !steps[m].WriteHead?)
    && (j > 0 ==> ss[k].c.committed == ss[j].c.logical)
    && (j == 0 ==> ss[k].c.committed == ss[0].c.committed)
  }

  lemma CommitPoint(s: State, t: State, step: Step)
    requires Inv(s) && NextStep(s, t, step)
    ensures step.WriteHead? ==> t.c.ops == map[] && t.c.committed == t.c.logical
    ensures !step.WriteHead? ==> t.c.committed == s.c.committed
  {
  }

  lemma CommitAt(ss: seq<State>, steps: seq<Step>, k: nat)
    requires IsRun(ss, steps) && 0 < k < |ss|
    ensures steps[k - 1].WriteHead? ==> ss[k].c.ops == map[] && ss[k].c.committed == ss[k].c.logical
    ensures !steps[k - 1].WriteHead? ==> ss[k].c.committed == ss[k - 1].c.committed
  {
    assert NextStep(ss[k - 1], ss[k], steps[k - 1]);
    RunInv(ss, steps, k - 1);
    CommitPoint(ss[k - 1], ss[k], steps[k - 1]);
  }

  lemma LastSyncHere(ss: seq<State>, steps: seq<Step>, k: nat)
    requires |ss| == |steps| + 1 && 0 < k < |ss| && steps[k - 1].WriteHead?
    requires ss[k].c.ops == map[] && ss[k].c.committed == ss[k].c.logical
    ensures LastSync(ss, steps, k, k)
  {
  }

  lemma LastSyncKept(ss: seq<State>, steps: seq<Step>, j: nat, k: nat)
    requires |ss| == |steps| + 1 && 0 < k < |ss| && LastSync(ss, steps, j, k - 1)
    requires !steps[k - 1].WriteHead? && ss[k].c.committed == ss[k - 1].c.committed
    ensures LastSync(ss, steps, j, k)
  {
  }

  lemma {:induction false} FindLastSync(ss: seq<State>, steps: seq<Step>, k: nat) returns (j: nat)
    requires IsRun(ss, steps) && k < |ss|
    ensures LastSync(ss, steps, j, k)
  {
    if k == 0 {
      return 0;
    }
    CommitAt(ss, steps, k);
    if steps[k - 1].WriteHead? {
      j := k;
      LastSyncHere(ss, steps, k);
    } else {
      j := FindLastSync(ss, steps, k - 1);
      LastSyncKept(ss, steps, j, k);
    }
  }

  /** After a crash in any reachable state, recovery yields the array as it stood at the last
      commit point, when every operation begun before it had ended: the operations of a
      group survive together or not at all. */
  lemma CrashYieldsLastSync(ss: seq<State>, steps: seq<Step>, k: nat) returns (j: nat)
    requires IsRun(ss, steps) && k < |ss|
    ensures LastSync(ss, steps, j, k)
    ensures Inv(ss[k]) && Inv(ss[j]) && ss[j].c.g == ss[k].c.g
    ensures SameHome(ss[k].c.g, Recovered(ss[k].c.g, ss[k].c.disk), ss[j].c.logical)
  {
    j := FindLastSync(ss, steps, k);
    RunInv(ss, steps, k);
    RunInv(ss, steps, j);
    CrashGivesCommitted(ss[k].c);
    assert SameHome(ss[0].c.g, ss[0].c.committed, ss[0].c.logical);
  }

  /** Pinning: a buffer bget may recycle never holds the only copy of a logged value. */
  lemma RecycledHasCopyOnDisk(s: State, t: State, h: Handle, i: nat, b: nat)
    requires Inv(s) && StepGetMiss(s, t, h, i, b)
    ensures s.bufs[i].dirty.None?
    ensures s.bufs[i].key.Some? ==>
              && s.bufs[i].key.value !in Pins(s.c)
              && s.bufs[i].key.value < |s.c.disk|
              && s.c.disk[s.bufs[i].key.value] == View(s.c, s.bufs[i].key.value)
  {
    assert BufOk(s.c, s.bufs[i]);
  }

  /** bread finds at most one buffer, and the count on it is uses plus its pin. */
  lemma ReferencesCounted(ss: seq<State>, steps: seq<Step>, k: nat, i: nat)
    requires IsRun(ss, steps) && k < |ss| && i < |ss[k].bufs|
    ensures var b := ss[k].bufs[i];
            && b.refcnt == |b.refs| + (if b.key.Some? && b.key.value in Pins(ss[k].c) then 1 else 0)
            && (b.lock.Some? ==> b.lock.value in b.refs)
            && (forall j :: 0 <= j < |ss[k].bufs| && j != i && b.key.Some? ==> ss[k].bufs[j].key != b.key)
  {
    RunInv(ss, steps, k);
    assert BufOk(ss[k].c, ss[k].bufs[i]);
  }
}
