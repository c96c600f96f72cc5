// File system calls on top of the log: what a crash leaves of the files.  Calls may run side by
// side and mix their block writes; together they log what they change, and once they are over the
// blocks hold what the calls, one after the other in some order, would have left.

module CrashedFiles {
  import opened DiskBlocks
  import opened LogCache
  import opened LogCacheSafety
  import opened LogRuns
  import F = FsState
  import opened DiskImage

  /** The calls that are writing blocks, by their operations: what they will leave, and the blocks they log. */
  datatype Calls = Idle | Running(ops: set<Op>, after: F.Fs, blocks: set<nat>)

  /** The file system as the finished calls leave it, as the last commit holds it, and the calls under way. */
  datatype View = View(fs: F.Fs, durable: F.Fs, call: Calls)

  /** Two calls in a row are to the log like one call that logs the blocks of both. */
  lemma CallsCompose(L: F.Layout, a: F.Fs, b: F.Fs, c: F.Fs, log: set<nat>, more: set<nat>)
    requires F.FileCall(L, a, b, log) && F.FileCall(L, b, c, more)
    ensures F.FileCall(L, a, c, log + more)
  {
    forall k: nat | k < |a.blocks| ensures F.BlockTraced(a, c, log + more, k) {
      assert F.BlockTraced(a, b, log, k) && F.BlockTraced(b, c, more, k);
    }
    forall j: nat | j < |a.bitmap| ensures F.ByteTraced(L, a, c, log + more, j) {
      assert F.ByteTraced(L, a, b, log, j) && F.ByteTraced(L, b, c, more, j);
    }
    forall i: nat | i < |a.inodes| ensures F.InodeTraced(L, a, c, log + more, i) {
      assert F.InodeTraced(L, a, b, log, i) && F.InodeTraced(L, b, c, more, i);
    }
  }

  /** Some operation of a running call, other than `but`, is open. */
  ghost predicate Open(ops: map<Op, nat>, mine: set<Op>, but: set<Op>) {
    exists o :: o in mine && o in ops && o !in but
  }

  /** Calls begin, at least one of them inside its operation. */
  ghost predicate Starts(L: F.Layout, s: State, v: View, w: View) {
    && v.call.Idle? && w.call.Running? && w == v.(call := w.call)
    && Open(s.c.ops, w.call.ops, {}) && F.FileCall(L, v.fs, w.call.after, w.call.blocks)
  }

  /** They are over once every block they log has been logged with its final contents. */
  ghost predicate Ends(L: F.Layout, s: State, v: View, w: View) {
    && v.call.Running? && w == v.(fs := v.call.after, call := Idle) && s.c.g.GoodDisk(s.c.logical)
    && forall b: nat :: b in v.call.blocks ==> ShowsAt(L, s.c.g, s.c.logical, v.call.after, b)
  }

  /** What a step of the log and the cache is to the file system. */
  ghost predicate ViewStep(L: F.Layout, s: State, step: Step, v: View, w: View) {
    match step
    case LogWrite(h, i, op) =>
      && v.call.Running? && op in v.call.ops && w == v
      && i < |s.bufs| && s.bufs[i].key.Some? && s.bufs[i].key.value in v.call.blocks
    case EndOp(op) => (v.call.Running? ==> Open(s.c.ops, v.call.ops, {op})) && w == v
    case WriteHead(h, i) => w == v.(durable := v.fs)
    case Crash(crashes, cold) => w == View(v.durable, v.durable, Idle)
    case _ => w == v || Starts(L, s, v, w) || Ends(L, s, v, w)
  }

  /** Blocks the running calls do not log still hold the file system it found. */
  ghost predicate CallInv(L: F.Layout, s: State, v: View)
    requires v.call.Running? && s.c.g.GoodDisk(s.c.logical)
  {
    && Open(s.c.ops, v.call.ops, {}) && F.FileCall(L, v.fs, v.call.after, v.call.blocks)
    && forall b: nat {:trigger ShowsAt(L, s.c.g, s.c.logical, v.fs, b)} :: b !in v.call.blocks ==>
         ShowsAt(L, s.c.g, s.c.logical, v.fs, b)
  }

  ghost predicate Sized(L: F.Layout, fs: F.Fs) {
    |fs.blocks| == L.nblocks && |fs.bitmap| == BitmapBytes(L) && |fs.inodes| == L.ninodes
  }

  ghost predicate ViewInv(L: F.Layout, s: State, v: View) {
    && Inv(s) && Fits(L, s.c.g) && F.Sane(L, v.fs) && F.Sane(L, v.durable) && Sized(L, v.fs)
    && Shows(L, s.c.g, s.c.committed, v.durable)
    && (v.call.Idle? ==> Shows(L, s.c.g, s.c.logical, v.fs))
    && (v.call.Running? ==> CallInv(L, s, v))
  }

  // ---------------------------------------------------------------- one step

  lemma ShowsSameHome(L: F.Layout, g: Geometry, d: Disk, e: Disk, fs: F.Fs)
    requires Shows(L, g, d, fs) && g.Valid() && g.GoodDisk(e) && SameHome(g, e, d)
    ensures Shows(L, g, e, fs)
  {
    forall b: nat ensures ShowsAt(L, g, e, fs, b) {
      assert ShowsAt(L, g, d, fs, b);
    }
  }

  lemma KeepWrite(L: F.Layout, s: State, t: State, step: Step, v: View)
    requires ViewInv(L, s, v) && NextStep(s, t, step) && step.LogWrite? && ViewStep(L, s, step, v, v) && Inv(t)
    ensures ViewInv(L, t, v)
  {
    var k := s.bufs[step.i].key.value;
    forall b: nat | b !in v.call.blocks ensures ShowsAt(L, t.c.g, t.c.logical, v.fs, b) {
      assert ShowsAt(L, s.c.g, s.c.logical, v.fs, b);
    }
  }

  lemma KeepCommit(L: F.Layout, s: State, t: State, step: Step, v: View, w: View)
    requires ViewInv(L, s, v) && NextStep(s, t, step) && step.WriteHead? && ViewStep(L, s, step, v, w) && Inv(t)
    ensures ViewInv(L, t, w) && v.call.Idle?
  {
    assert s.c.ops == map[];
  }

  lemma KeepCrash(L: F.Layout, s: State, t: State, step: Step, v: View, w: View)
    requires ViewInv(L, s, v) && NextStep(s, t, step) && step.Crash? && ViewStep(L, s, step, v, w) && Inv(t)
    ensures ViewInv(L, t, w)
  {
  }

  /** Calls that end leave the array holding the file system they promised. */
  lemma CallDone(L: F.Layout, s: State, v: View, w: View)
    requires ViewInv(L, s, v) && Ends(L, s, v, w)
    ensures ViewInv(L, s, w)
  {
    var g, d := s.c.g, s.c.logical;
    forall b: nat ensures ShowsAt(L, g, d, w.fs, b) {
      if b !in v.call.blocks && g.IsHome(b) {
        assert ShowsAt(L, g, d, v.fs, b);
        UntouchedShows(L, v.fs, w.fs, v.call.blocks, d[b], b);
      }
    }
  }

  lemma CallBegun(L: F.Layout, s: State, v: View, w: View)
    requires ViewInv(L, s, v) && Starts(L, s, v, w)
    ensures ViewInv(L, s, w)
  {
  }

  /** Steps that change neither the array nor what is committed nor who is running. */
  lemma KeepOther(L: F.Layout, s: State, t: State, v: View)
    requires ViewInv(L, s, v) && Inv(t) && t.c.g == s.c.g && t.c.logical == s.c.logical
    requires t.c.committed == s.c.committed
    requires v.call.Running? ==> Open(t.c.ops, v.call.ops, {})
    ensures ViewInv(L, t, v)
  {
    if v.call.Running? {
      forall b: nat | b !in v.call.blocks ensures ShowsAt(L, t.c.g, t.c.logical, v.fs, b) {
        assert ShowsAt(L, s.c.g, s.c.logical, v.fs, b);
      }
    }
  }

  ghost predicate Quiet(step: Step) {
    !step.LogWrite? && !step.WriteHead? && !step.Crash?
  }

  lemma QuietStep(s: State, t: State, step: Step)
    requires Inv(s) && NextStep(s, t, step) && Quiet(step)
    ensures t.c.g == s.c.g && t.c.logical == s.c.logical && t.c.committed == s.c.committed
    ensures forall o :: o in s.c.ops && step != EndOp(o) ==> o in t.c.ops
  {
  }

  lemma KeepQuiet(L: F.Layout, s: State, t: State, step: Step, v: View, w: View)
    requires ViewInv(L, s, v) && NextStep(s, t, step) && Quiet(step) && ViewStep(L, s, step, v, w) && Inv(t)
    ensures ViewInv(L, t, w)
  {
    QuietStep(s, t, step);
    if Starts(L, s, v, w) {
      CallBegun(L, s, v, w);
    } else if Ends(L, s, v, w) {
      CallDone(L, s, v, w);
    }
    if w.call.Running? {
      var gone := if step.EndOp? then {step.op} else {};
      assert Open(s.c.ops, w.call.ops, gone);
      var o :| o in w.call.ops && o in s.c.ops && o !in gone;
      assert o in t.c.ops && Open(t.c.ops, w.call.ops, {});
    }
    KeepOther(L, s, t, w);
  }

  lemma StepKeepsView(L: F.Layout, s: State, t: State, step: Step, v: View, w: View)
    requires ViewInv(L, s, v) && NextStep(s, t, step) && ViewStep(L, s, step, v, w)
    ensures ViewInv(L, t, w)
  {
    NextInv(s, t, step);
    if step.LogWrite? {
      KeepWrite(L, s, t, step, v);
    } else if step.WriteHead? {
      KeepCommit(L, s, t, step, v, w);
    } else if step.Crash? {
      KeepCrash(L, s, t, step, v, w);
    } else {
      KeepQuiet(L, s, t, step, v, w);
    }
  }

  // ---------------------------------------------------------------- whole runs

  /** A run, with what each step is to a file system that was on the disk to begin with. */
  ghost predicate IsFileRun(L: F.Layout, ss: seq<State>, steps: seq<Step>, vs: seq<View>) {
    && IsRun(ss, steps) && |vs| == |ss| && Fits(L, ss[0].c.g)
    && vs[0] == View(vs[0].fs, vs[0].fs, Idle) && F.Sane(L, vs[0].fs) && Shows(L, ss[0].c.g, ss[0].c.disk, vs[0].fs)
    && forall k :: 0 <= k < |steps| ==> ViewStep(L, ss[k], steps[k], vs[k], vs[k + 1])
  }

  lemma {:induction false} RunView(L: F.Layout, ss: seq<State>, steps: seq<Step>, vs: seq<View>, k: nat)
    requires IsFileRun(L, ss, steps, vs) && k < |ss|
    ensures ViewInv(L, ss[k], vs[k])
  {
    if k == 0 {
      InitInv(ss[0]);
      ShowsSameHome(L, ss[0].c.g, ss[0].c.disk, ss[0].c.logical, vs[0].fs);
      ShowsSameHome(L, ss[0].c.g, ss[0].c.disk, ss[0].c.committed, vs[0].fs);
    } else {
      RunView(L, ss, steps, vs, k - 1);
      assert NextStep(ss[k - 1], ss[k - 1 + 1], steps[k - 1]);
      assert ViewStep(L, ss[k - 1], steps[k - 1], vs[k - 1], vs[k - 1 + 1]);
      StepKeepsView(L, ss[k - 1], ss[k], steps[k - 1], vs[k - 1], vs[k]);
    }
  }

  lemma RunStep(L: F.Layout, ss: seq<State>, steps: seq<Step>, vs: seq<View>, k: nat)
    requires IsFileRun(L, ss, steps, vs) && 0 < k < |ss|
    ensures NextStep(ss[k - 1], ss[k], steps[k - 1]) && ViewStep(L, ss[k - 1], steps[k - 1], vs[k - 1], vs[k])
  {
    assert NextStep(ss[k - 1], ss[k - 1 + 1], steps[k - 1]);
    assert ViewStep(L, ss[k - 1], steps[k - 1], vs[k - 1], vs[k - 1 + 1]);
  }

  /** At a commit no call is under way, and what is there becomes durable. */
  lemma CommitTakesAll(L: F.Layout, ss: seq<State>, steps: seq<Step>, vs: seq<View>, k: nat)
    requires IsFileRun(L, ss, steps, vs) && 0 < k < |ss| && steps[k - 1].WriteHead?
    ensures vs[k].durable == vs[k].fs && vs[k].call.Idle?
  {
    RunStep(L, ss, steps, vs, k);
    RunView(L, ss, steps, vs, k - 1);
    RunView(L, ss, steps, vs, k);
    KeepCommit(L, ss[k - 1], ss[k], steps[k - 1], vs[k - 1], vs[k]);
  }

  lemma DurableStep(L: F.Layout, s: State, step: Step, v: View, w: View)
    requires ViewStep(L, s, step, v, w) && !step.WriteHead?
    ensures w.durable == v.durable
  {
  }

  /** Between commits, what is durable does not change. */
  lemma {:induction false} DurableSince(L: F.Layout, ss: seq<State>, steps: seq<Step>, vs: seq<View>, j: nat, k: nat)
    requires IsFileRun(L, ss, steps, vs) && j <= k < |ss| && (forall m :: j <= m < k ==> !steps[m].WriteHead?)
    ensures vs[k].durable == vs[j].durable
    decreases k - j
  {
    if j < k {
      DurableSince(L, ss, steps, vs, j, k - 1);
      assert ViewStep(L, ss[k - 1], steps[k - 1], vs[k - 1], vs[k - 1 + 1]);
      DurableStep(L, ss[k - 1], steps[k - 1], vs[k - 1], vs[k - 1 + 1]);
    }
  }

  /** After a crash anywhere in a run, recovery leaves a disk that holds the file system exactly as
      the calls finished before the last commit left it: consistent, and with those contents. */
  lemma CrashKeepsFiles(L: F.Layout, ss: seq<State>, steps: seq<Step>, vs: seq<View>, k: nat) returns (j: nat)
    requires IsFileRun(L, ss, steps, vs) && k < |ss|
    ensures LastSync(ss, steps, j, k) && vs[j].call.Idle? && F.Sane(L, vs[j].fs)
    ensures Inv(ss[k]) && Shows(L, ss[k].c.g, Recovered(ss[k].c.g, ss[k].c.disk), vs[j].fs)
  {
    j := FindLastSync(ss, steps, k);
    DurableSince(L, ss, steps, vs, j, k);
    if j > 0 {
      CommitTakesAll(L, ss, steps, vs, j);
    }
    RunView(L, ss, steps, vs, j);
    RunView(L, ss, steps, vs, k);
    CrashGivesCommitted(ss[k].c);
    ShowsSameHome(L, ss[k].c.g, ss[k].c.committed, Recovered(ss[k].c.g, ss[k].c.disk), vs[j].fs);
  }
}
