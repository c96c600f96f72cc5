// What holds in every reachable state of the process machine.

module ProcessRuns {
  import opened Processes
  import opened ProcessSteps

  lemma ForkKeepsInv(s: State, e: ForkStep)
    requires Inv(s) && CanFork(s, e)
    ensures Inv(DoFork(s, e))
  {
    var r := DoFork(s, e);
    ForkFirst(s, e);
    ForkHolders(s, e);
    forall p: nat | p < |r.procs|
      ensures ThreadOk(r, p) && AccountOk(r, p) && WaitOk(r, p) && HartOk(r, p) && ForkOk(r, p) && ParentOk(r, p)
      ensures ScanOk(r, p) && SleeperOk(r, p)
    {
      ForkAt(s, e, p);
    }
    forall k: nat, p: nat | k < |r.lock| && p < |r.procs| ensures LockOk(r, k, p) {
      ForkLock(s, e, k, p);
    }
    forall p: nat, q: nat | p < |r.procs| && q < |r.procs| && p != q ensures OwnChild(r, p, q) {
      ForkApart(s, e, p, q);
    }
    forall c: nat | c < |r.cpus| ensures CpuOk(r, c) {
      assert CpuOk(s, c);
    }
  }

  lemma WaitKeepsInv(s: State, e: WaitStep)
    requires Inv(s) && CanWait(s, e)
    ensures Inv(DoWait(s, e))
  {
    var r := DoWait(s, e);
    WaitFirst(s, e);
    WaitHolders(s, e);
    forall p: nat | p < |r.procs|
      ensures ThreadOk(r, p) && AccountOk(r, p) && WaitOk(r, p) && HartOk(r, p) && ForkOk(r, p) && ParentOk(r, p)
      ensures ScanOk(r, p) && SleeperOk(r, p)
    {
      WaitAt(s, e, p);
    }
    forall k: nat, p: nat | k < |r.lock| && p < |r.procs| ensures LockOk(r, k, p) {
      WaitLock(s, e, k, p);
    }
    forall p: nat, q: nat | p < |r.procs| && q < |r.procs| && p != q ensures OwnChild(r, p, q) {
      WaitApart(s, e, p, q);
    }
    forall c: nat | c < |r.cpus| ensures CpuOk(r, c) {
      assert CpuOk(s, c);
    }
  }

  lemma ReparentKeepsInv(s: State, e: ReparentStep)
    requires Inv(s) && CanReparent(s, e)
    ensures Inv(DoReparent(s, e))
  {
    var r := DoReparent(s, e);
    ReparentFirst(s, e);
    ReparentHolders(s, e);
    forall p: nat | p < |r.procs|
      ensures ThreadOk(r, p) && AccountOk(r, p) && WaitOk(r, p) && HartOk(r, p) && ForkOk(r, p) && ParentOk(r, p)
      ensures ScanOk(r, p) && SleeperOk(r, p)
    {
      ReparentAt(s, e, p);
    }
    forall k: nat, p: nat | k < |r.lock| && p < |r.procs| ensures LockOk(r, k, p) {
      ReparentLock(s, e, k, p);
    }
    forall p: nat, q: nat | p < |r.procs| && q < |r.procs| && p != q ensures OwnChild(r, p, q) {
      ReparentApart(s, e, p, q);
    }
    forall c: nat | c < |r.cpus| ensures CpuOk(r, c) {
      assert CpuOk(s, c);
    }
  }

  lemma ExitKeepsInv(s: State, e: ExitStep)
    requires Inv(s) && CanExit(s, e)
    ensures Inv(DoExit(s, e))
  {
    var r := DoExit(s, e);
    ExitFirst(s, e);
    ExitHolders(s, e);
    forall p: nat | p < |r.procs|
      ensures ThreadOk(r, p) && AccountOk(r, p) && WaitOk(r, p) && HartOk(r, p) && ForkOk(r, p) && ParentOk(r, p)
      ensures ScanOk(r, p) && SleeperOk(r, p)
    {
      ExitAt(s, e, p);
    }
    forall k: nat, p: nat | k < |r.lock| && p < |r.procs| ensures LockOk(r, k, p) {
      ExitLock(s, e, k, p);
    }
    forall p: nat, q: nat | p < |r.procs| && q < |r.procs| && p != q ensures OwnChild(r, p, q) {
      ExitApart(s, e, p, q);
    }
    forall c: nat | c < |r.cpus| ensures CpuOk(r, c) {
      assert CpuOk(s, c);
    }
  }

  lemma SchedKeepsInv(s: State, e: SchedStep)
    requires Inv(s) && CanSched(s, e)
    ensures Inv(DoSched(s, e))
  {
    var r := DoSched(s, e);
    SchedFirst(s, e);
    SchedHolders(s, e);
    forall p: nat | p < |r.procs|
      ensures ThreadOk(r, p) && AccountOk(r, p) && WaitOk(r, p) && HartOk(r, p) && ForkOk(r, p) && ParentOk(r, p)
      ensures ScanOk(r, p) && SleeperOk(r, p)
    {
      SchedAt(s, e, p);
    }
    forall k: nat, p: nat | k < |r.lock| && p < |r.procs| ensures LockOk(r, k, p) {
      SchedLock(s, e, k, p);
    }
    forall p: nat, q: nat | p < |r.procs| && q < |r.procs| && p != q ensures OwnChild(r, p, q) {
      SchedApart(s, e, p, q);
    }
    forall c: nat | c < |r.cpus| ensures CpuOk(r, c) {
      SchedCpu(s, e, c);
    }
  }

  lemma StepKeepsInv(s: State, e: Step)
    requires Inv(s) && Enabled(s, e)
    ensures Inv(Apply(s, e))
  {
    match e
    case Fork(f) => ForkKeepsInv(s, f);
    case Wait(w) => WaitKeepsInv(s, w);
    case Reparent(r) => ReparentKeepsInv(s, r);
    case Exit(x) => ExitKeepsInv(s, x);
    case Sched(c) => SchedKeepsInv(s, c);
  }

  ghost predicate IsRun(ss: seq<State>, es: seq<Step>) {
    && |ss| == |es| + 1 && Init(ss[0])
    && forall n :: 0 <= n < |es| ==> Shape(ss[n]) && Enabled(ss[n], es[n]) && ss[n + 1] == Apply(ss[n], es[n])
  }

  lemma {:induction false} RunInv(ss: seq<State>, es: seq<Step>, n: nat)
    requires IsRun(ss, es) && n < |ss|
    ensures Inv(ss[n])
  {
    if n == 0 {
      InitInv(ss[0]);
    } else {
      RunInv(ss, es, n - 1);
      StepKeepsInv(ss[n - 1], es[n - 1]);
      assert ss[n - 1 + 1] == Apply(ss[n - 1], es[n - 1]);
    }
  }

  // ---------------------------------------------------------------- exit and wait

  /** No parent pointer ever refers to a slot that is unused or has exited. */
  lemma ParentsAreAlive(ss: seq<State>, es: seq<Step>, n: nat, q: nat)
    requires IsRun(ss, es) && n < |ss| && q < |ss[n].procs| && ss[n].procs[q].parent.Some?
    ensures var p := ss[n].procs[q].parent.value;
            p < |ss[n].procs| && ss[n].procs[p].st != Zombie && ss[n].procs[p].st != Unused
  {
    RunInv(ss, es, n);
    assert ParentOk(ss[n], q);
  }

  /** Whenever wait_lock is free, nobody sleeps in wait while a child is already a zombie. */
  lemma NoSleeperHasZombie(ss: seq<State>, es: seq<Step>, n: nat, p: nat, q: nat)
    requires IsRun(ss, es) && n < |ss| && ss[n].wait == None && p < |ss[n].procs| && q < |ss[n].procs|
    requires ss[n].procs[p].st == Sleeping && Deep(ss[n].procs[p].pc) == WaitAgain && ss[n].procs[q].parent == Some(p)
    ensures ss[n].procs[q].st != Zombie
  {
    RunInv(ss, es, n);
    assert SleeperOk(ss[n], q);
  }

  predicate Leaves(x: St, y: St) { (x == Zombie && y != Zombie) || (x != Unused && y == Unused) }

  lemma ReparentLeaves(s: State, e: ReparentStep, k: nat)
    requires Shape(s) && CanReparent(s, e) && k < |s.procs|
    ensures !Leaves(s.procs[k].st, DoReparent(s, e).procs[k].st)
  {
  }

  lemma ExitLeaves(s: State, e: ExitStep, k: nat)
    requires Shape(s) && CanExit(s, e) && k < |s.procs|
    ensures !Leaves(s.procs[k].st, DoExit(s, e).procs[k].st)
  {
  }

  lemma SchedLeaves(s: State, e: SchedStep, k: nat)
    requires Shape(s) && CanSched(s, e) && k < |s.procs| && ThreadOk(s, k)
    ensures !Leaves(s.procs[k].st, DoSched(s, e).procs[k].st)
  {
  }

  lemma ForkLeaves(s: State, e: ForkStep, k: nat)
    requires Shape(s) && CanFork(s, e) && k < |s.procs| && ForkOk(s, e.p)
    requires Leaves(s.procs[k].st, DoFork(s, e).procs[k].st)
    ensures e.ForkFail? && s.procs[k].st == Used
  {
  }

  lemma WaitLeaves(s: State, e: WaitStep, k: nat)
    requires Shape(s) && CanWait(s, e) && k < |s.procs| && ThreadOk(s, k)
    requires Leaves(s.procs[k].st, DoWait(s, e).procs[k].st)
    ensures e.WaitReap? && s.procs[k].st == Zombie && s.procs[k].parent == Some(e.p) && s.lock[k] == None
    ensures DoWait(s, e).procs[k].st == Unused
  {
  }

  /** A slot leaves use, or a zombie changes, only in a failed fork or when its current parent reaps it. */
  lemma HowSlotsLeave(s: State, e: Step, k: nat)
    requires Inv(s) && Enabled(s, e) && k < |s.procs| && Leaves(s.procs[k].st, Apply(s, e).procs[k].st)
    ensures (s.procs[k].st == Used && e.Fork? && e.f.ForkFail?)
            || (s.procs[k].st == Zombie && e.Wait? && e.w.WaitReap? && s.procs[k].parent == Some(e.w.p)
               && s.lock[k] == None
                && Apply(s, e).procs[k].st == Unused)
  {
    match e
    case Fork(f) =>
      assert ForkOk(s, f.p);
      ForkLeaves(s, f, k);
    case Wait(w) =>
      assert ThreadOk(s, k);
      WaitLeaves(s, w, k);
    case Reparent(r) => ReparentLeaves(s, r, k);
    case Exit(x) => ExitLeaves(s, x, k);
    case Sched(c) =>
      assert ThreadOk(s, k);
      SchedLeaves(s, c, k);
  }

  /** A zombie leaves the table only when the parent it has then reaps it, holding wait_lock. */
  lemma OnlyTheParentReaps(s: State, e: Step, k: nat)
    requires Inv(s) && Enabled(s, e) && k < |s.procs|
    requires s.procs[k].st == Zombie && Apply(s, e).procs[k].st != Zombie
    ensures s.procs[k].parent.Some? && e == Wait(WaitReap(s.procs[k].parent.value)) && Apply(s, e).procs[k].st == Unused
    ensures s.wait == s.procs[k].parent
  {
    HowSlotsLeave(s, e, k);
    assert WaitOk(s, e.w.p);
  }

  /** Every exit of a slot's occupant has been reaped exactly once, except a current zombie's, not yet. */
  lemma ReapedOnce(ss: seq<State>, es: seq<Step>, n: nat, k: nat)
    requires IsRun(ss, es) && n < |ss| && k < |ss[n].procs|
    ensures Shape(ss[n]) && ss[n].acct[k].reaps <= ss[n].acct[k].exits <= ss[n].acct[k].reaps + 1
    ensures ss[n].acct[k].exits == ss[n].acct[k].reaps + 1 <==> ss[n].procs[k].st == Zombie
  {
    RunInv(ss, es, n);
    assert AccountOk(ss[n], k);
  }

  /** A slot given back is no CPU's c->proc. */
  lemma FreedOffCpu(s: State, e: Step, k: nat, c: nat)
    requires Inv(s) && Enabled(s, e) && k < |s.procs| && c < |s.cpus|
    requires s.procs[k].st != Unused && Apply(s, e).procs[k].st == Unused
    ensures s.cpus[c] != Some(k) && Apply(s, e).cpus == s.cpus
  {
    HowSlotsLeave(s, e, k);
    assert ThreadOk(s, k) && HartOk(s, k) && CpuOk(s, c) && LockOk(s, k, k);
  }

  // ---------------------------------------------------------------- dispatch

  /** A process whose lock is free is RUNNING exactly when it is some CPU's c->proc. */
  lemma DispatchSafe(ss: seq<State>, es: seq<Step>, n: nat, p: nat)
    requires IsRun(ss, es) && n < |ss| && p < |ss[n].procs|
    ensures Shape(ss[n])
    ensures ss[n].lock[p] == None ==> (ss[n].procs[p].st == Running <==> exists c: nat ::
            c < |ss[n].cpus| && ss[n].cpus[c] == Some(p))
    ensures forall c: nat, d: nat ::
              c < |ss[n].cpus| && d < |ss[n].cpus| && ss[n].cpus[c] == Some(p) && ss[n].cpus[d] == Some(p) ==> c == d
  {
    RunInv(ss, es, n);
    var s := ss[n];
    assert ThreadOk(s, p) && HartOk(s, p) && LockOk(s, p, p);
    forall c: nat | c < |s.cpus| && s.cpus[c] == Some(p) ensures s.hart[p] == Some(c) {
      assert CpuOk(s, c);
    }
    if s.hart[p].Some? {
      assert s.cpus[s.hart[p].value] == Some(p);
    }
  }

  // ---------------------------------------------------------------- times

  const WORD := 0x1_0000_0000

  /** Subtraction of uint values. */
  function Sub32(a: nat, b: nat): (r: nat)
    requires a < WORD && b < WORD
    ensures r < WORD
  {
    (a - b + WORD) % WORD
  }

  lemma Sub32Exact(a: nat, b: nat)
    requires b <= a && a - b < WORD
    ensures Sub32(a % WORD, b % WORD) == a - b
  {
    var x, y := a / WORD, b / WORD;
    assert a == x * WORD + a % WORD && b == y * WORD + b % WORD;
  }

  /** The wrapped subtractions of exit give the true times, and the waiting time is never negative. */
  lemma ExitTimes(ss: seq<State>, es: seq<Step>, n: nat, p: nat)
    requires IsRun(ss, es) && n < |es| && es[n] == Exit(ExitZombie(p))
    ensures p < |ss[n].procs| && Shape(ss[n])
    ensures var a := ss[n].acct[p];
            a.born + a.run <= ss[n].ticks
            && (ss[n].ticks - a.born < WORD ==>
                  var turnaround := Sub32(ss[n].ticks % WORD, a.born % WORD);
                  var waiting := Sub32(turnaround, a.run % WORD);
                  turnaround == ss[n].ticks - a.born && waiting == turnaround - a.run)
  {
    assert Enabled(ss[n], es[n]);
    RunInv(ss, es, n);
    assert AccountOk(ss[n], p);
    var a := ss[n].acct[p];
    if ss[n].ticks - a.born < WORD {
      Sub32Exact(ss[n].ticks, a.born);
      var turnaround := ss[n].ticks - a.born;
      assert turnaround % WORD == turnaround && a.run % WORD == a.run;
      Sub32Exact(turnaround, a.run);
    }
  }
}
