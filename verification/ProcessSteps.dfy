// Each step of the process machine keeps each part of its invariant.

module ProcessSteps {
  import opened Processes

  lemma ForkThread(s: State, e: ForkStep, p: nat)
    requires Shape(s) && CanFork(s, e)
    requires p < |s.procs| && ThreadOk(s, p)
    requires ForkOk(s, e.p)
    ensures ThreadOk(DoFork(s, e), p)
  {
  }

  lemma WaitThread(s: State, e: WaitStep, p: nat)
    requires Shape(s) && CanWait(s, e)
    requires p < |s.procs| && ThreadOk(s, p)
    ensures ThreadOk(DoWait(s, e), p)
  {
  }

  lemma ReparentThread(s: State, e: ReparentStep, p: nat)
    requires Shape(s) && CanReparent(s, e)
    requires p < |s.procs| && ThreadOk(s, p)
    requires InitOk(s)
    ensures ThreadOk(DoReparent(s, e), p)
  {
  }

  lemma ExitThread(s: State, e: ExitStep, p: nat)
    requires Shape(s) && CanExit(s, e)
    requires p < |s.procs| && ThreadOk(s, p)
    ensures ThreadOk(DoExit(s, e), p)
  {
  }

  lemma SchedThread(s: State, e: SchedStep, p: nat)
    requires Shape(s) && CanSched(s, e)
    requires p < |s.procs| && ThreadOk(s, p)
    ensures ThreadOk(DoSched(s, e), p)
  {
  }

  lemma ForkLock(s: State, e: ForkStep, k: nat, p: nat)
    requires Shape(s) && CanFork(s, e)
    requires Threads(s) && k < |s.lock| && p < |s.procs| && LockOk(s, k, p)
    requires ForkOk(s, e.p) && LockOk(s, k, e.p)
    ensures LockOk(DoFork(s, e), k, p)
  {
    var np := if e.ForkAlloc? then e.np else s.procs[e.p].pc.np;
    assert ThreadOk(s, e.p) && ThreadOk(s, np);
  }

  lemma WaitLock(s: State, e: WaitStep, k: nat, p: nat)
    requires Shape(s) && CanWait(s, e)
    requires Threads(s) && k < |s.lock| && p < |s.procs| && LockOk(s, k, p)
    requires LockOk(s, k, e.p)
    ensures LockOk(DoWait(s, e), k, p)
  {
    if e.WaitReap? {
      assert ThreadOk(s, s.procs[e.p].pc.i);
    }
    assert ThreadOk(s, e.p);
  }

  lemma ReparentLock(s: State, e: ReparentStep, k: nat, p: nat)
    requires Shape(s) && CanReparent(s, e)
    requires Threads(s) && k < |s.lock| && p < |s.procs| && LockOk(s, k, p)
    ensures LockOk(DoReparent(s, e), k, p)
  {
    assert ThreadOk(s, e.p);
  }

  lemma ExitLock(s: State, e: ExitStep, k: nat, p: nat)
    requires Shape(s) && CanExit(s, e)
    requires Threads(s) && k < |s.lock| && p < |s.procs| && LockOk(s, k, p)
    ensures LockOk(DoExit(s, e), k, p)
  {
    assert ThreadOk(s, e.p);
  }

  lemma SchedLock(s: State, e: SchedStep, k: nat, p: nat)
    requires Shape(s) && CanSched(s, e)
    requires Threads(s) && k < |s.lock| && p < |s.procs| && LockOk(s, k, p)
    requires (e.CpuReturn? ==> LockOk(s, k, s.cpus[e.c].value)) && (e.Resume? ==> LockOk(s, k, e.p))
    ensures LockOk(DoSched(s, e), k, p)
  {
    if e.CpuReturn? {
      assert ThreadOk(s, s.cpus[e.c].value);
    } else if e.Resume? || e.Dispatch? || e.Yield? || e.SleepElsewhere? {
      assert ThreadOk(s, e.p);
    }
  }

  lemma ForkWaitLock(s: State, e: ForkStep, p: nat)
    requires Shape(s) && CanFork(s, e)
    requires Threads(s) && p < |s.procs| && WaitOk(s, p)
    requires ForkOk(s, e.p)
    ensures WaitOk(DoFork(s, e), p)
  {
    var np := if e.ForkAlloc? then e.np else s.procs[e.p].pc.np;
    assert ThreadOk(s, e.p) && ThreadOk(s, np);
  }

  lemma WaitWaitLock(s: State, e: WaitStep, p: nat)
    requires Shape(s) && CanWait(s, e)
    requires Threads(s) && p < |s.procs| && WaitOk(s, p)
    requires WaitOk(s, e.p)
    ensures WaitOk(DoWait(s, e), p)
  {
    if e.WaitReap? {
      assert ThreadOk(s, s.procs[e.p].pc.i);
    }
    assert ThreadOk(s, e.p);
  }

  lemma ReparentWaitLock(s: State, e: ReparentStep, p: nat)
    requires Shape(s) && CanReparent(s, e)
    requires Threads(s) && p < |s.procs| && WaitOk(s, p)
    ensures WaitOk(DoReparent(s, e), p)
  {
    assert ThreadOk(s, e.p);
  }

  lemma ExitWaitLock(s: State, e: ExitStep, p: nat)
    requires Shape(s) && CanExit(s, e)
    requires Threads(s) && p < |s.procs| && WaitOk(s, p)
    requires WaitOk(s, e.p)
    ensures WaitOk(DoExit(s, e), p)
  {
    assert ThreadOk(s, e.p);
  }

  lemma SchedWaitLock(s: State, e: SchedStep, p: nat)
    requires Shape(s) && CanSched(s, e)
    requires Threads(s) && p < |s.procs| && WaitOk(s, p)
    ensures WaitOk(DoSched(s, e), p)
  {
    if e.CpuReturn? {
      assert ThreadOk(s, s.cpus[e.c].value);
    } else if e.Resume? || e.Dispatch? || e.Yield? || e.SleepElsewhere? {
      assert ThreadOk(s, e.p);
    }
  }

  lemma ForkHart(s: State, e: ForkStep, p: nat)
    requires Shape(s) && CanFork(s, e)
    requires Threads(s) && p < |s.procs| && HartOk(s, p)
    requires ForkOk(s, e.p)
    ensures HartOk(DoFork(s, e), p)
  {
    var np := if e.ForkAlloc? then e.np else s.procs[e.p].pc.np;
    assert ThreadOk(s, e.p) && ThreadOk(s, np);
  }

  lemma WaitHart(s: State, e: WaitStep, p: nat)
    requires Shape(s) && CanWait(s, e)
    requires Threads(s) && p < |s.procs| && HartOk(s, p)
    requires e.WaitReap? ==> LockOk(s, s.procs[e.p].pc.i, s.procs[e.p].pc.i)
    ensures HartOk(DoWait(s, e), p)
  {
    if e.WaitReap? {
      assert ThreadOk(s, s.procs[e.p].pc.i);
    }
    assert ThreadOk(s, e.p);
  }

  lemma ReparentHart(s: State, e: ReparentStep, p: nat)
    requires Shape(s) && CanReparent(s, e)
    requires Threads(s) && p < |s.procs| && HartOk(s, p)
    ensures HartOk(DoReparent(s, e), p)
  {
    assert ThreadOk(s, e.p);
  }

  lemma ExitHart(s: State, e: ExitStep, p: nat)
    requires Shape(s) && CanExit(s, e)
    requires Threads(s) && p < |s.procs| && HartOk(s, p)
    ensures HartOk(DoExit(s, e), p)
  {
    assert ThreadOk(s, e.p);
  }

  lemma SchedHart(s: State, e: SchedStep, p: nat)
    requires Shape(s) && CanSched(s, e)
    requires Threads(s) && p < |s.procs| && HartOk(s, p)
    requires e.CpuReturn? ==> CpuOk(s, e.c)
    ensures HartOk(DoSched(s, e), p)
  {
    if e.CpuReturn? {
      assert ThreadOk(s, s.cpus[e.c].value);
    } else if e.Resume? || e.Dispatch? || e.Yield? || e.SleepElsewhere? {
      assert ThreadOk(s, e.p);
    }
  }

  lemma SchedCpu(s: State, e: SchedStep, c: nat)
    requires Shape(s) && CanSched(s, e)
    requires c < |s.cpus| && CpuOk(s, c) && (e.CpuReturn? ==> CpuOk(s, e.c)) && (e.Dispatch? ==> HartOk(s, e.p))
    ensures CpuOk(DoSched(s, e), c)
  {
  }

  lemma ForkAccount(s: State, e: ForkStep, p: nat)
    requires Shape(s) && CanFork(s, e)
    requires Threads(s) && p < |s.procs| && AccountOk(s, p)
    requires ForkOk(s, e.p)
    ensures AccountOk(DoFork(s, e), p)
  {
    var np := if e.ForkAlloc? then e.np else s.procs[e.p].pc.np;
    assert ThreadOk(s, e.p) && ThreadOk(s, np);
  }

  lemma WaitAccount(s: State, e: WaitStep, p: nat)
    requires Shape(s) && CanWait(s, e)
    requires Threads(s) && p < |s.procs| && AccountOk(s, p)
    ensures AccountOk(DoWait(s, e), p)
  {
    if e.WaitReap? {
      assert ThreadOk(s, s.procs[e.p].pc.i);
    }
    assert ThreadOk(s, e.p);
  }

  lemma ReparentAccount(s: State, e: ReparentStep, p: nat)
    requires Shape(s) && CanReparent(s, e)
    requires Threads(s) && p < |s.procs| && AccountOk(s, p)
    ensures AccountOk(DoReparent(s, e), p)
  {
    assert ThreadOk(s, e.p);
  }

  lemma ExitAccount(s: State, e: ExitStep, p: nat)
    requires Shape(s) && CanExit(s, e)
    requires Threads(s) && p < |s.procs| && AccountOk(s, p)
    ensures AccountOk(DoExit(s, e), p)
  {
    assert ThreadOk(s, e.p);
  }

  lemma SchedAccount(s: State, e: SchedStep, p: nat)
    requires Shape(s) && CanSched(s, e)
    requires Threads(s) && p < |s.procs| && AccountOk(s, p)
    ensures AccountOk(DoSched(s, e), p)
  {
    if e.CpuReturn? {
      assert ThreadOk(s, s.cpus[e.c].value);
    } else if e.Resume? || e.Dispatch? || e.Yield? || e.SleepElsewhere? {
      assert ThreadOk(s, e.p);
    }
  }

  lemma ForkForkedOther(s: State, e: ForkStep, p: nat)
    requires Shape(s) && CanFork(s, e)
    requires Threads(s) && p < |s.procs| && ForkOk(s, p) && ForkOk(s, e.p) && p != e.p && OwnChild(s, p, e.p)
    ensures ForkOk(DoFork(s, e), p)
  {
    var np := if e.ForkAlloc? then e.np else s.procs[e.p].pc.np;
    assert ThreadOk(s, e.p) && ThreadOk(s, np);
    if Forking(Deep(s.procs[p].pc)) {
      assert Deep(s.procs[p].pc).np != np && Deep(s.procs[p].pc).np != e.p by {
        assert ThreadOk(s, Deep(s.procs[p].pc).np);
      }
    }
  }

  lemma ForkForked(s: State, e: ForkStep, p: nat)
    requires Shape(s) && CanFork(s, e)
    requires Threads(s) && p < |s.procs| && ForkOk(s, p) && ForkOk(s, e.p) && (p != e.p ==> OwnChild(s, p, e.p))
    ensures ForkOk(DoFork(s, e), p)
  {
    if p != e.p {
      ForkForkedOther(s, e, p);
    } else {
      assert ThreadOk(s, p) && ThreadOk(s, if e.ForkAlloc? then e.np else s.procs[p].pc.np);
    }
  }

  lemma WaitForked(s: State, e: WaitStep, p: nat)
    requires Shape(s) && CanWait(s, e)
    requires Threads(s) && p < |s.procs| && ForkOk(s, p)
    ensures ForkOk(DoWait(s, e), p)
  {
    if e.WaitReap? {
      assert ThreadOk(s, s.procs[e.p].pc.i);
    }
    assert ThreadOk(s, e.p);
    if Forking(Deep(s.procs[p].pc)) {
      assert ThreadOk(s, Deep(s.procs[p].pc).np);
    }
  }

  lemma ReparentForked(s: State, e: ReparentStep, p: nat)
    requires Shape(s) && CanReparent(s, e)
    requires Threads(s) && p < |s.procs| && ForkOk(s, p)
    ensures ForkOk(DoReparent(s, e), p)
  {
    assert ThreadOk(s, e.p);
  }

  lemma ExitForked(s: State, e: ExitStep, p: nat)
    requires Shape(s) && CanExit(s, e)
    requires Threads(s) && p < |s.procs| && ForkOk(s, p)
    ensures ForkOk(DoExit(s, e), p)
  {
    assert ThreadOk(s, e.p);
  }

  lemma SchedDeep(s: State, e: SchedStep, j: nat)
    requires Shape(s) && CanSched(s, e)
    requires j < |s.procs| && ThreadOk(s, j)
    ensures var x, y := s.procs[j], DoSched(s, e).procs[j];
            y.parent == x.parent && (x.st == Used ==> y.st == Used)
              && (Deep(y.pc) == Deep(x.pc) || !Forking(Deep(y.pc)))
  {
  }

  lemma SchedForked(s: State, e: SchedStep, p: nat)
    requires Shape(s) && CanSched(s, e)
    requires Threads(s) && p < |s.procs| && ForkOk(s, p)
    ensures ForkOk(DoSched(s, e), p)
  {
    assert ThreadOk(s, p);
    SchedDeep(s, e, p);
    if Forking(Deep(s.procs[p].pc)) {
      var np := Deep(s.procs[p].pc).np;
      assert ThreadOk(s, np);
      SchedDeep(s, e, np);
    }
  }

  lemma ForkApart(s: State, e: ForkStep, p: nat, q: nat)
    requires Shape(s) && CanFork(s, e)
    requires Threads(s) && p < |s.procs| && q < |s.procs| && p != q && OwnChild(s, p, q)
    requires ForkOk(s, e.p) && ForkOk(s, p) && ForkOk(s, q)
    ensures OwnChild(DoFork(s, e), p, q)
  {
    var np := if e.ForkAlloc? then e.np else s.procs[e.p].pc.np;
    assert ThreadOk(s, e.p) && ThreadOk(s, np);
  }

  lemma WaitApart(s: State, e: WaitStep, p: nat, q: nat)
    requires Shape(s) && CanWait(s, e)
    requires Threads(s) && p < |s.procs| && q < |s.procs| && p != q && OwnChild(s, p, q)
    ensures OwnChild(DoWait(s, e), p, q)
  {
    if e.WaitReap? {
      assert ThreadOk(s, s.procs[e.p].pc.i);
    }
    assert ThreadOk(s, e.p);
  }

  lemma ReparentApart(s: State, e: ReparentStep, p: nat, q: nat)
    requires Shape(s) && CanReparent(s, e)
    requires Threads(s) && p < |s.procs| && q < |s.procs| && p != q && OwnChild(s, p, q)
    ensures OwnChild(DoReparent(s, e), p, q)
  {
    assert ThreadOk(s, e.p);
  }

  lemma ExitApart(s: State, e: ExitStep, p: nat, q: nat)
    requires Shape(s) && CanExit(s, e)
    requires Threads(s) && p < |s.procs| && q < |s.procs| && p != q && OwnChild(s, p, q)
    ensures OwnChild(DoExit(s, e), p, q)
  {
    assert ThreadOk(s, e.p);
  }

  lemma SchedApart(s: State, e: SchedStep, p: nat, q: nat)
    requires Shape(s) && CanSched(s, e)
    requires Threads(s) && p < |s.procs| && q < |s.procs| && p != q && OwnChild(s, p, q)
    ensures OwnChild(DoSched(s, e), p, q)
  {
    if e.CpuReturn? {
      assert ThreadOk(s, s.cpus[e.c].value);
    } else if e.Resume? || e.Dispatch? || e.Yield? || e.SleepElsewhere? {
      assert ThreadOk(s, e.p);
    }
  }

  lemma ForkParent(s: State, e: ForkStep, q: nat)
    requires Shape(s) && CanFork(s, e)
    requires Threads(s) && q < |s.procs| && ParentOk(s, q)
    requires ForkOk(s, e.p)
    ensures ParentOk(DoFork(s, e), q)
  {
    var np := if e.ForkAlloc? then e.np else s.procs[e.p].pc.np;
    assert ThreadOk(s, e.p) && ThreadOk(s, np);
  }

  lemma WaitParent(s: State, e: WaitStep, q: nat)
    requires Shape(s) && CanWait(s, e)
    requires Threads(s) && q < |s.procs| && ParentOk(s, q)
    ensures ParentOk(DoWait(s, e), q)
  {
    if e.WaitReap? {
      assert ThreadOk(s, s.procs[e.p].pc.i);
    }
    assert ThreadOk(s, e.p);
  }

  lemma ReparentParent(s: State, e: ReparentStep, q: nat)
    requires Shape(s) && CanReparent(s, e)
    requires Threads(s) && q < |s.procs| && ParentOk(s, q)
    requires InitOk(s)
    ensures ParentOk(DoReparent(s, e), q)
  {
    assert ThreadOk(s, e.p);
  }

  lemma ExitParent(s: State, e: ExitStep, q: nat)
    requires Shape(s) && CanExit(s, e)
    requires Threads(s) && q < |s.procs| && ParentOk(s, q)
    requires ScanOk(s, e.p)
    ensures ParentOk(DoExit(s, e), q)
  {
    assert ThreadOk(s, e.p);
    if e.ExitZombie? {
      assert q < |s.procs| && s.procs[q].parent != Some(e.p);
    }
  }

  lemma SchedParent(s: State, e: SchedStep, q: nat)
    requires Shape(s) && CanSched(s, e)
    requires Threads(s) && q < |s.procs| && ParentOk(s, q)
    ensures ParentOk(DoSched(s, e), q)
  {
    if e.CpuReturn? {
      assert ThreadOk(s, s.cpus[e.c].value);
    } else if e.Resume? || e.Dispatch? || e.Yield? || e.SleepElsewhere? {
      assert ThreadOk(s, e.p);
    }
    if s.procs[q].parent.Some? {
      assert ThreadOk(s, s.procs[q].parent.value);
    }
  }

  lemma ForkFirst(s: State, e: ForkStep)
    requires Shape(s) && CanFork(s, e)
    requires InitOk(s) && Threads(s)
    requires ForkOk(s, e.p)
    ensures InitOk(DoFork(s, e))
  {
    var np := if e.ForkAlloc? then e.np else s.procs[e.p].pc.np;
    assert ThreadOk(s, e.p) && ThreadOk(s, np);
  }

  lemma WaitFirst(s: State, e: WaitStep)
    requires Shape(s) && CanWait(s, e)
    requires InitOk(s) && Threads(s)
    ensures InitOk(DoWait(s, e))
  {
    if e.WaitReap? {
      assert ThreadOk(s, s.procs[e.p].pc.i);
    }
    assert ThreadOk(s, e.p);
  }

  lemma ReparentFirst(s: State, e: ReparentStep)
    requires Shape(s) && CanReparent(s, e)
    requires InitOk(s) && Threads(s)
    ensures InitOk(DoReparent(s, e))
  {
    assert ThreadOk(s, e.p);
  }

  lemma ExitFirst(s: State, e: ExitStep)
    requires Shape(s) && CanExit(s, e)
    requires InitOk(s) && Threads(s)
    ensures InitOk(DoExit(s, e))
  {
    assert ThreadOk(s, e.p);
  }

  lemma SchedFirst(s: State, e: SchedStep)
    requires Shape(s) && CanSched(s, e)
    requires InitOk(s) && Threads(s)
    ensures InitOk(DoSched(s, e))
  {
    if e.CpuReturn? {
      assert ThreadOk(s, s.cpus[e.c].value);
    } else if e.Resume? || e.Dispatch? || e.Yield? || e.SleepElsewhere? {
      assert ThreadOk(s, e.p);
    }
  }

  lemma ForkHolders(s: State, e: ForkStep)
    requires Shape(s) && CanFork(s, e)
    requires Threads(s) && HoldersOk(s)
    ensures HoldersOk(DoFork(s, e))
  {
    var np := if e.ForkAlloc? then e.np else s.procs[e.p].pc.np;
    assert ThreadOk(s, e.p) && ThreadOk(s, np);
  }

  lemma WaitHolders(s: State, e: WaitStep)
    requires Shape(s) && CanWait(s, e)
    requires Threads(s) && HoldersOk(s)
    ensures HoldersOk(DoWait(s, e))
  {
    if e.WaitReap? {
      assert ThreadOk(s, s.procs[e.p].pc.i);
    }
    assert ThreadOk(s, e.p);
  }

  lemma ReparentHolders(s: State, e: ReparentStep)
    requires Shape(s) && CanReparent(s, e)
    requires Threads(s) && HoldersOk(s)
    ensures HoldersOk(DoReparent(s, e))
  {
    assert ThreadOk(s, e.p);
  }

  lemma ExitHolders(s: State, e: ExitStep)
    requires Shape(s) && CanExit(s, e)
    requires Threads(s) && HoldersOk(s)
    ensures HoldersOk(DoExit(s, e))
  {
    assert ThreadOk(s, e.p);
  }

  lemma SchedHolders(s: State, e: SchedStep)
    requires Shape(s) && CanSched(s, e)
    requires Threads(s) && HoldersOk(s)
    ensures HoldersOk(DoSched(s, e))
  {
    if e.CpuReturn? {
      assert ThreadOk(s, s.cpus[e.c].value);
    } else if e.Resume? || e.Dispatch? || e.Yield? || e.SleepElsewhere? {
      assert ThreadOk(s, e.p);
    }
  }

  lemma ForkQuiet(s: State, e: ForkStep, j: nat)
    requires Shape(s) && CanFork(s, e) && !e.ForkLink?
    requires Threads(s) && j < |s.procs| && ForkOk(s, e.p)
    ensures QuietAt(s, DoFork(s, e), j)
  {
    var np := if e.ForkAlloc? then e.np else s.procs[e.p].pc.np;
    assert ThreadOk(s, e.p) && ThreadOk(s, np);
  }

  lemma ForkScans(s: State, e: ForkStep, p: nat)
    requires Shape(s) && CanFork(s, e)
    requires Threads(s) && p < |s.procs| && ScanOk(s, p) && WaitOk(s, p) && ForkOk(s, e.p)
    ensures ScanOk(DoFork(s, e), p)
  {
    ForkWaitLock(s, e, p);
    if HoldsWait(s.procs[p].pc) {
      forall j: nat | j < |s.procs| ensures QuietAt(s, DoFork(s, e), j) {
        ForkQuiet(s, e, j);
      }
      assert ThreadOk(s, if e.ForkAlloc? then e.np else s.procs[e.p].pc.np);
      QuietScans(s, DoFork(s, e), p);
    }
  }

  lemma WaitScans(s: State, e: WaitStep, p: nat)
    requires Shape(s) && CanWait(s, e)
    requires Threads(s) && p < |s.procs| && ScanOk(s, p) && WaitOk(s, p)
    requires WaitOk(s, e.p)
    ensures ScanOk(DoWait(s, e), p)
  {
    if e.WaitReap? {
      assert ThreadOk(s, s.procs[e.p].pc.i);
    }
    assert ThreadOk(s, e.p);
  }

  lemma ReparentScans(s: State, e: ReparentStep, p: nat)
    requires Shape(s) && CanReparent(s, e)
    requires Threads(s) && p < |s.procs| && ScanOk(s, p) && WaitOk(s, p)
    requires WaitOk(s, e.p)
    requires InitOk(s)
    ensures ScanOk(DoReparent(s, e), p)
  {
    assert ThreadOk(s, e.p);
  }

  lemma ExitScansOther(s: State, e: ExitStep, p: nat)
    requires Shape(s) && CanExit(s, e)
    requires p < |s.procs| && p != e.p && WaitOk(s, p) && WaitOk(s, e.p)
    ensures ScanOk(DoExit(s, e), p)
  {
  }

  lemma ExitScans(s: State, e: ExitStep, p: nat)
    requires Shape(s) && CanExit(s, e)
    requires Threads(s) && p < |s.procs| && ScanOk(s, p) && WaitOk(s, p)
    requires WaitOk(s, e.p)
    requires e.WakeParent? ==> LockOk(s, s.procs[e.p].pc.k, s.procs[e.p].pc.k)
    ensures ScanOk(DoExit(s, e), p)
  {
    if p != e.p {
      ExitScansOther(s, e, p);
    } else if e.WakeParent? {
      var k := s.procs[p].pc.k;
      assert ThreadOk(s, p) && ThreadOk(s, k);
      var r := DoExit(s, e);
      assert Childless(r, p, |r.procs|);
      assert ParentAwake(r, p, k + 1);
    }
  }

  /** Nothing a scan relies on gets worse: no parent, no zombie and no committed sleeper appears. */
  ghost predicate QuietAt(s: State, r: State, j: nat)
    requires j < |s.procs| == |r.procs|
  {
    && (r.procs[j].parent == s.procs[j].parent || r.procs[j].parent == None)
         && (r.procs[j].st == Zombie ==> s.procs[j].st == Zombie)
    && (Committed(r.procs[j]) ==> Committed(s.procs[j]))
  }

  lemma SchedQuiet(s: State, e: SchedStep, j: nat)
    requires Shape(s) && CanSched(s, e)
    requires j < |s.procs| && ThreadOk(s, j)
    ensures QuietAt(s, DoSched(s, e), j)
    ensures DoSched(s, e).procs[j].pc == s.procs[j].pc || !HoldsWait(DoSched(s, e).procs[j].pc)
  {
  }

  lemma QuietScans(s: State, r: State, p: nat)
    requires |s.procs| == |r.procs| && p < |s.procs| && ScanOk(s, p)
    requires r.procs[p].pc == s.procs[p].pc || !HoldsWait(r.procs[p].pc)
    requires forall j: nat {:trigger QuietAt(s, r, j)} :: j < |s.procs| ==> QuietAt(s, r, j)
    ensures ScanOk(r, p)
  {
    assert QuietAt(s, r, p);
    forall i: nat ensures Childless(s, p, i) ==> Childless(r, p, i) {
      forall j: nat | j < i && j < |s.procs| ensures Childless(s, p, i) ==> r.procs[j].parent != Some(p) {
        assert QuietAt(s, r, j);
      }
    }
    forall i: nat ensures NoZombieChild(s, p, i) ==> NoZombieChild(r, p, i) {
      forall j: nat | j < i && j < |s.procs| && r.procs[j].parent == Some(p) ensures NoZombieChild(s, p, i) ==>
        r.procs[j].st != Zombie {
        assert QuietAt(s, r, j);
      }
    }
    if s.procs[p].parent.Some? && s.procs[p].parent.value < |s.procs| {
      assert QuietAt(s, r, s.procs[p].parent.value);
    }
  }

  lemma SchedScans(s: State, e: SchedStep, p: nat)
    requires Shape(s) && CanSched(s, e)
    requires Threads(s) && p < |s.procs| && ScanOk(s, p)
    ensures ScanOk(DoSched(s, e), p)
  {
    forall j: nat | j < |s.procs| ensures QuietAt(s, DoSched(s, e), j) {
      assert ThreadOk(s, j);
      SchedQuiet(s, e, j);
    }
    assert ThreadOk(s, p);
    SchedQuiet(s, e, p);
    QuietScans(s, DoSched(s, e), p);
  }

  lemma ForkSleeper(s: State, e: ForkStep, q: nat)
    requires Shape(s) && CanFork(s, e)
    requires Threads(s) && q < |s.procs| && SleeperOk(s, q) && ParentOk(s, q)
    requires ForkOk(s, e.p)
    ensures SleeperOk(DoFork(s, e), q)
  {
    var np := if e.ForkAlloc? then e.np else s.procs[e.p].pc.np;
    assert ThreadOk(s, e.p) && ThreadOk(s, np);
  }

  lemma WaitSleeper(s: State, e: WaitStep, q: nat)
    requires Shape(s) && CanWait(s, e)
    requires Threads(s) && q < |s.procs| && SleeperOk(s, q) && ParentOk(s, q)
    requires WaitOk(s, e.p) && ScanOk(s, e.p)
    ensures SleeperOk(DoWait(s, e), q)
  {
    if e.WaitReap? {
      assert ThreadOk(s, s.procs[e.p].pc.i);
    }
    assert ThreadOk(s, e.p);
  }

  /** While a reparenting exit holds wait_lock, only its own last wakeup is outstanding. */
  lemma ReparentSleeper(s: State, e: ReparentStep, q: nat)
    requires Shape(s) && CanReparent(s, e)
    requires Threads(s) && q < |s.procs| && SleeperOk(s, q) && ParentOk(s, q)
    requires WaitOk(s, e.p) && ScanOk(s, e.p)
    requires InitOk(s) && LockOk(s, s.init, s.init)
    ensures SleeperOk(DoReparent(s, e), q)
  {
    assert s.wait == Some(e.p) && ThreadOk(s, e.p);
    var r := DoReparent(s, e);
    if e.WakeInit? {
      WakeInitSleeper(s, e, q);
    } else if r.procs[q].parent.Some? && r.procs[q].parent.value < |s.procs| {
      var w := r.procs[q].parent.value;
      assert Committed(r.procs[w]) ==> Committed(s.procs[w]);
    }
  }

  lemma WakeInitSleeper(s: State, e: ReparentStep, q: nat)
    requires Shape(s) && CanReparent(s, e) && e.WakeInit?
    requires Threads(s) && q < |s.procs| && SleeperOk(s, q) && ParentOk(s, q)
    requires WaitOk(s, e.p) && InitOk(s) && LockOk(s, s.init, s.init)
    ensures SleeperOk(DoReparent(s, e), q)
  {
    var r := DoReparent(s, e);
    var k := s.procs[e.p].pc.k;
    assert s.wait == Some(e.p) && ThreadOk(s, e.p) && ThreadOk(s, k);
    assert r.procs[q].parent == s.procs[q].parent && (r.procs[q].st == Zombie ==> s.procs[q].st == Zombie);
    if s.procs[q].parent.Some? {
      var w := s.procs[q].parent.value;
      assert Committed(r.procs[w]) ==> Committed(s.procs[w]);
      assert k == s.init ==> !Committed(r.procs[s.init]);
    }
  }

  lemma ExitSleeper(s: State, e: ExitStep, q: nat)
    requires Shape(s) && CanExit(s, e)
    requires Threads(s) && q < |s.procs| && SleeperOk(s, q) && ParentOk(s, q)
    requires WaitOk(s, e.p) && ScanOk(s, e.p)
    ensures SleeperOk(DoExit(s, e), q)
  {
    assert ThreadOk(s, e.p);
  }

  lemma SchedSleeper(s: State, e: SchedStep, q: nat)
    requires Shape(s) && CanSched(s, e)
    requires Threads(s) && q < |s.procs| && SleeperOk(s, q) && ParentOk(s, q)
    ensures SleeperOk(DoSched(s, e), q)
  {
    if e.CpuReturn? {
      assert ThreadOk(s, s.cpus[e.c].value);
    } else if e.Resume? || e.Dispatch? || e.Yield? || e.SleepElsewhere? {
      assert ThreadOk(s, e.p);
    }
  }

  lemma ForkAt(s: State, e: ForkStep, p: nat)
    requires Inv(s) && CanFork(s, e) && p < |s.procs|
    ensures var r := DoFork(s, e);
            ThreadOk(r, p) && AccountOk(r, p) && WaitOk(r, p) && HartOk(r, p) && ForkOk(r, p) && ParentOk(r, p)
              && ScanOk(r, p) && SleeperOk(r, p)
  {
    assert ThreadOk(s, p) && AccountOk(s, p) && WaitOk(s, p) && HartOk(s, p) && ForkOk(s, p) && ParentOk(s, p)
      && ScanOk(s, p) && SleeperOk(s, p);
    assert ForkOk(s, e.p) && (p != e.p ==> OwnChild(s, p, e.p));
    ForkThread(s, e, p);
    ForkAccount(s, e, p);
    ForkWaitLock(s, e, p);
    ForkHart(s, e, p);
    ForkForked(s, e, p);
    ForkParent(s, e, p);
    ForkScans(s, e, p);
    ForkSleeper(s, e, p);
  }

  lemma WaitAt(s: State, e: WaitStep, p: nat)
    requires Inv(s) && CanWait(s, e) && p < |s.procs|
    ensures var r := DoWait(s, e);
            ThreadOk(r, p) && AccountOk(r, p) && WaitOk(r, p) && HartOk(r, p) && ForkOk(r, p) && ParentOk(r, p)
              && ScanOk(r, p) && SleeperOk(r, p)
  {
    assert ThreadOk(s, p) && AccountOk(s, p) && WaitOk(s, p) && HartOk(s, p) && ForkOk(s, p) && ParentOk(s, p)
      && ScanOk(s, p) && SleeperOk(s, p);
    assert WaitOk(s, e.p) && ScanOk(s, e.p);
    if e.WaitReap? {
      var i := s.procs[e.p].pc.i;
      assert LockOk(s, i, i);
    }
    WaitThread(s, e, p);
    WaitAccount(s, e, p);
    WaitWaitLock(s, e, p);
    WaitHart(s, e, p);
    WaitForked(s, e, p);
    WaitParent(s, e, p);
    WaitScans(s, e, p);
    WaitSleeper(s, e, p);
  }

  lemma ReparentAt(s: State, e: ReparentStep, p: nat)
    requires Inv(s) && CanReparent(s, e) && p < |s.procs|
    ensures var r := DoReparent(s, e);
            ThreadOk(r, p) && AccountOk(r, p) && WaitOk(r, p) && HartOk(r, p) && ForkOk(r, p) && ParentOk(r, p)
              && ScanOk(r, p) && SleeperOk(r, p)
  {
    assert ThreadOk(s, p) && AccountOk(s, p) && WaitOk(s, p) && HartOk(s, p) && ForkOk(s, p) && ParentOk(s, p)
      && ScanOk(s, p) && SleeperOk(s, p);
    assert WaitOk(s, e.p) && ScanOk(s, e.p) && LockOk(s, s.init, s.init);
    ReparentThread(s, e, p);
    ReparentAccount(s, e, p);
    ReparentWaitLock(s, e, p);
    ReparentHart(s, e, p);
    ReparentForked(s, e, p);
    ReparentParent(s, e, p);
    ReparentScans(s, e, p);
    ReparentSleeper(s, e, p);
  }

  lemma ExitAt(s: State, e: ExitStep, p: nat)
    requires Inv(s) && CanExit(s, e) && p < |s.procs|
    ensures var r := DoExit(s, e);
            ThreadOk(r, p) && AccountOk(r, p) && WaitOk(r, p) && HartOk(r, p) && ForkOk(r, p) && ParentOk(r, p)
              && ScanOk(r, p) && SleeperOk(r, p)
  {
    assert ThreadOk(s, p) && AccountOk(s, p) && WaitOk(s, p) && HartOk(s, p) && ForkOk(s, p) && ParentOk(s, p)
      && ScanOk(s, p) && SleeperOk(s, p);
    assert WaitOk(s, e.p) && ScanOk(s, e.p);
    if e.WakeParent? {
      var k := s.procs[e.p].pc.k;
      assert LockOk(s, k, k);
    }
    ExitThread(s, e, p);
    ExitAccount(s, e, p);
    ExitWaitLock(s, e, p);
    ExitHart(s, e, p);
    ExitForked(s, e, p);
    ExitParent(s, e, p);
    ExitScans(s, e, p);
    ExitSleeper(s, e, p);
  }

  lemma SchedAt(s: State, e: SchedStep, p: nat)
    requires Inv(s) && CanSched(s, e) && p < |s.procs|
    ensures var r := DoSched(s, e);
            ThreadOk(r, p) && AccountOk(r, p) && WaitOk(r, p) && HartOk(r, p) && ForkOk(r, p) && ParentOk(r, p)
              && ScanOk(r, p) && SleeperOk(r, p)
  {
    assert ThreadOk(s, p) && AccountOk(s, p) && WaitOk(s, p) && HartOk(s, p) && ForkOk(s, p) && ParentOk(s, p)
      && ScanOk(s, p) && SleeperOk(s, p);
    if e.CpuReturn? {
      assert CpuOk(s, e.c);
    }
    SchedThread(s, e, p);
    SchedAccount(s, e, p);
    SchedWaitLock(s, e, p);
    SchedHart(s, e, p);
    SchedForked(s, e, p);
    SchedParent(s, e, p);
    SchedScans(s, e, p);
    SchedSleeper(s, e, p);
  }
}
