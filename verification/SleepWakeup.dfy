// sleep and wakeup of kernel/proc.c as a machine over any number of processes, channels
// and condition locks, and the sleep lock of kernel/sleeplock.c as an instance.

module SleepWakeup {
  datatype Option<T> = None | Some(value: T)

  datatype Pc =
    | Run                        // ordinary code, possibly holding condition locks
    | Sleep1(c: nat)             // in sleep: own p->lock taken, the condition lock still held
    | Sleep2(c: nat)             // the condition lock released
    | Asleep(c: nat)             // SLEEPING on c, switched out or about to be
    | Woken(c: nat)              // running again, p->lock released, wants the condition lock
    | Waking(c: nat, i: nat)     // in wakeup(c), slots below i done

  /** `locked` is p->lock; `ready` is RUNNABLE after a wakeup or kill; `owes` are channels still to be woken. */
  datatype Proc = Proc(pc: Pc, locked: bool, ready: bool, owes: set<nat>)

  /** owner[l] holds condition lock l; cond[c] is what sleepers on channel c wait for. */
  datatype State = State(procs: seq<Proc>, owner: seq<Option<nat>>, cond: seq<bool>)

  /** Channel c's condition is protected by lock LockOf(c); several channels may share one. */
  type Locks = nat -> nat

  predicate Shape(s: State, lk: Locks) {
    forall c {:trigger lk(c)} :: 0 <= c < |s.cond| ==> lk(c) < |s.owner|
  }

  predicate Owns(s: State, p: nat, l: nat) { l < |s.owner| && s.owner[l] == Some(p) }

  predicate OwnsOnly(s: State, p: nat, l: nat) {
    Owns(s, p, l) && forall m :: 0 <= m < |s.owner| && m != l ==> s.owner[m] != Some(p)
  }

  // ---------------------------------------------------------------- steps

  datatype Step =
    | Acquire(p: nat, l: nat) | Release(p: nat, l: nat) | SetCond(p: nat, c: nat, v: bool)
    | SleepLock(p: nat, c: nat) | SleepRelease(p: nat) | SleepMark(p: nat) | SleepSwitch(p: nat) | Rerun(p: nat)
      | Reacquire(p: nat)
    | WakeStart(p: nat, c: nat) | WakeOne(p: nat) | WakeDone(p: nat) | Kill(k: nat)

  predicate At(s: State, p: nat, pc: Pc) { p < |s.procs| && s.procs[p].pc == pc }

  predicate Enabled(s: State, lk: Locks, e: Step)
    requires Shape(s, lk)
  {
    match e
    case Acquire(p, l) => At(s, p, Run) && l < |s.owner| && s.owner[l] == None
    // A condition made true is woken for before its lock is let go.
    case Release(p, l) => At(s, p, Run) && Owns(s, p, l) && forall c :: c in s.procs[p].owes ==> lk(c) != l
    case SetCond(p, c, v) => At(s, p, Run) && c < |s.cond| && Owns(s, p, lk(c))
    // while(!condition) sleep(c, lk), with no other spinlock held (sched checks noff).
    case SleepLock(p, c) => At(s, p, Run) && c < |s.cond| && !s.cond[c] && OwnsOnly(s, p, lk(c))
      && s.procs[p].owes == {} && !s.procs[p].locked
    case SleepRelease(p) => p < |s.procs| && s.procs[p].pc.Sleep1? && s.procs[p].pc.c < |s.cond|
    case SleepMark(p) => p < |s.procs| && s.procs[p].pc.Sleep2?
    case SleepSwitch(p) => p < |s.procs| && s.procs[p].pc.Asleep? && s.procs[p].locked
    case Rerun(p) => p < |s.procs| && s.procs[p].pc.Asleep? && s.procs[p].ready && !s.procs[p].locked
    case Reacquire(p) => p < |s.procs| && s.procs[p].pc.Woken? && s.procs[p].pc.c < |s.cond|
      && s.owner[lk(s.procs[p].pc.c)] == None
    case WakeStart(p, c) => At(s, p, Run) && c < |s.cond|
    case WakeOne(p) => p < |s.procs| && s.procs[p].pc.Waking? && s.procs[p].pc.i < |s.procs|
      && (s.procs[p].pc.i == p || !s.procs[s.procs[p].pc.i].locked)
    case WakeDone(p) => p < |s.procs| && s.procs[p].pc.Waking? && s.procs[p].pc.i == |s.procs|
    case Kill(k) => k < |s.procs| && !s.procs[k].locked
  }

  function Set(s: State, p: nat, x: Proc): (r: State)
    requires p < |s.procs|
  {
    s.(procs := s.procs[p := x])
  }

  function SetPc(s: State, p: nat, pc: Pc): (r: State)
    requires p < |s.procs|
  {
    Set(s, p, s.procs[p].(pc := pc))
  }

  /** One slot of wakeup(c): SLEEPING on c becomes RUNNABLE. */
  function Awake(x: Proc, c: nat): (r: Proc) {
    if x.pc == Asleep(c) then x.(ready := true) else x
  }

  function Apply(s: State, lk: Locks, e: Step): (r: State)
    requires Shape(s, lk) && Enabled(s, lk, e)
  {
    match e
    case Acquire(p, l) => s.(owner := s.owner[l := Some(p)])
    case Release(p, l) => s.(owner := s.owner[l := None])
    case SetCond(p, c, v) =>
      var owes := if v && !s.cond[c] then s.procs[p].owes + {c} else s.procs[p].owes;
      Set(s, p, s.procs[p].(owes := owes)).(cond := s.cond[c := v])
    case SleepLock(p, c) => Set(s, p, s.procs[p].(pc := Sleep1(c), locked := true))
    case SleepRelease(p) => SetPc(s, p, Sleep2(s.procs[p].pc.c)).(owner := s.owner[lk(s.procs[p].pc.c) := None])
    case SleepMark(p) => Set(s, p, s.procs[p].(pc := Asleep(s.procs[p].pc.c), ready := false))
    case SleepSwitch(p) => Set(s, p, s.procs[p].(locked := false))
    case Rerun(p) => SetPc(s, p, Woken(s.procs[p].pc.c))
    case Reacquire(p) => SetPc(s, p, Run).(owner := s.owner[lk(s.procs[p].pc.c) := Some(p)])
    case WakeStart(p, c) => SetPc(s, p, Waking(c, 0))
    case WakeOne(p) =>
      var c, i := s.procs[p].pc.c, s.procs[p].pc.i;
      SetPc(Set(s, i, if i == p then s.procs[i] else Awake(s.procs[i], c)), p, Waking(c, i + 1))
    case WakeDone(p) => Set(s, p, s.procs[p].(pc := Run, owes := s.procs[p].owes - {s.procs[p].pc.c}))
    case Kill(k) => Set(s, k, if s.procs[k].pc.Asleep? then s.procs[k].(ready := true) else s.procs[k])
  }

  ghost predicate Init(s: State, lk: Locks) {
    && Shape(s, lk) && (forall p :: 0 <= p < |s.procs| ==> s.procs[p] == Proc(Run, false, false, {}))
    && (forall l :: 0 <= l < |s.owner| ==> s.owner[l] == None)
  }

  // ---------------------------------------------------------------- invariant

  /** p has let go of the condition lock and will sleep on c, or sleeps there unwoken. */
  predicate Sleeps(x: Proc, c: nat) {
    x.pc == Sleep2(c) || (x.pc == Asleep(c) && !x.ready)
  }

  /** w still has to come past slot p in a wakeup of c. */
  predicate WillWake(s: State, w: nat, c: nat, p: nat) {
    w < |s.procs| && c in s.procs[w].owes && (s.procs[w].pc.Waking? && s.procs[w].pc.c == c ==> s.procs[w].pc.i <= p)
  }

  ghost predicate ProcOk(s: State, lk: Locks, p: nat)
    requires Shape(s, lk) && p < |s.procs|
  {
    var x := s.procs[p];
    && (forall c: nat {:trigger c in x.owes} :: c in x.owes ==> c < |s.cond| && s.owner[lk(c)] == Some(p))
    && (x.pc.Sleep1? || x.pc.Sleep2? || x.pc.Asleep? || x.pc.Woken? || x.pc.Waking? ==> x.pc.c < |s.cond|)
    && (x.pc.Sleep1? || x.pc.Sleep2? ==> x.locked)
    && (x.pc.Sleep1? || x.pc.Sleep2? || x.pc.Asleep? || x.pc.Woken? ==> x.owes == {})
    && (x.pc.Waking? ==> x.pc.i <= |s.procs|)
    && (x.pc.Sleep1? ==> s.owner[lk(x.pc.c)] == Some(p) && !s.cond[x.pc.c])
    && (x.locked ==> x.pc.Sleep1? || x.pc.Sleep2? || x.pc.Asleep?)
  }

  /** A sleeper whose condition holds has a waker under way that holds the condition lock. */
  ghost predicate SleeperOk(s: State, lk: Locks, p: nat, c: nat)
    requires Shape(s, lk) && p < |s.procs| && c < |s.cond|
  {
    Sleeps(s.procs[p], c) && s.cond[c] ==> s.owner[lk(c)].Some? && WillWake(s, s.owner[lk(c)].value, c, p)
  }

  ghost predicate Inv(s: State, lk: Locks) {
    && Shape(s, lk)
    && (forall p: nat {:trigger ProcOk(s, lk, p)} :: p < |s.procs| ==> ProcOk(s, lk, p))
    && (forall p: nat, c: nat {:trigger SleeperOk(s, lk, p, c)} :: p < |s.procs| && c < |s.cond| ==>
         SleeperOk(s, lk, p, c))
  }

  lemma InitInv(s: State, lk: Locks)
    requires Init(s, lk)
    ensures Inv(s, lk)
  {
  }

  // The steps in three groups, to keep each case analysis short.
  predicate LockStep(e: Step) { e.Acquire? || e.Release? || e.SetCond? || e.WakeStart? || e.Kill? }

  predicate SleepStep(e: Step) { e.SleepLock? || e.SleepRelease? || e.SleepMark? || e.SleepSwitch? || e.Rerun?
      || e.Reacquire? }

  predicate WakeStep(e: Step) { e.WakeOne? || e.WakeDone? }

  lemma LockKeepsProc(s: State, lk: Locks, e: Step, p: nat)
    requires Inv(s, lk) && Enabled(s, lk, e) && LockStep(e) && p < |s.procs|
    ensures ProcOk(Apply(s, lk, e), lk, p)
  {
    assert ProcOk(s, lk, p);
    if !e.Kill? {
      assert ProcOk(s, lk, e.p);
    }
  }

  lemma LockKeepsSleeper(s: State, lk: Locks, e: Step, p: nat, c: nat)
    requires Inv(s, lk) && Enabled(s, lk, e) && LockStep(e) && p < |s.procs| && c < |s.cond|
    ensures SleeperOk(Apply(s, lk, e), lk, p, c)
  {
    assert ProcOk(s, lk, p) && SleeperOk(s, lk, p, c);
    if !e.Kill? {
      assert ProcOk(s, lk, e.p);
    }
  }

  lemma SleepKeepsProc(s: State, lk: Locks, e: Step, p: nat)
    requires Inv(s, lk) && Enabled(s, lk, e) && SleepStep(e) && p < |s.procs|
    ensures ProcOk(Apply(s, lk, e), lk, p)
  {
    assert ProcOk(s, lk, p);
    assert ProcOk(s, lk, e.p);
  }

  lemma SleepKeepsSleeper(s: State, lk: Locks, e: Step, p: nat, c: nat)
    requires Inv(s, lk) && Enabled(s, lk, e) && SleepStep(e) && p < |s.procs| && c < |s.cond|
    ensures SleeperOk(Apply(s, lk, e), lk, p, c)
  {
    assert ProcOk(s, lk, p) && SleeperOk(s, lk, p, c);
    assert ProcOk(s, lk, e.p);
  }

  lemma WakeKeepsProc(s: State, lk: Locks, e: Step, p: nat)
    requires Inv(s, lk) && Enabled(s, lk, e) && WakeStep(e) && p < |s.procs|
    ensures ProcOk(Apply(s, lk, e), lk, p)
  {
    assert ProcOk(s, lk, p);
    assert ProcOk(s, lk, e.p);
  }

  lemma WakeKeepsSleeper(s: State, lk: Locks, e: Step, p: nat, c: nat)
    requires Inv(s, lk) && Enabled(s, lk, e) && WakeStep(e) && p < |s.procs| && c < |s.cond|
    ensures SleeperOk(Apply(s, lk, e), lk, p, c)
  {
    assert ProcOk(s, lk, p) && SleeperOk(s, lk, p, c);
    assert ProcOk(s, lk, e.p);
  }

  lemma StepKeepsInv(s: State, lk: Locks, e: Step)
    requires Inv(s, lk) && Enabled(s, lk, e)
    ensures Inv(Apply(s, lk, e), lk)
  {
    var r := Apply(s, lk, e);
    forall p: nat | p < |r.procs| ensures ProcOk(r, lk, p) {
      if LockStep(e) {
        LockKeepsProc(s, lk, e, p);
      } else if SleepStep(e) {
        SleepKeepsProc(s, lk, e, p);
      } else {
        WakeKeepsProc(s, lk, e, p);
      }
    }
    forall p: nat, c: nat | p < |r.procs| && c < |r.cond| ensures SleeperOk(r, lk, p, c) {
      if LockStep(e) {
        LockKeepsSleeper(s, lk, e, p, c);
      } else if SleepStep(e) {
        SleepKeepsSleeper(s, lk, e, p, c);
      } else {
        WakeKeepsSleeper(s, lk, e, p, c);
      }
    }
  }

  ghost predicate IsRun(ss: seq<State>, es: seq<Step>, lk: Locks) {
    && |ss| == |es| + 1 && Init(ss[0], lk)
    && forall n :: 0 <= n < |es| ==>
       Shape(ss[n], lk) && Enabled(ss[n], lk, es[n]) && ss[n + 1] == Apply(ss[n], lk, es[n])
  }

  lemma {:induction false} RunInv(ss: seq<State>, es: seq<Step>, lk: Locks, n: nat)
    requires IsRun(ss, es, lk) && n < |ss|
    ensures Inv(ss[n], lk)
  {
    if n == 0 {
      InitInv(ss[0], lk);
    } else {
      RunInv(ss, es, lk, n - 1);
      StepKeepsInv(ss[n - 1], lk, es[n - 1]);
      assert ss[n - 1 + 1] == Apply(ss[n - 1], lk, es[n - 1]);
    }
  }

  /** No lost wakeup: with the condition lock free and the condition true, nobody sleeps on the
      channel or is about to. */
  lemma NoLostWakeup(ss: seq<State>, es: seq<Step>, lk: Locks, n: nat, p: nat, c: nat)
    requires IsRun(ss, es, lk) && n < |ss| && p < |ss[n].procs| && c < |ss[n].cond|
    requires lk(c) < |ss[n].owner| && ss[n].owner[lk(c)] == None && ss[n].cond[c]
    ensures !Sleeps(ss[n].procs[p], c)
  {
    RunInv(ss, es, lk, n);
    assert SleeperOk(ss[n], lk, p, c);
  }
}

module SleepLocks {
  import opened SleepWakeup

  /** Channel c stands for a sleep lock: cond[c] is !locked, holders[c] who is between acquiresleep and releasesleep. */
  datatype World = World(s: State, holders: seq<set<nat>>)

  /** Everything but changing `locked`, the end of acquiresleep, the start of releasesleep. */
  datatype Act = Other(e: Step) | Take(p: nat, c: nat) | Give(p: nat, c: nat)

  function StepOf(a: Act): (e: Step) {
    match a
    case Other(e) => e
    case Take(p, c) => SetCond(p, c, false)
    case Give(p, c) => SetCond(p, c, true)
  }

  /** acquiresleep leaves its loop when the lock is free; only a holder calls releasesleep. */
  predicate CanAct(w: World, lk: Locks, a: Act)
    requires Shape(w.s, lk)
  {
    && Enabled(w.s, lk, StepOf(a)) && |w.holders| == |w.s.cond|
    && match a
       case Other(e) => !e.SetCond?
       case Take(p, c) => w.s.cond[c]
       case Give(p, c) => p in w.holders[c]
  }

  function Act1(w: World, lk: Locks, a: Act): (r: World)
    requires Shape(w.s, lk) && CanAct(w, lk, a)
  {
    var holders := match a
      case Other(_) => w.holders
      case Take(p, c) => w.holders[c := w.holders[c] + {p}]
      case Give(p, c) => w.holders[c := w.holders[c] - {p}];
    World(Apply(w.s, lk, StepOf(a)), holders)
  }

  ghost predicate LockOk(w: World, c: nat)
    requires |w.holders| == |w.s.cond| && c < |w.s.cond|
  {
    if w.s.cond[c] then w.holders[c] == {} else exists p :: w.holders[c] == {p}
  }

  ghost predicate IsRunOf(ws: seq<World>, acts: seq<Act>, lk: Locks) {
    && |ws| == |acts| + 1 && Init(ws[0].s, lk) && |ws[0].holders| == |ws[0].s.cond|
    && (forall c :: 0 <= c < |ws[0].holders| ==> ws[0].holders[c] == {} && ws[0].s.cond[c])
    && forall n :: 0 <= n < |acts| ==>
       Shape(ws[n].s, lk) && CanAct(ws[n], lk, acts[n]) && ws[n + 1] == Act1(ws[n], lk, acts[n])
  }

  lemma ActKeeps(w: World, lk: Locks, a: Act, c: nat)
    requires Inv(w.s, lk) && CanAct(w, lk, a) && c < |w.s.cond| && LockOk(w, c)
    ensures |Act1(w, lk, a).holders| == |Act1(w, lk, a).s.cond| && c < |Act1(w, lk, a).s.cond|
    ensures LockOk(Act1(w, lk, a), c)
  {
    if a.Take? && a.c == c {
      assert w.holders[c] + {a.p} == {a.p};
    } else if a.Give? && a.c == c {
      assert w.holders[c] - {a.p} == {};
    }
  }

  lemma {:induction false} RunOk(ws: seq<World>, acts: seq<Act>, lk: Locks, n: nat)
    requires IsRunOf(ws, acts, lk) && n < |ws|
    ensures Inv(ws[n].s, lk) && |ws[n].holders| == |ws[n].s.cond|
    ensures forall c: nat :: c < |ws[n].s.cond| ==> LockOk(ws[n], c)
  {
    if n == 0 {
      InitInv(ws[0].s, lk);
    } else {
      RunOk(ws, acts, lk, n - 1);
      var w, a := ws[n - 1], acts[n - 1];
      assert ws[n - 1 + 1] == Act1(w, lk, a);
      StepKeepsInv(w.s, lk, StepOf(a));
      forall c: nat | c < |ws[n].s.cond| ensures LockOk(ws[n], c) {
        assert LockOk(w, c);
        ActKeeps(w, lk, a, c);
      }
      if |w.s.cond| > 0 {
        ActKeeps(w, lk, a, 0);
      }
    }
  }

  /** A sleep lock has at most one holder, and one that is free has no sleeper. */
  lemma SleepLockSafe(ws: seq<World>, acts: seq<Act>, lk: Locks, n: nat, c: nat, p: nat, q: nat)
    requires IsRunOf(ws, acts, lk) && n < |ws| && c < |ws[n].s.cond| && p < |ws[n].s.procs|
    ensures c < |ws[n].holders| && lk(c) < |ws[n].s.owner|
    ensures p in ws[n].holders[c] && q in ws[n].holders[c] ==> p == q
    ensures ws[n].holders[c] == {} <==> ws[n].s.cond[c]
    ensures ws[n].holders[c] == {} && ws[n].s.owner[lk(c)] == None ==> !Sleeps(ws[n].s.procs[p], c)
  {
    RunOk(ws, acts, lk, n);
    assert LockOk(ws[n], c) && SleeperOk(ws[n].s, lk, p, c);
  }
}
