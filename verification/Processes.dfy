// The process table of kernel/proc.c as a machine: fork, wait, exit, reparent, kill,
// sleep, yield, the per-CPU schedulers and the clock, interleaved at the granularity of
// their lock operations. A section under one lock that takes no other lock is one step.

module Processes {
  datatype Option<T> = None | Some(value: T)

  datatype St = Unused | Used | Sleeping | Runnable | Running | Zombie

  /** p->chan: wait() sleeps on the process's own slot, everyone else on something else. */
  datatype Chan = NoChan | Slot(p: nat) | Elsewhere

  /** Where a process's kernel thread is. */
  datatype Pc =
    | NoThread
    | User                                // anywhere outside the code below, holding none of these locks
    | Switching(next: Pc)                 // inside sched(), own lock held, still some CPU's c->proc
    | Parked(next: Pc)                    // switched out
    | Resumed(next: Pc)                   // switched in again, own lock still held
    | ForkInit(np: nat)                   // fork, holding np's lock
    | ForkNamed(np: nat)                  // fork, before np->parent is set
    | ForkReady(np: nat)                  // fork, np->parent set
    | WaitScan(i: nat, kids: bool)        // wait's loop, holding wait_lock
    | WaitSleepA                          // in sleep(), holding wait_lock and own lock
    | WaitSleepB                          // in sleep(), wait_lock released
    | WaitAgain                           // about to take wait_lock
    | ExitReparent(i: nat)                // exit, holding wait_lock
    | ExitWakeInit(i: nat, k: nat)        // wakeup(initproc) inside reparent
    | ExitWakeParent(k: nat)              // wakeup(p->parent)
    | ExitLocked                          // holding wait_lock and own lock
    | Dead

  datatype Proc = Proc(st: St, parent: Option<nat>, chan: Chan, pc: Pc)

  /** creation_time and run_time, and how often the slot's occupant has exited and been reaped. */
  datatype Account = Account(born: nat, run: nat, exits: nat, reaps: nat)

  /**
   * lock[k] is the process that holds p->lock of slot k; across swtch the lock stays with the
   * slot's own thread. cpus[c] is c->proc, and hart[p] the CPU that p's thread runs on.
   */
  datatype State = State(
    procs: seq<Proc>, lock: seq<Option<nat>>, wait: Option<nat>, init: nat,
    cpus: seq<Option<nat>>, hart: seq<Option<nat>>, ticks: nat, acct: seq<Account>)

  predicate Shape(s: State) {
    |s.lock| == |s.procs| && |s.hart| == |s.procs| && |s.acct| == |s.procs| && s.init < |s.procs|
  }

  // ---------------------------------------------------------------- steps

  datatype ForkStep = ForkAlloc(p: nat, np: nat) | ForkFail(p: nat) | ForkName(p: nat) | ForkLink(p: nat)
    | ForkRun(p: nat)

  datatype WaitStep =
    | WaitStart(p: nat) | WaitSkip(p: nat) | WaitChild(p: nat) | WaitReap(p: nat) | WaitCopyFails(p: nat)
    | WaitGiveUp(p: nat) | WaitSleep1(p: nat) | WaitSleep2(p: nat) | WaitSleep3(p: nat)

  datatype ReparentStep = ReparentSkip(p: nat) | ReparentChild(p: nat) | WakeInit(p: nat) | WakeInitDone(p: nat)
    | ReparentDone(p: nat)

  datatype ExitStep = ExitStart(p: nat) | WakeParent(p: nat) | ExitTakeLock(p: nat) | ExitZombie(p: nat)

  datatype SchedStep =
    | SleepElsewhere(p: nat) | Yield(p: nat) | CpuReturn(c: nat) | Dispatch(c: nat, p: nat) | Resume(p: nat)
    | Kill(k: nat) | WakeElsewhere(k: nat) | Tick

  datatype Step = Fork(f: ForkStep) | Wait(w: WaitStep) | Reparent(r: ReparentStep) | Exit(x: ExitStep)
    | Sched(c: SchedStep)

  function Set(s: State, p: nat, x: Proc): (r: State)
    requires p < |s.procs|
  {
    s.(procs := s.procs[p := x])
  }

  function SetPc(s: State, p: nat, pc: Pc): (r: State)
    requires p < |s.procs|
  {
    Set(s, p, s.procs[p].(pc := pc))
  }

  function SetLock(s: State, k: nat, h: Option<nat>): (r: State)
    requires k < |s.lock|
  {
    s.(lock := s.lock[k := h])
  }

  /** creation_time and run_time of a slot taken or given back. */
  function Restart(s: State, p: nat): (r: State)
    requires p < |s.acct|
  {
    s.(acct := s.acct[p := s.acct[p].(born := s.ticks, run := 0)])
  }

  /** A slot after freeproc. */
  const FREED := Proc(Unused, None, NoChan, NoThread)

  /** One turn of wakeup's loop for a slot asleep on `chan`. */
  function Awake(x: Proc, chan: Chan): (r: Proc) {
    if x.st == Sleeping && x.chan == chan then x.(st := Runnable) else x
  }

  /** Places where a timer interrupt can preempt: no spinlock held. */
  predicate Preemptible(pc: Pc) {
    pc == User || pc.ForkNamed? || pc.ForkReady? || pc == WaitAgain
  }

  predicate Is(s: State, p: nat) { p < |s.procs| }

  predicate At(s: State, p: nat, pc: Pc) { p < |s.procs| && s.procs[p].pc == pc }

  predicate Unlocked(s: State, k: nat) { k < |s.lock| && s.lock[k] == None }

  /** p runs wait's loop and slot i is its child. */
  predicate AtChild(s: State, p: nat) {
    && p < |s.procs| && s.procs[p].pc.WaitScan? && s.procs[p].pc.i < |s.procs|
    && s.procs[s.procs[p].pc.i].parent == Some(p) && Unlocked(s, s.procs[p].pc.i)
  }

  predicate CanFork(s: State, e: ForkStep)
    requires Shape(s)
  {
    match e
    case ForkAlloc(p, np) => At(s, p, User) && Is(s, np) && Unlocked(s, np) && s.procs[np].st == Unused
    case ForkFail(p) => Is(s, p) && s.procs[p].pc.ForkInit? && Is(s, s.procs[p].pc.np)
    case ForkName(p) => Is(s, p) && s.procs[p].pc.ForkInit? && Is(s, s.procs[p].pc.np)
    case ForkLink(p) => Is(s, p) && s.procs[p].pc.ForkNamed? && Is(s, s.procs[p].pc.np) && s.wait == None
    case ForkRun(p) => Is(s, p) && s.procs[p].pc.ForkReady? && Is(s, s.procs[p].pc.np) && Unlocked(s, s.procs[p].pc.np)
  }

  predicate CanWait(s: State, e: WaitStep)
    requires Shape(s)
  {
    match e
    case WaitStart(p) => (At(s, p, User) || At(s, p, WaitAgain)) && s.wait == None
    case WaitSkip(p) => Is(s, p) && s.procs[p].pc.WaitScan? && s.procs[p].pc.i < |s.procs|
      && s.procs[s.procs[p].pc.i].parent != Some(p)
    case WaitChild(p) => AtChild(s, p) && s.procs[s.procs[p].pc.i].st != Zombie
    case WaitReap(p) => AtChild(s, p) && s.procs[s.procs[p].pc.i].st == Zombie
    case WaitCopyFails(p) => AtChild(s, p) && s.procs[s.procs[p].pc.i].st == Zombie
    case WaitGiveUp(p) => Is(s, p) && s.procs[p].pc.WaitScan? && s.procs[p].pc.i == |s.procs|
    case WaitSleep1(p) => Is(s, p) && s.procs[p].pc == WaitScan(|s.procs|, true) && Unlocked(s, p)
    case WaitSleep2(p) => At(s, p, WaitSleepA)
    case WaitSleep3(p) => At(s, p, WaitSleepB)
  }

  predicate CanReparent(s: State, e: ReparentStep)
    requires Shape(s)
  {
    match e
    case ReparentSkip(p) => Is(s, p) && s.procs[p].pc.ExitReparent? && s.procs[p].pc.i < |s.procs|
      && s.procs[s.procs[p].pc.i].parent != Some(p)
    case ReparentChild(p) => Is(s, p) && s.procs[p].pc.ExitReparent? && s.procs[p].pc.i < |s.procs|
      && s.procs[s.procs[p].pc.i].parent == Some(p)
    case WakeInit(p) => Is(s, p) && s.procs[p].pc.ExitWakeInit? && s.procs[p].pc.k < |s.procs|
      && (s.procs[p].pc.k == p || Unlocked(s, s.procs[p].pc.k))
    case WakeInitDone(p) => Is(s, p) && s.procs[p].pc.ExitWakeInit? && s.procs[p].pc.k == |s.procs|
    case ReparentDone(p) => At(s, p, ExitReparent(|s.procs|))
  }

  predicate CanExit(s: State, e: ExitStep)
    requires Shape(s)
  {
    match e
    case ExitStart(p) => At(s, p, User) && p != s.init && s.wait == None
    case WakeParent(p) => Is(s, p) && s.procs[p].pc.ExitWakeParent? && s.procs[p].pc.k < |s.procs|
      && (s.procs[p].pc.k == p || Unlocked(s, s.procs[p].pc.k))
    case ExitTakeLock(p) => At(s, p, ExitWakeParent(|s.procs|)) && Unlocked(s, p)
    case ExitZombie(p) => At(s, p, ExitLocked)
  }

  predicate CanSched(s: State, e: SchedStep)
    requires Shape(s)
  {
    match e
    case SleepElsewhere(p) => At(s, p, User) && Unlocked(s, p)
    case Yield(p) => Is(s, p) && Preemptible(s.procs[p].pc) && Unlocked(s, p)
    case CpuReturn(c) => c < |s.cpus| && s.cpus[c].Some? && Is(s, s.cpus[c].value)
      && s.procs[s.cpus[c].value].pc.Switching?
    case Dispatch(c, p) => c < |s.cpus| && s.cpus[c] == None && Is(s, p) && Unlocked(s, p)
      && s.procs[p].st == Runnable && s.procs[p].pc.Parked?
    case Resume(p) => Is(s, p) && s.procs[p].pc.Resumed?
    case Kill(k) => Is(s, k) && Unlocked(s, k)
    case WakeElsewhere(k) => Is(s, k) && Unlocked(s, k)
    case Tick => true
  }

  predicate Enabled(s: State, e: Step)
    requires Shape(s)
  {
    match e
    case Fork(f) => CanFork(s, f)
    case Wait(w) => CanWait(s, w)
    case Reparent(r) => CanReparent(s, r)
    case Exit(x) => CanExit(s, x)
    case Sched(c) => CanSched(s, c)
  }

  /** update_time for one slot. */
  function Ticked(a: Account, st: St): (r: Account) {
    if st == Running then a.(run := a.run + 1) else a
  }

  function DoFork(s: State, e: ForkStep): (r: State)
    requires Shape(s) && CanFork(s, e)
  {
    match e
    case ForkAlloc(p, np) =>
      Restart(SetLock(SetPc(Set(s, np, s.procs[np].(st := Used)), p, ForkInit(np)), np, Some(p)), np)
    case ForkFail(p) =>
      var np := s.procs[p].pc.np;
      Restart(SetLock(SetPc(Set(s, np, FREED), p, User), np, None), np)
    case ForkName(p) => SetLock(SetPc(s, p, ForkNamed(s.procs[p].pc.np)), s.procs[p].pc.np, None)
    case ForkLink(p) =>
      var np := s.procs[p].pc.np;
      SetPc(Set(s, np, s.procs[np].(parent := Some(p))), p, ForkReady(np))
    case ForkRun(p) =>
      var np := s.procs[p].pc.np;
      SetPc(Set(s, np, s.procs[np].(st := Runnable, pc := Parked(User))), p, User)
  }

  function DoWait(s: State, e: WaitStep): (r: State)
    requires Shape(s) && CanWait(s, e)
  {
    match e
    case WaitStart(p) => SetPc(s, p, WaitScan(0, false)).(wait := Some(p))
    case WaitSkip(p) => SetPc(s, p, WaitScan(s.procs[p].pc.i + 1, s.procs[p].pc.kids))
    case WaitChild(p) => SetPc(s, p, WaitScan(s.procs[p].pc.i + 1, true))
    case WaitReap(p) =>
      var i := s.procs[p].pc.i;
      var r := Restart(SetPc(Set(s, i, FREED), p, User).(wait := None), i);
      r.(acct := r.acct[i := r.acct[i].(reaps := r.acct[i].reaps + 1)])
    case WaitCopyFails(p) => SetPc(s, p, User).(wait := None)
    case WaitGiveUp(p) => SetPc(s, p, User).(wait := None)
    case WaitSleep1(p) => SetLock(SetPc(s, p, WaitSleepA), p, Some(p))
    case WaitSleep2(p) => SetPc(s, p, WaitSleepB).(wait := None)
    case WaitSleep3(p) => Set(s, p, s.procs[p].(st := Sleeping, chan := Slot(p), pc := Switching(WaitAgain)))
  }

  function DoReparent(s: State, e: ReparentStep): (r: State)
    requires Shape(s) && CanReparent(s, e)
  {
    match e
    case ReparentSkip(p) => SetPc(s, p, ExitReparent(s.procs[p].pc.i + 1))
    case ReparentChild(p) =>
      var i := s.procs[p].pc.i;
      SetPc(Set(s, i, s.procs[i].(parent := Some(s.init))), p, ExitWakeInit(i, 0))
    case WakeInit(p) =>
      var k := s.procs[p].pc.k;
      SetPc(Set(s, k, if k == p then s.procs[k] else Awake(s.procs[k], Slot(s.init))), p,
        ExitWakeInit(s.procs[p].pc.i, k + 1))
    case WakeInitDone(p) => SetPc(s, p, ExitReparent(s.procs[p].pc.i + 1))
    case ReparentDone(p) => SetPc(s, p, ExitWakeParent(0))
  }

  function DoExit(s: State, e: ExitStep): (r: State)
    requires Shape(s) && CanExit(s, e)
  {
    match e
    case ExitStart(p) => SetPc(s, p, ExitReparent(0)).(wait := Some(p))
    case WakeParent(p) =>
      var k := s.procs[p].pc.k;
      var parent := s.procs[p].parent;
      var woken := if k == p || parent == None then s.procs[k] else Awake(s.procs[k], Slot(parent.value));
      SetPc(Set(s, k, woken), p, ExitWakeParent(k + 1))
    case ExitTakeLock(p) => SetLock(SetPc(s, p, ExitLocked), p, Some(p))
    case ExitZombie(p) =>
      var a := s.acct[p];
      Set(s, p, s.procs[p].(st := Zombie, pc := Switching(Dead))).(wait := None,
        acct := s.acct[p := a.(exits := a.exits + 1)])
  }

  function DoSched(s: State, e: SchedStep): (r: State)
    requires Shape(s) && CanSched(s, e)
  {
    match e
    case SleepElsewhere(p) => SetLock(Set(s, p,
      s.procs[p].(st := Sleeping, chan := Elsewhere, pc := Switching(User))), p, Some(p))
    case Yield(p) => SetLock(Set(s, p, s.procs[p].(st := Runnable, pc := Switching(s.procs[p].pc))), p, Some(p))
    case CpuReturn(c) =>
      var p := s.cpus[c].value;
      SetLock(SetPc(s, p, Parked(s.procs[p].pc.next)), p, None).(cpus := s.cpus[c := None], hart := s.hart[p := None])
    case Dispatch(c, p) =>
      SetLock(Set(s, p, s.procs[p].(st := Running, pc := Resumed(s.procs[p].pc.next))), p, Some(p)).(cpus :=
        s.cpus[c := Some(p)], hart := s.hart[p := Some(c)])
    case Resume(p) => SetLock(Set(s, p, s.procs[p].(chan := NoChan, pc := s.procs[p].pc.next)), p, None)
    case Kill(k) => Set(s, k, if s.procs[k].st == Sleeping then s.procs[k].(st := Runnable) else s.procs[k])
    case WakeElsewhere(k) => Set(s, k, Awake(s.procs[k], Elsewhere))
    case Tick =>
      s.(ticks := s.ticks + 1,
         acct := seq(|s.acct|, i requires 0 <= i < |s.acct| && |s.acct| == |s.procs| =>
           Ticked(s.acct[i], s.procs[i].st)))
  }

  function Apply(s: State, e: Step): (r: State)
    requires Shape(s) && Enabled(s, e)
  {
    match e
    case Fork(f) => DoFork(s, f)
    case Wait(w) => DoWait(s, w)
    case Reparent(r) => DoReparent(s, r)
    case Exit(x) => DoExit(s, x)
    case Sched(c) => DoSched(s, c)
  }

  /** After userinit: one process, ready to run, and idle CPUs. */
  ghost predicate Init(s: State) {
    && Shape(s) && s.wait == None && (forall c :: 0 <= c < |s.cpus| ==> s.cpus[c] == None)
    && (forall k :: 0 <= k < |s.procs| ==> s.lock[k] == None)
    && (forall p :: 0 <= p < |s.procs| ==>
          var x := s.procs[p];
          && x.parent == None && x.chan == NoChan && s.hart[p] == None
          && s.acct[p].exits == s.acct[p].reaps && s.acct[p].born + s.acct[p].run <= s.ticks
          && (if p == s.init then x.st == Runnable && x.pc == Parked(User) else x.st == Unused && x.pc == NoThread))
  }

  // ---------------------------------------------------------------- invariant

  function Deep(pc: Pc): (r: Pc) {
    if pc.Switching? || pc.Parked? || pc.Resumed? then pc.next else pc
  }

  predicate OffCpu(pc: Pc) { pc == NoThread || pc.Parked? }

  predicate HoldsWait(pc: Pc) {
    pc.WaitScan? || pc == WaitSleepA || pc.ExitReparent? || pc.ExitWakeInit? || pc.ExitWakeParent? || pc == ExitLocked
  }

  predicate HoldsLock(pc: Pc, p: nat, k: nat) {
    || (k == p && (pc.Switching? || pc.Resumed? || pc == WaitSleepA || pc == WaitSleepB || pc == ExitLocked))
    || pc == ForkInit(k)
  }

  predicate Exiting(pc: Pc) { pc.ExitReparent? || pc.ExitWakeInit? || pc.ExitWakeParent? || pc == ExitLocked
      || pc == Dead }

  /** What a slot's thread position says about its state. */
  ghost predicate ThreadOk(s: State, p: nat)
    requires p < |s.procs|
  {
    var x := s.procs[p];
    && (match x.pc
        case NoThread => x.st == Unused || x.st == Used
        case Parked(y) => Rests(x, p, y)
        case Switching(y) => Rests(x, p, y)
        case Resumed(y) => x.st == Running && Preemptible(y)
        case Dead => false
        case _ => x.st == Running)
    && (x.st == Unused ==> x.parent == None)
    && x.parent != Some(p)
  }

  /** Every exit but the last has been reaped; no process has run longer than it has existed. */
  ghost predicate AccountOk(s: State, p: nat)
    requires Shape(s) && p < |s.procs|
  {
    var a := s.acct[p];
    a.exits == a.reaps + (if s.procs[p].st == Zombie then 1 else 0) && a.born + a.run <= s.ticks
  }

  ghost predicate Rests(x: Proc, p: nat, y: Pc) {
    && (Preemptible(y) || y == Dead)
    && (x.st == Runnable || x.st == Sleeping || x.st == Zombie) && (x.st == Zombie <==> y == Dead)
    && (x.st == Sleeping ==> (y == WaitAgain && x.chan == Slot(p)) || (y == User && x.chan == Elsewhere))
  }

  ghost predicate LockOk(s: State, k: nat, p: nat)
    requires Shape(s) && k < |s.lock| && p < |s.procs|
  {
    s.lock[k] == Some(p) <==> HoldsLock(s.procs[p].pc, p, k)
  }

  ghost predicate WaitOk(s: State, p: nat)
    requires p < |s.procs|
  {
    s.wait == Some(p) <==> HoldsWait(s.procs[p].pc)
  }

  /** Locks are held by processes. */
  ghost predicate HoldersOk(s: State) {
    && (s.wait.Some? ==> s.wait.value < |s.procs|)
    && forall k: nat :: k < |s.lock| && s.lock[k].Some? ==> s.lock[k].value < |s.procs|
  }

  /** Each CPU's c->proc and the thread's own CPU agree. */
  ghost predicate CpuOk(s: State, c: nat)
    requires Shape(s) && c < |s.cpus|
  {
    s.cpus[c].Some? ==> s.cpus[c].value < |s.procs| && s.hart[s.cpus[c].value] == Some(c)
  }

  ghost predicate HartOk(s: State, p: nat)
    requires Shape(s) && p < |s.procs|
  {
    var h := s.hart[p];
    (h == None <==> OffCpu(s.procs[p].pc)) && (h.Some? ==> h.value < |s.cpus| && s.cpus[h.value] == Some(p))
  }

  ghost predicate ForkOk(s: State, p: nat)
    requires p < |s.procs|
  {
    var y := Deep(s.procs[p].pc);
    && ((y.ForkInit? || y.ForkNamed?) ==>
        y.np < |s.procs| && y.np != p && s.procs[y.np].st == Used && s.procs[y.np].parent == None)
    && (y.ForkReady? ==> y.np < |s.procs| && y.np != p && s.procs[y.np].st == Used && s.procs[y.np].parent == Some(p))
  }

  predicate Forking(pc: Pc) { pc.ForkInit? || pc.ForkNamed? || pc.ForkReady? }

  /** Two forks never share a child. */
  ghost predicate OwnChild(s: State, p: nat, q: nat)
    requires p < |s.procs| && q < |s.procs|
  {
    var y, z := Deep(s.procs[p].pc), Deep(s.procs[q].pc);
    Forking(y) && Forking(z) ==> y.np != z.np
  }

  predicate Alive(st: St) { st == Sleeping || st == Runnable || st == Running }

  /** A parent pointer leads to a process that can still wait. */
  ghost predicate ParentOk(s: State, q: nat)
    requires q < |s.procs|
  {
    s.procs[q].parent.Some? ==> s.procs[q].parent.value < |s.procs| && Alive(s.procs[s.procs[q].parent.value].st)
  }

  /** p is in wait's sleep, past its last look at its children. */
  predicate Committed(x: Proc) {
    x.pc == WaitSleepA || x.pc == WaitSleepB || (x.st == Sleeping && Deep(x.pc) == WaitAgain)
  }

  ghost predicate Childless(s: State, p: nat, below: nat) {
    forall j: nat :: j < below && j < |s.procs| ==> s.procs[j].parent != Some(p)
  }

  ghost predicate NoZombieChild(s: State, p: nat, below: nat) {
    forall j: nat :: j < below && j < |s.procs| && s.procs[j].parent == Some(p) ==> s.procs[j].st != Zombie
  }

  ghost predicate ParentAwake(s: State, p: nat, below: nat)
    requires p < |s.procs|
  {
    var q := s.procs[p].parent;
    q.Some? && q.value < below && q.value < |s.procs| ==> !Committed(s.procs[q.value])
  }

  ghost predicate ScanOk(s: State, p: nat)
    requires p < |s.procs|
  {
    match s.procs[p].pc
    case WaitScan(i, _) => i <= |s.procs| && NoZombieChild(s, p, i)
    case WaitSleepA => NoZombieChild(s, p, |s.procs|)
    case ExitReparent(i) => i <= |s.procs| && Childless(s, p, i)
    case ExitWakeInit(i, k) => i < |s.procs| && k <= |s.procs| && Childless(s, p, i + 1)
    case ExitWakeParent(k) => k <= |s.procs| && Childless(s, p, |s.procs|) && ParentAwake(s, p, k)
    case ExitLocked => Childless(s, p, |s.procs|) && ParentAwake(s, p, |s.procs|)
    case _ => true
  }

  /** A committed sleeper with a zombie child is init, and the reparenting exit has yet to wake it. */
  ghost predicate SleeperOk(s: State, q: nat)
    requires q < |s.procs|
  {
    var p := s.procs[q].parent;
    p.Some? && p.value < |s.procs| && s.procs[q].st == Zombie && Committed(s.procs[p.value]) ==>
      && s.wait.Some? && s.wait.value < |s.procs| && s.procs[s.wait.value].pc.ExitWakeInit?
      && p.value == s.init && s.procs[s.wait.value].pc.k <= s.init
  }

  /** The first process never exits and has no parent. */
  ghost predicate InitOk(s: State)
    requires Shape(s)
  {
    Alive(s.procs[s.init].st) && !Exiting(s.procs[s.init].pc) && s.procs[s.init].parent == None
  }

  ghost predicate Inv(s: State) {
    && Shape(s) && InitOk(s) && HoldersOk(s) && Threads(s)
    && (forall p: nat {:trigger AccountOk(s, p)} :: p < |s.procs| ==> AccountOk(s, p))
    && (forall k: nat, p: nat {:trigger LockOk(s, k, p)} :: k < |s.lock| && p < |s.procs| ==> LockOk(s, k, p))
    && (forall p: nat {:trigger WaitOk(s, p)} :: p < |s.procs| ==> WaitOk(s, p))
    && (forall c: nat {:trigger CpuOk(s, c)} :: c < |s.cpus| ==> CpuOk(s, c))
    && (forall p: nat {:trigger HartOk(s, p)} :: p < |s.procs| ==> HartOk(s, p))
    && (forall p: nat {:trigger ForkOk(s, p)} :: p < |s.procs| ==> ForkOk(s, p))
    && (forall p: nat, q: nat {:trigger OwnChild(s, p, q)} :: p < |s.procs| && q < |s.procs| && p != q ==>
         OwnChild(s, p, q))
    && (forall p: nat {:trigger ParentOk(s, p)} :: p < |s.procs| ==> ParentOk(s, p))
    && (forall p: nat {:trigger ScanOk(s, p)} :: p < |s.procs| ==> ScanOk(s, p))
    && (forall p: nat {:trigger SleeperOk(s, p)} :: p < |s.procs| ==> SleeperOk(s, p))
  }

  ghost predicate Threads(s: State) {
    forall p: nat {:trigger ThreadOk(s, p)} :: p < |s.procs| ==> ThreadOk(s, p)
  }

  lemma InitInv(s: State)
    requires Init(s)
    ensures Inv(s)
  {
  }

}
