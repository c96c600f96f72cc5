// kernel/log.c over kernel/bio.c as one interleaved machine: any number of processes
// take and release cached blocks while operations log their changes and a commit runs.
// Its runs refine a plain array of blocks (`logical`) with a crash point (`committed`).

module LogCache {
  import opened DiskBlocks
  import opened RedoLog

  type Handle = nat // one bread .. brelse use of a buffer
  type Op = nat     // one begin_op .. end_op

  datatype Option<T> = None | Some(value: T)

  /** `refs` are the uses counted in refcnt, `lock` the use that holds the sleep lock, and
      `dirty` the operation that changed the data and has not yet called log_write. */
  datatype Buf = Buf(key: Option<nat>, valid: bool, refcnt: nat, refs: set<Handle>,
                     lock: Option<Handle>, dirty: Option<Op>, data: Block)

  /** Where end_op's commit is: Filling(t) in write_log, Installing(t) in install_trans. */
  datatype Phase = Logging | Filling(tail: nat) | Installing(tail: nat) | Clearing | Cleared

  /** `ops` maps each running operation to the number of header slots it has taken. */
  datatype Core = Core(g: Geometry, maxop: nat, lh: seq<int>, phase: Phase,
                       ops: map<Op, nat>, disk: Disk, logical: Disk, committed: Disk)

  datatype State = State(bufs: seq<Buf>, c: Core)

  // ---------------------------------------------------------------- steps

  datatype Step =
    | BeginOp(op: Op)
    | EndOp(op: Op)
    | GetHit(h: Handle, i: nat)
    | GetMiss(h: Handle, i: nat, b: nat)
    | Acquire(h: Handle, i: nat)
    | Load(h: Handle, i: nat)
    | Modify(h: Handle, i: nat, op: Op, v: Block)
    | LogWrite(h: Handle, i: nat, op: Op)
    | Release(h: Handle, i: nat)
    | Fill(h: Handle, i: nat, hj: Handle, j: nat)
    | WriteHead(h: Handle, i: nat)
    | Install(h: Handle, i: nat, hj: Handle, j: nat)
    | Forget
    | ClearHead(h: Handle, i: nat)
    | Finish
    | Crash(crashes: seq<Disk>, cold: seq<Buf>)

  predicate Held(s: State, h: Handle, i: nat) {
    i < |s.bufs| && s.bufs[i].lock == Some(h) && s.bufs[i].valid && s.bufs[i].key.Some?
  }

  predicate HeldBlock(s: State, h: Handle, i: nat, b: int) {
    Held(s, h, i) && s.bufs[i].key.value == b
  }

  function Put(s: State, i: nat, b: Buf): (r: State)
    requires i < |s.bufs|
  {
    s.(bufs := s.bufs[i := b])
  }

  ghost predicate FreshHandle(s: State, h: Handle) {
    forall i :: 0 <= i < |s.bufs| ==> h !in s.bufs[i].refs
  }

  ghost predicate Uncached(s: State, b: nat) {
    forall i :: 0 <= i < |s.bufs| ==> s.bufs[i].key != Some(b)
  }

  ghost predicate NotDirtyBy(s: State, op: Op) {
    forall i :: 0 <= i < |s.bufs| ==> s.bufs[i].dirty != Some(op)
  }

  ghost predicate StepBeginOp(s: State, t: State, op: Op) {
    && s.c.phase.Logging? && op !in s.c.ops
    && |s.c.lh| + (|s.c.ops| + 1) * s.c.maxop <= s.c.g.cap
    && t == s.(c := s.c.(ops := s.c.ops[op := 0]))
  }

  ghost predicate StepEndOp(s: State, t: State, op: Op) {
    && op in s.c.ops && NotDirtyBy(s, op)
    && var rest := s.c.ops - {op};
       t == s.(c := s.c.(ops := rest, phase := if rest == map[] then Filling(0) else s.c.phase))
  }

  ghost predicate StepGetHit(s: State, t: State, h: Handle, i: nat) {
    && i < |s.bufs| && s.bufs[i].key.Some? && FreshHandle(s, h)
    && t == Put(s, i, s.bufs[i].(refcnt := s.bufs[i].refcnt + 1, refs := s.bufs[i].refs + {h}))
  }

  /** The recycled buffer is the one bget's backward scan finds; here, any with refcnt 0. */
  ghost predicate StepGetMiss(s: State, t: State, h: Handle, i: nat, b: nat) {
    && i < |s.bufs| && b < s.c.g.nblocks && Uncached(s, b) && FreshHandle(s, h)
    && s.bufs[i].refcnt == 0
    && t == Put(s, i, s.bufs[i].(key := Some(b), valid := false, refcnt := 1, refs := s.bufs[i].refs + {h}))
  }

  ghost predicate StepAcquire(s: State, t: State, h: Handle, i: nat) {
    && i < |s.bufs| && h in s.bufs[i].refs && s.bufs[i].lock.None?
    && t == Put(s, i, s.bufs[i].(lock := Some(h)))
  }

  ghost predicate StepLoad(s: State, t: State, h: Handle, i: nat) {
    && i < |s.bufs| && s.bufs[i].lock == Some(h) && !s.bufs[i].valid
    && s.bufs[i].key.Some? && s.bufs[i].key.value < |s.c.disk|
    && t == Put(s, i, s.bufs[i].(valid := true, data := s.c.disk[s.bufs[i].key.value]))
  }

  ghost predicate StepModify(s: State, t: State, h: Handle, i: nat, op: Op, v: Block) {
    && Held(s, h, i) && op in s.c.ops && s.c.g.IsHome(s.bufs[i].key.value)
    && (s.bufs[i].dirty.None? || s.bufs[i].dirty == Some(op))
    && t == Put(s, i, s.bufs[i].(data := v, dirty := Some(op)))
  }

  /** An operation takes at most maxop header slots: the promise MAXOPBLOCKS asks of callers. */
  ghost predicate StepLogWrite(s: State, t: State, h: Handle, i: nat, op: Op) {
    && Held(s, h, i) && op in s.c.ops && s.c.g.IsHome(s.bufs[i].key.value)
    && (s.bufs[i].dirty.None? || s.bufs[i].dirty == Some(op))
    && |s.c.lh| < s.c.g.Limit() // the panic guard
    && |s.c.logical| > s.bufs[i].key.value
    && var b := s.bufs[i].key.value;
       var appends := b !in s.c.lh;
       && (appends ==> s.c.ops[op] < s.c.maxop)
       && t == Put(s, i, s.bufs[i].(dirty := None, refcnt := s.bufs[i].refcnt + if appends then 1 else 0))
               .(c := s.c.(lh := Absorb(s.c.lh, b),
                           ops := if appends then s.c.ops[op := s.c.ops[op] + 1] else s.c.ops,
                           logical := s.c.logical[b := s.bufs[i].data]))
  }

  ghost predicate StepRelease(s: State, t: State, h: Handle, i: nat) {
    && i < |s.bufs| && s.bufs[i].lock == Some(h) && s.bufs[i].dirty.None? && s.bufs[i].refcnt > 0
    && t == Put(s, i, s.bufs[i].(lock := None, refs := s.bufs[i].refs - {h}, refcnt := s.bufs[i].refcnt - 1))
  }

  /** One turn of write_log: memmove into the log buffer and bwrite it, both locks held. */
  ghost predicate StepFill(s: State, t: State, h: Handle, i: nat, hj: Handle, j: nat) {
    && s.c.phase.Filling? && s.c.phase.tail < |s.c.lh|
    && var at := s.c.g.start + 1 + s.c.phase.tail;
       && HeldBlock(s, h, i, at) && HeldBlock(s, hj, j, s.c.lh[s.c.phase.tail]) && at < |s.c.disk|
       && t == Put(s, i, s.bufs[i].(data := s.bufs[j].data))
               .(c := s.c.(disk := s.c.disk[at := s.bufs[j].data], phase := Filling(s.c.phase.tail + 1)))
  }

  ghost predicate StepWriteHead(s: State, t: State, h: Handle, i: nat) {
    && s.c.phase == Filling(|s.c.lh|) && 0 < |s.c.lh| < WORDS
    && HeldBlock(s, h, i, s.c.g.start) && s.c.g.start < |s.c.disk|
    && var head := PutHead(s.bufs[i].data, s.c.lh);
       t == Put(s, i, s.bufs[i].(data := head))
            .(c := s.c.(disk := s.c.disk[s.c.g.start := head], phase := Installing(0), committed := s.c.logical))
  }

  /** One turn of install_trans: memmove, bwrite, bunpin. */
  ghost predicate StepInstall(s: State, t: State, h: Handle, i: nat, hj: Handle, j: nat) {
    && s.c.phase.Installing? && s.c.phase.tail < |s.c.lh|
    && var at := s.c.lh[s.c.phase.tail];
       && HeldBlock(s, h, i, s.c.g.start + 1 + s.c.phase.tail) && HeldBlock(s, hj, j, at) && 0 <= at < |s.c.disk|
       && s.bufs[j].refcnt > 0
       && t == Put(s, j, s.bufs[j].(data := s.bufs[i].data, refcnt := s.bufs[j].refcnt - 1))
               .(c := s.c.(disk := s.c.disk[at := s.bufs[i].data], phase := Installing(s.c.phase.tail + 1)))
  }

  ghost predicate StepForget(s: State, t: State) {
    && s.c.phase == Installing(|s.c.lh|)
    && t == s.(c := s.c.(lh := [], phase := Clearing))
  }

  ghost predicate StepClearHead(s: State, t: State, h: Handle, i: nat) {
    && s.c.phase.Clearing? && HeldBlock(s, h, i, s.c.g.start) && s.c.g.start < |s.c.disk|
    && var head := PutHead(s.bufs[i].data, []);
       t == Put(s, i, s.bufs[i].(data := head)).(c := s.c.(disk := s.c.disk[s.c.g.start := head], phase := Cleared))
  }

  ghost predicate StepFinish(s: State, t: State) {
    && (s.c.phase.Cleared? || (s.c.phase == Filling(0) && s.c.lh == []))
    && t == s.(c := s.c.(phase := Logging))
  }

  /** A crash loses everything but the disk; recovery may itself crash any number of times.
      It ends with a cache whose buffers are unused and, where valid, equal to the disk. */
  ghost predicate StepCrash(s: State, t: State, crashes: seq<Disk>, cold: seq<Buf>) {
    && s.c.g.Valid() && CrashChain(s.c.g, crashes) && crashes[0] == s.c.disk
    && s.c.g.GoodDisk(crashes[|crashes| - 1]) && GoodHead(s.c.g, crashes[|crashes| - 1][s.c.g.start])
    && var d := Recovered(s.c.g, crashes[|crashes| - 1]);
       && ColdCache(cold, d)
       && t == State(cold, s.c.(disk := d, lh := [], phase := Logging, ops := map[], logical := s.c.committed))
  }

  ghost predicate ColdCache(bufs: seq<Buf>, d: Disk) {
    && (forall i :: 0 <= i < |bufs| ==> ColdBuf(bufs[i], d))
    && UniqueKeys(bufs)
  }

  ghost predicate ColdBuf(b: Buf, d: Disk) {
    && b.refcnt == 0 && b.refs == {} && b.lock.None? && b.dirty.None?
    && (b.key.None? ==> !b.valid)
    && (b.key.Some? ==> b.key.value < |d| && (b.valid ==> b.data == d[b.key.value]))
  }

  ghost predicate NextStep(s: State, t: State, step: Step) {
    match step
    case BeginOp(op) => StepBeginOp(s, t, op)
    case EndOp(op) => StepEndOp(s, t, op)
    case GetHit(h, i) => StepGetHit(s, t, h, i)
    case GetMiss(h, i, b) => StepGetMiss(s, t, h, i, b)
    case Acquire(h, i) => StepAcquire(s, t, h, i)
    case Load(h, i) => StepLoad(s, t, h, i)
    case Modify(h, i, op, v) => StepModify(s, t, h, i, op, v)
    case LogWrite(h, i, op) => StepLogWrite(s, t, h, i, op)
    case Release(h, i) => StepRelease(s, t, h, i)
    case Fill(h, i, hj, j) => StepFill(s, t, h, i, hj, j)
    case WriteHead(h, i) => StepWriteHead(s, t, h, i)
    case Install(h, i, hj, j) => StepInstall(s, t, h, i, hj, j)
    case Forget => StepForget(s, t)
    case ClearHead(h, i) => StepClearHead(s, t, h, i)
    case Finish => StepFinish(s, t)
    case Crash(crashes, cold) => StepCrash(s, t, crashes, cold)
  }

  /** The state fsinit leaves after its first recovery. */
  ghost predicate Init(s: State) {
    && s.c.g.Valid() && s.c.g.GoodDisk(s.c.disk) && s.c.g.GoodDisk(s.c.logical) && s.c.g.GoodDisk(s.c.committed)
    && GoodHead(s.c.g, s.c.disk[s.c.g.start]) && Entries(s.c.g, s.c.disk[s.c.g.start]) == []
    && ColdCache(s.bufs, s.c.disk)
    && s.c.lh == [] && s.c.phase.Logging? && s.c.ops == map[]
    && SameHome(s.c.g, s.c.logical, s.c.disk) && SameHome(s.c.g, s.c.committed, s.c.disk)
  }

  // ---------------------------------------------------------------- invariant

  ghost predicate UniqueKeys(bufs: seq<Buf>) {
    forall i, j :: 0 <= i < j < |bufs| && bufs[i].key.Some? ==> bufs[i].key != bufs[j].key
  }

  ghost predicate Distinct(lh: seq<int>) {
    forall i, j :: 0 <= i < j < |lh| ==> lh[i] != lh[j]
  }

  /** Blocks log_write pinned and install_trans has not yet unpinned. */
  ghost function Pins(c: Core): (p: seq<int>) {
    if c.phase.Installing? && c.phase.tail <= |c.lh| then c.lh[c.phase.tail..] else c.lh
  }

  /** What a reader of block b must see. */
  ghost function View(c: Core, b: nat): Block
    requires b < |c.disk| && b < |c.logical|
  {
    if c.g.InLog(b) then c.disk[b] else c.logical[b]
  }

  ghost predicate BufOk(c: Core, b: Buf)
    requires |c.disk| == |c.logical|
  {
    && (b.key.None? ==> !b.valid)
    && (b.key.Some? ==> b.key.value < |c.disk|)
    && b.refcnt == |b.refs| + (if b.key.Some? && b.key.value in Pins(c) then 1 else 0)
    && (b.lock.Some? ==> b.lock.value in b.refs)
    && (b.dirty.Some? ==> b.lock.Some? && b.valid && c.g.IsHome(b.key.value) && b.dirty.value in c.ops)
    && (b.valid && b.dirty.None? ==> b.data == View(c, b.key.value))
  }

  ghost predicate Pinned(bufs: seq<Buf>, b: int) {
    exists i :: 0 <= i < |bufs| && Caches(bufs[i], b)
  }

  predicate Caches(buf: Buf, b: int) {
    buf.key.Some? && buf.key.value == b && buf.valid
  }

  ghost predicate Shape(c: Core) {
    && c.g.Valid() && c.g.GoodDisk(c.disk) && c.g.GoodDisk(c.logical) && c.g.GoodDisk(c.committed)
    && AllHome(c.g, c.lh) && Distinct(c.lh) && |c.lh| <= c.g.Limit()
    && GoodHead(c.g, c.disk[c.g.start])
  }

  ghost predicate CacheInv(s: State)
    requires Shape(s.c)
  {
    && UniqueKeys(s.bufs)
    && (forall i :: 0 <= i < |s.bufs| ==> BufOk(s.c, s.bufs[i]))
    && (forall b :: b in Pins(s.c) ==> Pinned(s.bufs, b))
  }

  ghost predicate HomeInv(c: Core)
    requires Shape(c)
  {
    forall b :: c.g.IsHome(b) && b !in Pins(c) ==> c.disk[b] == c.logical[b]
  }

  /** The log area holds, for each of the first k entries of hs, the logical value of its block. */
  ghost predicate LogHolds(g: Geometry, disk: Disk, logical: Disk, hs: seq<int>, k: nat)
    requires g.Valid() && g.GoodDisk(disk) && g.GoodDisk(logical)
    requires k <= |hs| <= g.Limit() && AllHome(g, hs)
  {
    forall i :: 0 <= i < k ==> disk[g.start + 1 + i] == logical[hs[i]]
  }

  ghost predicate PhaseInv(c: Core)
    requires Shape(c)
  {
    var head := Entries(c.g, c.disk[c.g.start]);
    && (!c.phase.Logging? ==> c.ops == map[])
    && match c.phase
       case Logging =>
         head == [] && SameHome(c.g, c.committed, c.disk)
       case Filling(k) =>
         head == [] && SameHome(c.g, c.committed, c.disk) && k <= |c.lh| && LogHolds(c.g, c.disk, c.logical, c.lh, k)
       case Installing(k) =>
         head == c.lh && SameHome(c.g, c.committed, c.logical) && k <= |c.lh|
           && LogHolds(c.g, c.disk, c.logical, c.lh, |c.lh|)
       case Clearing =>
         c.lh == [] && SameHome(c.g, c.committed, c.logical) && LogHolds(c.g, c.disk, c.logical, head, |head|)
       case Cleared =>
         c.lh == [] && head == [] && SameHome(c.g, c.committed, c.disk)
  }

  ghost predicate CoreInv(c: Core) {
    Shape(c) && HomeInv(c) && PhaseInv(c) && Budget(c)
  }

  ghost predicate Inv(s: State) {
    CoreInv(s.c) && CacheInv(s)
  }

  // ---------------------------------------------------------------- log space

  ghost function Unused(ops: map<Op, nat>, maxop: nat): int {
    if ops == map[] then 0
    else
      var o :| o in ops;
      (maxop - ops[o]) + Unused(ops - {o}, maxop)
  }

  /** Slots in use plus slots still promised to running operations fit the header. */
  ghost predicate Budget(c: Core) {
    && (forall o :: o in c.ops ==> c.ops[o] <= c.maxop)
    && |c.lh| + Unused(c.ops, c.maxop) <= c.g.cap
  }

  lemma {:induction false} UnusedRemove(ops: map<Op, nat>, maxop: nat, o: Op)
    requires o in ops
    ensures Unused(ops, maxop) == (maxop - ops[o]) + Unused(ops - {o}, maxop)
    decreases |ops|
  {
    var p :| p in ops && Unused(ops, maxop) == (maxop - ops[p]) + Unused(ops - {p}, maxop);
    if p != o {
      UnusedRemove(ops - {p}, maxop, o);
      UnusedRemove(ops - {o}, maxop, p);
      assert ops - {p} - {o} == ops - {o} - {p};
    }
  }

  lemma TimesSucc(a: int, m: int)
    ensures (a + 1) * m == a * m + m
  {
  }

  lemma {:induction false} UnusedBounds(ops: map<Op, nat>, maxop: nat)
    requires forall o :: o in ops ==> ops[o] <= maxop
    ensures 0 <= Unused(ops, maxop) <= |ops| * maxop
    decreases |ops|
  {
    if ops != map[] {
      var o :| o in ops;
      var rest := ops - {o};
      assert |rest| == |ops| - 1 by {
        assert rest.Keys == ops.Keys - {o};
      }
      UnusedRemove(ops, maxop, o);
      UnusedBounds(rest, maxop);
      TimesSucc(|rest|, maxop);
    }
  }
}
