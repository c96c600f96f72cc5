// The driver of kernel/virtio_disk.c and a device that completes requests in any order.

module VirtioDisk {
  import opened VirtioRing

  // ---------------------------------------------------------------- what each operation does

  function Submitted(s: State, b: nat, cmd: Command, i: nat, j: nat, k: nat): (r: State)
    requires |s.ch.free| == |s.ch.desc| == |s.ch.own| == |s.ch.ops| == |s.ch.info| == |s.status| == |s.avail| == s.n
    requires i < s.n && j < s.n && k < s.n
  {
    s.(ch := Built(s.ch, b, cmd, i, j, k), status := s.status[i := 0xff], busy := s.busy + {b},
       avail := s.avail[Slot(s.n, s.availIdx) := i], availIdx := (s.availIdx + 1) % WRAP, queued := s.queued + [i])
  }

  lemma SubmittedGood(s: State, b: nat, cmd: Command, i: nat, j: nat, k: nat)
    requires Good(s) && ThreeFree(s.ch, i, j, k) && forall h :: h in s.ch.reqs ==> s.ch.reqs[h].b != b
    ensures Good(Submitted(s, b, cmd, i, j, k))
  {
    BuiltOk(s.ch, b, cmd, i, j, k);
    RingsFit(s);
    PushRing(s.n, s.avail, s.taken, s.availIdx, s.queued, i);
    JoinsQueue(s.ch.reqs, s.queued, Queued, i, Req(b, cmd, j, k, Queued));
    MissesQueue(s.ch.reqs, s.done, Done, i, Req(b, cmd, j, k, Queued));
    AddQueue(s.ch.reqs, s.queued, Queued, i, Req(b, cmd, j, k, Queued));
    OtherQueue(s.ch.reqs, s.done, Done, i, Req(b, cmd, j, k, Queued));
  }

  lemma AddQueue(reqs: Reqs, q: seq<nat>, phase: Phase, h: nat, x: Req)
    requires QueueOk(reqs, q, phase) && x.phase == phase && (h in reqs ==> reqs[h].phase != phase)
    ensures QueueOk(reqs[h := x], q + [h], phase)
  {
    var t := q + [h];
    forall m: nat | m < |t| ensures t[m] in reqs[h := x] && reqs[h := x][t[m]].phase == phase {
      assert m < |q| ==> t[m] == q[m];
    }
    forall m: nat, l: nat | m < l < |t| ensures t[m] != t[l] {
      assert t[m] == q[m] && q[m] in reqs;
    }
  }

  // ---------------------------------------------------------------- no request is lost

  lemma JoinsQueue(reqs: Reqs, q: seq<nat>, phase: Phase, h: nat, x: Req)
    requires NoneLost(reqs, q, phase)
    ensures NoneLost(reqs[h := x], q + [h], phase)
  {
    forall g: nat | g in reqs[h := x] && reqs[h := x][g].phase == phase ensures Waits(q + [h], g) {
      assert g != h ==> Waits(q, g);
    }
  }

  lemma LeavesQueue(reqs: Reqs, q: seq<nat>, phase: Phase, x: Req)
    requires NoneLost(reqs, q, phase) && q != [] && x.phase != phase
    ensures NoneLost(reqs[q[0] := x], q[1..], phase)
  {
    forall g: nat | g in reqs[q[0] := x] && reqs[q[0] := x][g].phase == phase ensures Waits(q[1..], g) {
      assert Waits(q, g) && q == [q[0]] + q[1..];
    }
  }

  lemma MissesQueue(reqs: Reqs, q: seq<nat>, phase: Phase, h: nat, x: Req)
    requires NoneLost(reqs, q, phase) && x.phase != phase
    ensures NoneLost(reqs[h := x], q, phase)
  {
    forall g: nat | g in reqs[h := x] && reqs[h := x][g].phase == phase ensures Waits(q, g) {
    }
  }

  lemma QuitsQueue(reqs: Reqs, q: seq<nat>, phase: Phase, h: nat)
    requires NoneLost(reqs, q, phase)
    ensures NoneLost(reqs - {h}, q, phase)
  {
    forall g: nat | g in reqs - {h} && (reqs - {h})[g].phase == phase ensures Waits(q, g) {
    }
  }

  // ---------------------------------------------------------------- the other operations

  /** The device picks up the next request. */
  function Picked(s: State): (r: State)
    requires s.queued != [] && s.queued[0] in s.ch.reqs
  {
    s.(ch := SetPhase(s.ch, s.queued[0], Flying), taken := (s.taken + 1) % WRAP, queued := s.queued[1..])
  }

  lemma TailQueue(reqs: Reqs, q: seq<nat>, phase: Phase, h: nat, x: Req)
    requires QueueOk(reqs, q, phase) && q != [] && q[0] == h
    ensures QueueOk(reqs[h := x], q[1..], phase)
  {
    var t := q[1..];
    forall m: nat | m < |t| ensures t[m] in reqs[h := x] && reqs[h := x][t[m]].phase == phase {
      assert t[m] == q[m + 1] && q[0] != q[m + 1];
    }
    forall m: nat, l: nat | m < l < |t| ensures t[m] != t[l] {
      assert t[m] == q[m + 1] && t[l] == q[l + 1];
    }
  }

  lemma OtherQueue(reqs: Reqs, q: seq<nat>, phase: Phase, h: nat, x: Req)
    requires QueueOk(reqs, q, phase) && (h in reqs ==> reqs[h].phase != phase)
    ensures QueueOk(reqs[h := x], q, phase)
  {
    forall m: nat | m < |q| ensures q[m] in reqs[h := x] && reqs[h := x][q[m]].phase == phase {
      assert q[m] != h;
    }
  }

  lemma PickedGood(s: State)
    requires Good(s) && s.queued != []
    ensures s.queued[0] in s.ch.reqs && Good(Picked(s)) && s.avail[Slot(s.n, s.taken)] == s.queued[0]
  {
    var h := s.queued[0];
    assert h in s.ch.reqs && s.ch.reqs[h].phase == Queued;
    SetPhaseOk(s.ch, h, Flying);
    PopRing(s.n, s.avail, s.taken, s.availIdx, s.queued);
    TailQueue(s.ch.reqs, s.queued, Queued, h, s.ch.reqs[h].(phase := Flying));
    OtherQueue(s.ch.reqs, s.done, Done, h, s.ch.reqs[h].(phase := Flying));
    LeavesQueue(s.ch.reqs, s.queued, Queued, s.ch.reqs[h].(phase := Flying));
    MissesQueue(s.ch.reqs, s.done, Done, h, s.ch.reqs[h].(phase := Flying));
  }

  /** The device finishes any request it holds. */
  function Completed(s: State, h: nat): (r: State)
    requires h in s.ch.reqs && h < |s.status| && s.n > 0 && |s.used| == s.n
  {
    s.(ch := SetPhase(s.ch, h, Done), status := s.status[h := 0],
       used := s.used[Slot(s.n, s.usedIdx) := h], usedIdx := (s.usedIdx + 1) % WRAP, done := s.done + [h])
  }

  lemma CompletedGood(s: State, h: nat)
    requires Good(s) && h in s.ch.reqs && s.ch.reqs[h].phase == Flying
    ensures h < s.n && Good(Completed(s, h))
  {
    SetPhaseOk(s.ch, h, Done);
    RingsFit(s);
    PushRing(s.n, s.used, s.seen, s.usedIdx, s.done, h);
    OtherQueue(s.ch.reqs, s.queued, Queued, h, s.ch.reqs[h].(phase := Done));
    JoinsQueue(s.ch.reqs, s.done, Done, h, s.ch.reqs[h].(phase := Done));
    MissesQueue(s.ch.reqs, s.queued, Queued, h, s.ch.reqs[h].(phase := Done));
    AddQueue(s.ch.reqs, s.done, Done, h, s.ch.reqs[h].(phase := Done));
  }

  /** virtio_disk_intr for one used entry: exactly that request's buffer is released. */
  function Acknowledged(s: State): (r: State)
    requires s.done != [] && s.done[0] in s.ch.reqs
  {
    var h := s.done[0];
    s.(ch := SetPhase(s.ch, h, Cleared), busy := s.busy - {s.ch.reqs[h].b}, seen := (s.seen + 1) % WRAP,
      done := s.done[1..])
  }

  lemma AcknowledgedGood(s: State)
    requires Good(s) && s.done != []
    ensures s.done[0] in s.ch.reqs && Good(Acknowledged(s))
    ensures s.used[Slot(s.n, s.seen)] == s.done[0] && s.done[0] < s.n && s.status[s.done[0]] == 0
    ensures |s.ch.info| == s.n && s.ch.info[s.done[0]] == Some(s.ch.reqs[s.done[0]].b)
  {
    var h := s.done[0];
    assert h in s.ch.reqs && s.ch.reqs[h].phase == Done;
    SetPhaseOk(s.ch, h, Cleared);
    PopRing(s.n, s.used, s.seen, s.usedIdx, s.done);
    TailQueue(s.ch.reqs, s.done, Done, h, s.ch.reqs[h].(phase := Cleared));
    OtherQueue(s.ch.reqs, s.queued, Queued, h, s.ch.reqs[h].(phase := Cleared));
    LeavesQueue(s.ch.reqs, s.done, Done, s.ch.reqs[h].(phase := Cleared));
    MissesQueue(s.ch.reqs, s.queued, Queued, h, s.ch.reqs[h].(phase := Cleared));
    assert ReqOk(s.ch, h);
  }

  /** The end of virtio_disk_rw. */
  function Finished(s: State, h: nat): (r: State)
    requires h in s.ch.reqs && |s.ch.free| == |s.ch.desc| == |s.ch.own| == |s.ch.ops| == |s.ch.info|
    requires h < |s.ch.free| && s.ch.reqs[h].mid < |s.ch.free| && s.ch.reqs[h].tail < |s.ch.free|
  {
    s.(ch := Unchained(s.ch, h))
  }

  lemma DropQueue(reqs: Reqs, q: seq<nat>, phase: Phase, h: nat)
    requires QueueOk(reqs, q, phase) && h in reqs && reqs[h].phase != phase
    ensures QueueOk(reqs - {h}, q, phase)
  {
    forall m: nat | m < |q| ensures q[m] in reqs - {h} && (reqs - {h})[q[m]].phase == phase {
      assert q[m] != h;
    }
  }

  lemma FinishedGood(s: State, h: nat)
    requires Good(s) && h in s.ch.reqs && s.ch.reqs[h].phase == Cleared
    ensures ReqOk(s.ch, h) && Good(Finished(s, h))
  {
    assert ReqOk(s.ch, h);
    UnchainedOk(s.ch, h);
    DropQueue(s.ch.reqs, s.queued, Queued, h);
    DropQueue(s.ch.reqs, s.done, Done, h);
    QuitsQueue(s.ch.reqs, s.queued, Queued, h);
    QuitsQueue(s.ch.reqs, s.done, Done, h);
    var r := Finished(s, h);
    forall g: nat | g in r.ch.reqs ensures g in s.ch.reqs && r.ch.reqs[g] == s.ch.reqs[g] {
    }
  }

  /** b->blockno * (BSIZE / 512). */
  function Sector(blockno: nat): (r: nat) { blockno * 2 }

  lemma FreeIsClear(s: State)
    requires Good(s)
    ensures |s.ch.free| == |s.ch.desc| == |s.ch.own| == |s.ch.ops| == |s.ch.info| == |s.status| == |s.avail| == s.n
    ensures s.n > 0
    ensures forall d :: 0 <= d < |s.ch.free| && s.ch.free[d] ==> s.ch.desc[d] == CLEAR
  {
    forall d: nat | d < |s.ch.free| && s.ch.free[d] ensures s.ch.desc[d] == CLEAR {
      assert DescOk(s.ch, d);
    }
  }

  // ---------------------------------------------------------------- an interrupt while the device works on

  /** What may have become of request h between s and r, when `acks` are the acknowledged heads. */
  ghost predicate ServicedAt(s: State, r: State, acks: seq<nat>, h: nat)
    requires h in s.ch.reqs
  {
    && h in r.ch.reqs && r.ch.reqs[h] == s.ch.reqs[h].(phase := r.ch.reqs[h].phase)
    && (r.ch.reqs[h].phase == Cleared <==> s.ch.reqs[h].phase == Cleared || h in acks)
    && (s.ch.reqs[h].phase == Done ==> r.ch.reqs[h].phase == Done || r.ch.reqs[h].phase == Cleared)
    && (h in acks ==> s.ch.reqs[h].phase != Cleared)
  }

  /** The buffers of these requests. */
  ghost function Buffers(reqs: Reqs, acks: seq<nat>): (bs: set<nat>)
    requires forall k :: 0 <= k < |acks| ==> acks[k] in reqs
  {
    set k | 0 <= k < |acks| :: reqs[acks[k]].b
  }

  /** From s to r the device has worked on and exactly `acks`, each once, have been acknowledged. */
  ghost predicate Serviced(s: State, r: State, acks: seq<nat>) {
    && r.ch.free == s.ch.free && r.ch.reqs.Keys == s.ch.reqs.Keys
    && (forall h: nat {:trigger ServicedAt(s, r, acks, h)} :: h in s.ch.reqs ==> ServicedAt(s, r, acks, h))
    && (forall k :: 0 <= k < |acks| ==> acks[k] in s.ch.reqs)
    && (forall j, k :: 0 <= j < k < |acks| ==> acks[j] != acks[k])
    && r.busy == s.busy - Buffers(s.ch.reqs, acks)
  }

  lemma ServicedStart(s: State)
    ensures Serviced(s, s, [])
  {
    assert Buffers(s.ch.reqs, []) == {};
  }

  /** A request changes phase, but not to or from Cleared, nor away from Done. */
  lemma ServicedMove(s: State, r: State, t: State, acks: seq<nat>, h: nat, phase: Phase)
    requires Serviced(s, r, acks) && h in r.ch.reqs && t.ch == SetPhase(r.ch, h, phase) && t.busy == r.busy
    requires phase != Cleared && r.ch.reqs[h].phase != Cleared && r.ch.reqs[h].phase != Done
    ensures Serviced(s, t, acks)
  {
    forall g: nat | g in s.ch.reqs ensures ServicedAt(s, t, acks, g) {
      assert ServicedAt(s, r, acks, g);
    }
  }

  lemma ServicedAck(s: State, r: State, acks: seq<nat>)
    requires Serviced(s, r, acks) && r.done != [] && r.done[0] in r.ch.reqs && r.ch.reqs[r.done[0]].phase == Done
    ensures Serviced(s, Acknowledged(r), acks + [r.done[0]])
    ensures r.done[0] in s.ch.reqs && r.ch.reqs[r.done[0]].b == s.ch.reqs[r.done[0]].b
  {
    var h, t, more := r.done[0], Acknowledged(r), acks + [r.done[0]];
    assert ServicedAt(s, r, acks, h);
    forall g: nat | g in s.ch.reqs ensures ServicedAt(s, t, more, g) {
      assert ServicedAt(s, r, acks, g);
    }
    BuffersMore(s.ch.reqs, acks, h);
  }

  lemma BuffersMore(reqs: Reqs, acks: seq<nat>, h: nat)
    requires (forall k :: 0 <= k < |acks| ==> acks[k] in reqs) && h in reqs
    ensures Buffers(reqs, acks + [h]) == Buffers(reqs, acks) + {reqs[h].b}
  {
    var more := acks + [h];
    forall b | b in Buffers(reqs, acks) + {reqs[h].b} ensures b in Buffers(reqs, more) {
      if b in Buffers(reqs, acks) {
        var k :| 0 <= k < |acks| && reqs[acks[k]].b == b;
        assert more[k] == acks[k];
      } else {
        assert more[|acks|] == h;
      }
    }
  }

  /** The buffers returned, in the order of acknowledgement. */
  ghost predicate Answers(reqs: Reqs, acks: seq<nat>, released: seq<nat>) {
    |released| == |acks| && forall k :: 0 <= k < |acks| ==> acks[k] in reqs && released[k] == reqs[acks[k]].b
  }

  lemma AnswersMore(reqs: Reqs, acks: seq<nat>, released: seq<nat>, h: nat, b: nat)
    requires Answers(reqs, acks, released) && h in reqs && b == reqs[h].b
    ensures Answers(reqs, acks + [h], released + [b])
  {
  }

  /** With the used ring empty, every request that was done has been acknowledged. */
  lemma AllSeen(s: State, r: State, acks: seq<nat>)
    requires Serviced(s, r, acks) && r.done == [] && NoneLost(r.ch.reqs, r.done, Done)
    ensures forall h :: h in s.ch.reqs && s.ch.reqs[h].phase == Done ==> h in acks
  {
    forall h | h in s.ch.reqs && s.ch.reqs[h].phase == Done ensures h in acks {
      assert ServicedAt(s, r, acks, h);
      assert !Waits(r.done, h);
    }
  }

  /** Requests the driver has yet to hear of. */
  ghost function Unacked(reqs: Reqs): (hs: set<nat>) {
    set h | h in reqs && reqs[h].phase != Cleared
  }

  lemma PickedServiced(s: State, r: State, acks: seq<nat>)
    requires Good(r) && r.queued != [] && Serviced(s, r, acks)
    ensures r.queued[0] in r.ch.reqs && Serviced(s, Picked(r), acks) && Unacked(Picked(r).ch.reqs) == Unacked(r.ch.reqs)
  {
    var h := r.queued[0];
    assert h in r.ch.reqs && r.ch.reqs[h].phase == Queued;
    ServicedMove(s, r, Picked(r), acks, h, Flying);
  }

  lemma CompletedServiced(s: State, r: State, acks: seq<nat>, h: nat)
    requires Good(r) && h in r.ch.reqs && r.ch.reqs[h].phase == Flying && h < r.n && Serviced(s, r, acks)
    ensures |r.status| == r.n && |r.used| == r.n
    ensures Serviced(s, Completed(r, h), acks) && Unacked(Completed(r, h).ch.reqs) == Unacked(r.ch.reqs)
  {
    ServicedMove(s, r, Completed(r, h), acks, h, Done);
  }

  /** What the device does on its own. */
  datatype DeviceAct = Pick | Complete(h: nat)

  // ---------------------------------------------------------------- the driver

  class Disk {
    const n: nat
    var free: seq<bool>
    var desc: seq<Desc>
    var ops: seq<Command>
    var info: seq<Option<nat>>
    var status: seq<nat>

    /** Buffers whose b->disk is set. */
    var busy: set<nat>

    // The available ring, written here and read by the device, and the used ring the other way round.
    var avail: seq<nat>
    var availIdx: nat
    var taken: nat
    var used: seq<nat>
    var usedIdx: nat
    var seen: nat

    /** Requests under way; the device looks here for those it holds, the driver never does. */
    var reqs: Reqs

    ghost var own: seq<Option<nat>>
    ghost var queued: seq<nat>
    ghost var done: seq<nat>

    ghost function Now(): (s: State)
      reads this
    {
      State(n, Chains(free, desc, ops, info, own, reqs), status, busy, avail, taken, availIdx, used, seen, usedIdx,
        queued, done)
    }

    ghost predicate Valid()
      reads this
    {
      Good(Now())
    }

    constructor (n: nat)
      requires GoodSize(n) && n < WRAP
      ensures Valid() && this.n == n && reqs == map[] && forall i :: 0 <= i < n ==> free[i]
    {
      this.n := n;
      free, desc, ops, info := seq(n, _ => true), seq(n, _ => CLEAR), seq(n, _ => Command(false, 0)), seq(n, _ => None);
      status, busy := seq(n, _ => 0), {};
      avail, availIdx, taken, used, usedIdx, seen := seq(n, _ => 0), 0, 0, seq(n, _ => 0), 0, 0;
      own, reqs, queued, done := seq(n, _ => None), map[], [], [];
      new;
      CountAll(free);
      forall i: nat | i < n ensures DescOk(Now().ch, i) {
      }
    }

    /** alloc_desc: the lowest free descriptor. */
    method AllocDesc() returns (i: Option<nat>)
      modifies `free
      ensures i.None? ==> free == old(free) && forall k :: 0 <= k < |free| ==> !free[k]
      ensures i.Some? ==> i.value < |old(free)| && old(free)[i.value] && free == old(free)[i.value := false]
    {
      var k := 0;
      while k < |free|
        invariant 0 <= k <= |free| && free == old(free) && forall j :: 0 <= j < k ==> !free[j]
      {
        if free[k] {
          free := free[k := false];
          return Some(k);
        }
        k := k + 1;
      }
      return None;
    }

    /** free_desc; its two panics are ruled out by the requirement. */
    method FreeDesc(i: nat)
      requires i < |free| == |desc| && !free[i]
      modifies `free, `desc
      ensures free == old(free)[i := true] && desc == old(desc)[i := CLEAR]
    {
      desc := desc[i := CLEAR];
      free := free[i := true];
    }

    /** alloc3_desc: three descriptors, or everything as before. */
    method Alloc3Desc() returns (idx: seq<nat>)
      requires |free| == |desc| && forall i :: 0 <= i < |free| && free[i] ==> desc[i] == CLEAR
      modifies `free, `desc
      ensures desc == old(desc)
      ensures idx == [] ==> free == old(free) && Count(free) < 3
      ensures idx != [] ==>
                && |idx| == 3 && Claims(old(free), idx)
                && free == old(free)[idx[0] := false][idx[1] := false][idx[2] := false]
    {
      idx := [];
      ghost var free0 := free;
      while |idx| < 3
        invariant |idx| <= 3 && Claims(free0, idx) && free == Claimed(free0, idx) && desc == old(desc)
        decreases 3 - |idx|
      {
        var i := AllocDesc();
        if i.None? {
          NoneLeft(free0, idx);
          Undo(idx, free0);
          return [];
        }
        ClaimMore(free0, idx, i.value);
        idx := idx + [i.value];
      }
      ClaimedThree(free0, idx);
    }

    /** The undo loop of alloc3_desc. */
    method Undo(idx: seq<nat>, ghost free0: seq<bool>)
      requires |free0| == |desc| && Claims(free0, idx)
      requires free == Claimed(free0, idx) && forall i :: 0 <= i < |free0| && free0[i] ==> desc[i] == CLEAR
      modifies `free, `desc
      ensures free == free0 && desc == old(desc)
    {
      var j := 0;
      ClaimedAt(free0, idx);
      while j < |idx|
        invariant 0 <= j <= |idx| && |free| == |free0| && desc == old(desc)
        invariant forall i :: 0 <= i < |free0| ==> free[i] == (free0[i] && i !in idx[j..])
      {
        assert idx[j] in idx[j..];
        assert idx[j..] == [idx[j]] + idx[j + 1..];
        FreeDesc(idx[j]);
        assert idx[j] !in idx[j + 1..];
        j := j + 1;
      }
      assert free == free0;
    }

    /** The three descriptors of a request: command header, data, status byte. */
    method Format(b: nat, cmd: Command, i: nat, j: nat, k: nat)
      requires i < |desc| && j < |desc| && k < |desc| && |ops| == |desc| && |status| == |desc| && |info| == |desc|
      modifies `desc, `ops, `status, `info
      ensures desc == old(desc)[i := Desc(Op(i), REQSIZE, NEXT, j)]
              [j := Desc(Data(b), BSIZE, if cmd.write then NEXT else WRITE + NEXT, k)]
              [k := Desc(Status(i), 1, WRITE, 0)]
      ensures ops == old(ops)[i := cmd] && status == old(status)[i := 0xff] && info == old(info)[i := Some(b)]
    {
      ops := ops[i := cmd];
      desc := desc[i := Desc(Op(i), REQSIZE, NEXT, j)];
      desc := desc[j := Desc(Data(b), BSIZE, if cmd.write then NEXT else WRITE + NEXT, k)];
      status := status[i := 0xff];
      desc := desc[k := Desc(Status(i), 1, WRITE, 0)];
      info := info[i := Some(b)];
    }

    /** Filling in the descriptors, marking the buffer and telling the device. */
    method Fill(b: nat, cmd: Command, i: nat, j: nat, k: nat, ghost s: State)
      requires |s.ch.free| == |s.ch.desc| == |s.ch.own| == |s.ch.ops| == |s.ch.info| == |s.status| == |s.avail| == s.n
      requires i < s.n && j < s.n && k < s.n
      requires s.n > 0 && Now() == s.(ch := s.ch.(free := s.ch.free[i := false][j := false][k := false]))
      modifies this
      ensures Now() == Submitted(s, b, cmd, i, j, k)
    {
      Format(b, cmd, i, j, k);
      busy := busy + {b};
      avail := avail[Slot(n, availIdx) := i];
      availIdx := (availIdx + 1) % WRAP;
      own := own[i := Some(i)][j := Some(i)][k := Some(i)];
      reqs, queued := reqs[i := Req(b, cmd, j, k, Queued)], queued + [i];
      assert Now().ch == Built(s.ch, b, cmd, i, j, k);
    }

    /** virtio_disk_rw up to the notification; None when it has to sleep for descriptors. */
    method Submit(b: nat, write: bool, blockno: nat) returns (h: Option<nat>, ghost j: nat, ghost k: nat)
      requires Valid() && forall g :: g in reqs ==> reqs[g].b != b
      modifies this
      ensures Valid()
      ensures h.None? ==> Now() == old(Now()) && Count(free) < 3
      ensures h.Some? ==>
                && ThreeFree(old(Now()).ch, h.value, j, k) && |old(Now()).status| == n && |old(Now()).avail| == n
                && |old(Now()).ch.free| == n
                && Now() == Submitted(old(Now()), b, Command(write, Sector(blockno)), h.value, j, k)
    {
      ghost var s := Now();
      FreeIsClear(s);
      var idx := Alloc3Desc();
      if idx == [] {
        return None, 0, 0;
      }
      SubmittedGood(s, b, Command(write, Sector(blockno)), idx[0], idx[1], idx[2]);
      Fill(b, Command(write, Sector(blockno)), idx[0], idx[1], idx[2], s);
      return Some(idx[0]), idx[1], idx[2];
    }

    lemma TestIsQueued()
      requires Valid()
      ensures taken == availIdx <==> queued == []
    {
      EmptyRing(n, avail, taken, availIdx, queued);
    }

    method PickNext() returns (h: nat)
      requires queued != [] && queued[0] in reqs && |avail| == n > 0 && avail[Slot(n, taken)] == queued[0]
      modifies this
      ensures h == old(queued)[0] && Now() == Picked(old(Now()))
    {
      h := avail[Slot(n, taken)];
      taken := (taken + 1) % WRAP;
      reqs := reqs[h := reqs[h].(phase := Flying)];
      queued := queued[1..];
    }

    /** The device reads the next available entry, if there is one. */
    method DevicePick() returns (h: Option<nat>)
      requires Valid()
      modifies this
      ensures Valid() && (h.None? <==> old(queued) == []) && (h.None? ==> Now() == old(Now()))
      ensures h.Some? ==> h.value == old(queued)[0] && h.value in old(reqs) && Now() == Picked(old(Now()))
    {
      TestIsQueued();
      if taken == availIdx {
        return None;
      }
      PickedGood(Now());
      var i := PickNext();
      return Some(i);
    }

    /** The device reports a request it holds as done, whichever it likes. */
    method DeviceComplete(h: nat)
      requires Valid() && h in reqs && reqs[h].phase == Flying
      modifies this
      ensures Valid() && h < n && Now() == Completed(old(Now()), h)
    {
      CompletedGood(Now(), h);
      status := status[h := 0];
      used := used[Slot(n, usedIdx) := h];
      usedIdx := (usedIdx + 1) % WRAP;
      reqs, done := reqs[h := reqs[h].(phase := Done)], done + [h];
      assert Now() == Completed(old(Now()), h);
    }

    /** One turn of virtio_disk_intr's loop. */
    method IntrOne() returns (b: nat)
      requires Valid() && done != []
      modifies this
      ensures Valid() && old(done)[0] in old(reqs) && b == old(reqs)[old(done)[0]].b
      ensures Now() == Acknowledged(old(Now()))
    {
      AcknowledgedGood(Now());
      var id := used[Slot(n, seen)];
      b := info[id].value;
      busy := busy - {b};
      seen := (seen + 1) % WRAP;
      reqs, done := reqs[id := reqs[id].(phase := VirtioRing.Cleared)], done[1..];
      assert Now() == Acknowledged(old(Now()));
    }

    /** The device does these things, as far as it can. */
    method DeviceActs(acts: seq<DeviceAct>, ghost s: State, ghost acks: seq<nat>)
      requires Valid() && Serviced(s, Now(), acks)
      modifies this
      ensures Valid() && Serviced(s, Now(), acks) && Unacked(reqs) == Unacked(old(reqs))
    {
      var i := 0;
      while i < |acts|
        invariant 0 <= i <= |acts| && Valid() && Serviced(s, Now(), acks) && Unacked(reqs) == Unacked(old(reqs))
      {
        DeviceAct(acts[i], s, acks);
        i := i + 1;
      }
    }

    method DeviceAct(act: DeviceAct, ghost s: State, ghost acks: seq<nat>)
      requires Valid() && Serviced(s, Now(), acks)
      modifies this
      ensures Valid() && Serviced(s, Now(), acks) && Unacked(reqs) == Unacked(old(reqs))
    {
      ghost var r := Now();
      match act
      case Pick =>
        if queued != [] {
          PickedServiced(s, r, acks);
        }
        var h := DevicePick();
      case Complete(h) =>
        if h in reqs && reqs[h].phase == Flying {
          CompletedGood(r, h);
          CompletedServiced(s, r, acks, h);
          DeviceComplete(h);
        }
    }

    /** The loop's test tells whether a completion is waiting. */
    lemma TestIsDone()
      requires Valid()
      ensures seen == usedIdx <==> done == []
    {
      EmptyRing(n, used, seen, usedIdx, done);
    }

    /** One turn of the loop, and what the device does before the next look. */
    method IntrTurn(acts: seq<DeviceAct>, ghost s: State, ghost acks: seq<nat>) returns (b: nat, ghost h: nat)
      requires Valid() && Serviced(s, Now(), acks) && seen != usedIdx
      modifies this
      ensures Valid() && Serviced(s, Now(), acks + [h]) && h in s.ch.reqs && b == s.ch.reqs[h].b
      ensures h in Unacked(old(reqs)) && Unacked(reqs) == Unacked(old(reqs)) - {h}
    {
      TestIsDone();
      ghost var r := Now();
      h := r.done[0];
      assert h in r.ch.reqs && r.ch.reqs[h].phase == Done;
      ServicedAck(s, r, acks);
      b := IntrOne();
      assert Unacked(reqs) == Unacked(r.ch.reqs) - {h};
      DeviceActs(acts, s, acks + [h]);
    }

    method IntrLoop(acts: nat -> seq<DeviceAct>, ghost s: State) returns (released: seq<nat>, ghost acks: seq<nat>)
      requires Valid() && Serviced(s, Now(), [])
      modifies this
      ensures Valid() && seen == usedIdx && Serviced(s, Now(), acks) && Answers(s.ch.reqs, acks, released)
    {
      released, acks := [], [];
      var turn := 0;
      while seen != usedIdx
        invariant Valid() && Serviced(s, Now(), acks) && Answers(s.ch.reqs, acks, released)
        decreases Unacked(reqs)
      {
        turn := turn + 1;
        var b;
        ghost var h;
        b, h := IntrTurn(acts(turn), s, acks);
        AnswersMore(s.ch.reqs, acks, released, h, b);
        released, acks := released + [b], acks + [h];
      }
    }

    /** virtio_disk_intr, with the device at work before every look at its index: every completion
        is seen, each request acknowledged once, and exactly those requests' buffers released. */
    method Intr(acts: nat -> seq<DeviceAct>) returns (released: seq<nat>, ghost acks: seq<nat>)
      requires Valid()
      modifies this
      ensures Valid() && done == [] && Serviced(old(Now()), Now(), acks) && Answers(old(reqs), acks, released)
      ensures forall h :: h in old(reqs) && old(reqs)[h].phase == Done ==> h in acks
    {
      ghost var s := Now();
      ServicedStart(s);
      DeviceActs(acts(0), s, []);
      released, acks := IntrLoop(acts, s);
      TestIsDone();
      AllSeen(s, Now(), acks);
    }

    /** free_chain from h: exactly the three descriptors of that request. */
    method FreeChain(h: nat, ghost r: Req)
      requires |free| == |desc| && h < |desc| && r.mid < |desc| && r.tail < |desc| && h != r.mid && h != r.tail
      requires r.mid != r.tail
      requires !free[h] && !free[r.mid] && !free[r.tail]
      requires desc[h].flags % 2 == 1 && desc[h].next == r.mid && desc[r.mid].flags % 2 == 1
      requires desc[r.mid].next == r.tail && desc[r.tail].flags % 2 == 0
      modifies `free, `desc
      ensures free == old(free)[h := true][r.mid := true][r.tail := true]
      ensures desc == old(desc)[h := CLEAR][r.mid := CLEAR][r.tail := CLEAR]
    {
      var i, more := h, true;
      ghost var turn := 0;
      while more
        invariant 0 <= turn <= 3 && (more <==> turn < 3) && |free| == |desc| == |old(free)|
        invariant more ==> i == [h, r.mid, r.tail][turn]
        invariant free == [old(free), old(free)[h := true], old(free)[h := true][r.mid := true],
                  old(free)[h := true][r.mid := true][r.tail := true]][turn]
        invariant desc == [old(desc), old(desc)[h := CLEAR], old(desc)[h := CLEAR][r.mid := CLEAR],
                  old(desc)[h := CLEAR][r.mid := CLEAR][r.tail := CLEAR]][turn]
        decreases 3 - turn
      {
        var flag, nxt := desc[i].flags, desc[i].next;
        FreeDesc(i);
        if flag % 2 == 1 {
          i := nxt;
        } else {
          more := false;
        }
        turn := turn + 1;
      }
    }

    /** The statements after virtio_disk_rw's wait. */
    method FinishChain(h: nat, ghost r: Req)
      requires |free| == |desc| == |info| == |own| && Describes(desc, ops, info, h, r) && h in reqs && reqs[h] == r
      requires !free[h] && !free[r.mid] && !free[r.tail]
      modifies this
      ensures Now() == Finished(old(Now()), h)
    {
      info := info[h := None];
      FreeChain(h, r);
      own, reqs := own[h := None][r.mid := None][r.tail := None], reqs - {h};
    }

    /** virtio_disk_rw after its wait: b->disk is clear, so the chain can go. */
    method Finish(h: nat)
      requires Valid() && h in reqs && reqs[h].b !in busy
      modifies this
      ensures Valid() && ReqOk(old(Now()).ch, h) && Now() == Finished(old(Now()), h)
    {
      FinishedGood(Now(), h);
      ChainInUse(Now().ch, h);
      FinishChain(h, reqs[h]);
    }
  }

  lemma ChainInUse(s: Chains, h: nat)
    requires ChainsOk(s) && h in s.reqs
    ensures Describes(s.desc, s.ops, s.info, h, s.reqs[h]) && |s.free| == |s.desc| == |s.own| == |s.info|
    ensures !s.free[h] && !s.free[s.reqs[h].mid] && !s.free[s.reqs[h].tail]
  {
    assert ReqOk(s, h);
    assert DescOk(s, h) && DescOk(s, s.reqs[h].mid) && DescOk(s, s.reqs[h].tail);
  }

  // ---------------------------------------------------------------- allocating three

  ghost predicate Distinct(s: seq<nat>) {
    forall i, j :: 0 <= i < j < |s| ==> s[i] != s[j]
  }

  /** Different descriptors, all free. */
  ghost predicate Claims(free: seq<bool>, idx: seq<nat>) {
    Distinct(idx) && forall k :: 0 <= k < |idx| ==> idx[k] < |free| && free[idx[k]]
  }

  lemma ClaimMore(free: seq<bool>, idx: seq<nat>, i: nat)
    requires Claims(free, idx) && i < |free| && Claimed(free, idx)[i]
    ensures Claims(free, idx + [i]) && Claimed(free, idx + [i]) == Claimed(free, idx)[i := false]
  {
    ClaimedAt(free, idx);
    ClaimedNext(free, idx, i);
    assert i !in idx;
  }

  lemma NoneLeft(free: seq<bool>, idx: seq<nat>)
    requires Claims(free, idx) && forall k :: 0 <= k < |free| ==> !Claimed(free, idx)[k]
    ensures Count(free) == |idx|
  {
    CountClaimed(free, idx);
    CountNone(Claimed(free, idx));
  }

  /** `free` with the listed descriptors taken, in order. */
  ghost function Claimed(free: seq<bool>, idx: seq<nat>): (r: seq<bool>)
    requires forall k :: 0 <= k < |idx| ==> idx[k] < |free|
    ensures |r| == |free|
  {
    if idx == [] then free else Claimed(free, idx[..|idx| - 1])[idx[|idx| - 1] := false]
  }

  lemma ClaimedNext(free: seq<bool>, idx: seq<nat>, i: nat)
    requires i < |free| && forall k :: 0 <= k < |idx| ==> idx[k] < |free|
    ensures Claimed(free, idx + [i]) == Claimed(free, idx)[i := false]
  {
    assert (idx + [i])[..|idx|] == idx;
  }

  lemma {:induction false} ClaimedAt(free: seq<bool>, idx: seq<nat>)
    requires forall k :: 0 <= k < |idx| ==> idx[k] < |free|
    ensures forall i :: 0 <= i < |free| ==> Claimed(free, idx)[i] == (free[i] && i !in idx)
  {
    if idx != [] {
      var front := idx[..|idx| - 1];
      ClaimedAt(free, front);
      assert idx == front + [idx[|idx| - 1]];
    }
  }

  lemma {:induction false} CountClaimed(free: seq<bool>, idx: seq<nat>)
    requires Distinct(idx) && forall k :: 0 <= k < |idx| ==> idx[k] < |free| && free[idx[k]]
    ensures Count(Claimed(free, idx)) == Count(free) - |idx|
  {
    if idx != [] {
      var front, last := idx[..|idx| - 1], idx[|idx| - 1];
      CountClaimed(free, front);
      ClaimedAt(free, front);
      CountSet(Claimed(free, front), last, false);
    }
  }

  lemma ClaimedThree(free: seq<bool>, idx: seq<nat>)
    requires |idx| == 3 && forall k :: 0 <= k < |idx| ==> idx[k] < |free|
    ensures Claimed(free, idx) == free[idx[0] := false][idx[1] := false][idx[2] := false]
  {
    var two, one := idx[..2], idx[..1];
    assert two[..1] == one && one[..0] == [] && Claimed(free, []) == free;
    assert Claimed(free, one) == free[idx[0] := false];
    assert Claimed(free, two) == Claimed(free, one)[idx[1] := false];
  }

  lemma {:induction false} CountNone(free: seq<bool>)
    requires forall k :: 0 <= k < |free| ==> !free[k]
    ensures Count(free) == 0
  {
    if free != [] {
      CountNone(free[..|free| - 1]);
    }
  }

  lemma {:induction false} CountAll(free: seq<bool>)
    requires forall k :: 0 <= k < |free| ==> free[k]
    ensures Count(free) == |free|
  {
    if free != [] {
      CountAll(free[..|free| - 1]);
    }
  }
}
