// choose_next_process over a table that does not change while it is read.

module Scheduler {
  datatype Entry = Entry(runnable: bool, creation: nat, priority: int)

  /** A slot, or none. */
  datatype Choice = Nobody | Slot(p: nat)

  ghost predicate NoneRunnable(t: seq<Entry>) {
    forall k :: 0 <= k < |t| ==> !t[k].runnable
  }

  /** SCHED_ROUND_ROBIN starts at slot 0 every time, so it is "lowest runnable slot first". */
  method ChooseRoundRobin(t: seq<Entry>) returns (r: Choice)
    ensures r.Nobody? <==> NoneRunnable(t)
    ensures r.Slot? ==> r.p < |t| && t[r.p].runnable && forall k :: 0 <= k < r.p ==> !t[k].runnable
  {
    var p := 0;
    while p < |t|
      invariant 0 <= p <= |t| && forall k :: 0 <= k < p ==> !t[k].runnable
    {
      if t[p].runnable {
        return Slot(p);
      }
      p := p + 1;
    }
    return Nobody;
  }

  /** SCHED_FCFS: the oldest runnable process, the lowest slot among equals. */
  method ChooseFcfs(t: seq<Entry>) returns (r: Choice)
    ensures r.Nobody? <==> NoneRunnable(t)
    ensures r.Slot? ==> r.p < |t| && t[r.p].runnable
    ensures r.Slot? ==> forall k :: 0 <= k < |t| && t[k].runnable ==>
              t[r.p].creation < t[k].creation || (t[r.p].creation == t[k].creation && r.p <= k)
  {
    r := Nobody;
    var p := 0;
    while p < |t|
      invariant 0 <= p <= |t|
      invariant r.Nobody? ==> forall k :: 0 <= k < p ==> !t[k].runnable
      invariant r.Slot? ==> r.p < p && t[r.p].runnable
      invariant r.Slot? ==> forall k :: 0 <= k < p && t[k].runnable ==>
                  t[r.p].creation < t[k].creation || (t[r.p].creation == t[k].creation && r.p <= k)
    {
      if t[p].runnable && (r.Nobody? || t[p].creation < t[r.p].creation) {
        r := Slot(p);
      }
      p := p + 1;
    }
  }

  /** allocproc's priority; nothing changes it later. */
  function StartPriority(pid: nat): (r: int) { if pid % 2 != 0 then 10 else 5 }

  ghost predicate FromAllocproc(t: seq<Entry>) {
    forall k :: 0 <= k < |t| ==> exists pid: nat :: t[k].priority == StartPriority(pid)
  }

  /** The first pass of SCHED_PRIORITY; -1 when no runnable process beats it. */
  method MaxPriority(t: seq<Entry>) returns (m: int)
    ensures m >= -1 && forall k :: 0 <= k < |t| && t[k].runnable ==> t[k].priority <= m
    ensures m > -1 ==> exists k :: 0 <= k < |t| && t[k].runnable && t[k].priority == m
  {
    m := -1;
    var p := 0;
    while p < |t|
      invariant 0 <= p <= |t| && m >= -1
      invariant forall k :: 0 <= k < p && t[k].runnable ==> t[k].priority <= m
      invariant m > -1 ==> exists k :: 0 <= k < p && t[k].runnable && t[k].priority == m
    {
      if t[p].runnable && t[p].priority > m {
        m := t[p].priority;
      }
      p := p + 1;
    }
  }

  /**
   * SCHED_PRIORITY: the greatest priority, the lowest slot among equals. It finds someone
   * exactly when some runnable process has a priority of at least 0, and with the priorities
   * allocproc gives that is whenever someone is runnable.
   */
  method ChoosePriority(t: seq<Entry>) returns (r: Choice)
    ensures r.Slot? <==> exists k :: 0 <= k < |t| && t[k].runnable && t[k].priority >= 0
    ensures FromAllocproc(t) ==> (r.Nobody? <==> NoneRunnable(t))
    ensures r.Slot? ==> r.p < |t| && t[r.p].runnable
    ensures r.Slot? ==> forall k :: 0 <= k < |t| && t[k].runnable ==>
              t[k].priority < t[r.p].priority || (t[k].priority == t[r.p].priority && r.p <= k)
  {
    var m := MaxPriority(t);
    if m == -1 {
      return Nobody;
    }
    var p := 0;
    while p < |t|
      invariant 0 <= p <= |t| && forall k :: 0 <= k < p && t[k].runnable ==> t[k].priority != m
    {
      if t[p].runnable && t[p].priority == m {
        return Slot(p);
      }
      p := p + 1;
    }
    return Nobody;
  }
}
