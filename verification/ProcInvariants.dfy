/**
 What every reachable state of the process table satisfies.
 */
module ProcInvariants {
  import opened Bytes
  import opened ProcModel
  import Ring

  // Slot 0 is the kernel, slot 1 is init, and only initialized processes are runnable.
  ghost predicate Roles(s: Sys)
    requires Shaped(s)
  {
    && s.procs[KERNEL_PID].state == Kernel
    && s.procs[INIT_PID].state != Free && s.procs[INIT_PID].parent == INIT_PID && !s.procs[INIT_PID].orphan
    && (forall p | 1 <= p < MAX_PROC :: s.procs[p].state != Kernel)
    && (forall p | 1 <= p < MAX_PROC && s.procs[p].state != Free :: s.procs[p].initialized)
    && (forall p | 2 <= p < MAX_PROC && s.procs[p].state != Free :: s.procs[p].parent != p)
  }

  // Each run queue holds exactly the runnable processes of its priority, once each.
  ghost predicate Queued(s: Sys, prio: int, p: int)
    requires Shaped(s)
  {
    0 <= p < MAX_PROC && s.procs[p].state == Runnable && s.procs[p].prio == prio
  }

  ghost predicate Queues(s: Sys)
    requires Shaped(s)
  {
    && (forall prio | 0 <= prio <= MAX_PRIO :: Ring.Distinct(s.queues[prio]))
    && (forall prio, p | 0 <= prio <= MAX_PRIO :: p in s.queues[prio] <==> Queued(s, prio, p))
  }

  // Each ring holds exactly the unreaped children that were not reparented.
  ghost predicate IsChild(s: Sys, q: int, c: int)
    requires Shaped(s)
  {
    2 <= c < MAX_PROC && s.procs[c].state != Free && s.procs[c].parent == q && !s.procs[c].orphan
  }

  ghost predicate Gone(st: ProcState) {
    st == Free || st == Zombie || st == Kernel
  }

  ghost predicate Children(s: Sys)
    requires Shaped(s)
  {
    && (forall q | 0 <= q < MAX_PROC :: Ring.Distinct(s.rings[q]))
    && (forall q, c | 0 <= q < MAX_PROC :: c in s.rings[q] <==> IsChild(s, q, c))
    && (forall q | 0 <= q < MAX_PROC && Gone(s.procs[q].state) :: s.rings[q] == [])
    && (forall c | 2 <= c < MAX_PROC && s.procs[c].state != Free && s.procs[c].orphan :: s.procs[c].parent == INIT_PID)
  }

  // A waiting process has children and none of them is a zombie.
  ghost predicate Waiters(s: Sys)
    requires Shaped(s)
  {
    && (forall q | 0 <= q < MAX_PROC && s.procs[q].state == Waiting :: s.rings[q] != [])
    && (forall q, c | 0 <= q < MAX_PROC && s.procs[q].state == Waiting && IsChild(s, q, c) :: s.procs[c].state != Zombie)
  }

  // The lowest-numbered sender blocked on a listener is too large for it.
  ghost predicate FirstWaiter(s: Sys, w: int, l: int)
    requires Shaped(s)
  {
    WaitsFor(s, w, l) && forall j | 0 <= j < w :: !WaitsFor(s, j, l)
  }

  ghost predicate Rendezvous(s: Sys)
    requires Shaped(s)
  {
    forall l, w | 0 <= l < MAX_PROC && s.procs[l].state == ListeningCh && FirstWaiter(s, w, l) ::
      s.procs[w].sendSize > s.procs[l].recvSize
  }

  // Process p has been blocked since the send that it trapped with.
  ghost predicate BlockedSend(x: Proc) {
    && x.call.SendCall? && WellFormed(x.call)
    && x.out == Captured(x.call) && x.target == x.call.target && Pid(x.target)
    && x.sendSize == x.call.size <= BUFF_SIZE && x.ackAddr == x.call.ackAddr && x.ackSize == x.call.ackSize
  }

  // What is pending for q from sender S is what S captured at its send trap, and S still waits.
  ghost predicate SentBy(s: Sys, q: int, d: Delivery)
    requires Shaped(s) && Pid(q) && d.Delivery? && d.origin.FromSender?
  {
    && Pid(d.origin.pid)
    && var x := s.procs[d.origin.pid];
       && x.state == SendingCh && BlockedSend(x) && x.target == q
       && d.bytes == x.out && |d.bytes| <= s.procs[q].recvSize
       && d.addr == s.procs[q].recvAddr && s.procs[q].source == d.origin.pid
  }

  ghost predicate PendingOk(s: Sys, q: int)
    requires Shaped(s) && Pid(q)
  {
    var d := s.procs[q].pending;
    d.Delivery? ==> s.procs[q].state == Runnable && |d.bytes| <= BUFF_SIZE && (d.origin.FromSender? ==> SentBy(s, q, d))
  }

  ghost predicate Deliveries(s: Sys)
    requires Shaped(s)
  {
    && (forall q | 0 <= q < MAX_PROC :: PendingOk(s, q))
    && (forall q | 0 <= q < MAX_PROC && (s.procs[q].state == WaitListener || s.procs[q].state == SendingCh) :: BlockedSend(s.procs[q]))
    && (forall q | 0 <= q < MAX_PROC && s.procs[q].state == SendingCh :: !s.procs[q].acknowledged)
  }

  // Exits are reaped at most once each, and a zombie keeps the error it exited with.
  ghost predicate History(s: Sys)
    requires Shaped(s)
  {
    && (forall p | 0 <= p < MAX_PROC :: s.exits[p] == s.reaps[p] + if s.procs[p].state == Zombie then 1 else 0)
    && (forall p | 0 <= p < MAX_PROC && s.procs[p].state == Zombie :: s.procs[p].err == s.exitErr[p])
  }

  ghost predicate Inv(s: Sys) {
    Shaped(s) && Roles(s) && Queues(s) && Children(s) && Waiters(s) && Rendezvous(s) && Deliveries(s) && History(s)
  }

  // The kernel serves the trap of s.last.
  ghost predicate Trapped(s: Sys, call: Call)
    requires Shaped(s)
  {
    var x := s.procs[s.last];
    s.last > 0 && x.state == Runnable && x.pending == Nothing && x.call == call && x.out == Captured(call) && x.reg0 == Reg0(call) && WellFormed(call)
  }

  lemma RingsInRange(s: Sys)
    requires Shaped(s) && Children(s)
    ensures RingsOk(s)
  {
    forall q, i | 0 <= q < MAX_PROC && 0 <= i < |s.rings[q]| ensures 0 <= s.rings[q][i] < MAX_PROC {
      assert s.rings[q][i] in s.rings[q];
    }
  }
}
