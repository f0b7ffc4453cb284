/**
 Run queues hold exactly the runnable processes, through every system call.
 */
module ProcQueues {
  import opened ProcModel
  import opened ProcInvariants
  import Ring

  lemma {:induction false} RemoveKeeps(q: seq<int>, p: int)
    requires Ring.Distinct(q)
    ensures Ring.Distinct(Remove(q, p))
    ensures forall x :: x in Remove(q, p) <==> x in q && x != p
    ensures p !in q ==> Remove(q, p) == q
    ensures |Remove(q, p)| == |q| - if p in q then 1 else 0
  {
    if q != [] {
      assert forall x :: x in q <==> x == q[0] || x in q[1..];
      assert forall i | 0 <= i < |q| - 1 :: q[1..][i] == q[i + 1];
      if q[0] == p {
        assert p !in q[1..];
      } else {
        RemoveKeeps(q[1..], p);
        assert q[0] !in q[1..];
        assert forall x :: x in Remove(q, p) <==> x == q[0] || x in Remove(q[1..], p);
      }
    }
  }

  // Only a change to or from Runnable concerns the queues.
  lemma PutKeepsQueues(s: Sys, p: int, x: Proc)
    requires Shaped(s) && Queues(s) && Pid(p) && 0 <= x.prio <= MAX_PRIO && Pid(x.parent) && Pid(x.source)
    requires x.state == Runnable <==> s.procs[p].state == Runnable
    requires x.state == Runnable ==> x.prio == s.procs[p].prio
    ensures Queues(Put(s, p, x))
  {
    var t := Put(s, p, x);
    forall prio, q | 0 <= prio <= MAX_PRIO ensures q in t.queues[prio] <==> Queued(t, prio, q) {
      assert q in s.queues[prio] <==> Queued(s, prio, q);
    }
  }

  lemma SameQueues(s: Sys, t: Sys)
    requires Shaped(s) && Queues(s) && Shaped(t) && t.queues == s.queues
    requires forall p | 0 <= p < MAX_PROC :: t.procs[p].state == s.procs[p].state && t.procs[p].prio == s.procs[p].prio
    ensures Queues(t)
  {
    forall prio, q | 0 <= prio <= MAX_PRIO ensures q in t.queues[prio] <==> Queued(t, prio, q) {
      assert q in s.queues[prio] <==> Queued(s, prio, q);
    }
  }

  lemma ChangeStateKeepsQueues(s: Sys, p: int, st: ProcState)
    requires Shaped(s) && Queues(s) && Pid(p)
    ensures Queues(ChangeState(s, p, st))
  {
    var t := ChangeState(s, p, st);
    var own := s.procs[p].prio;
    RemoveKeeps(s.queues[own], p);
    assert p in s.queues[own] <==> Queued(s, own, p);
    forall prio, q | 0 <= prio <= MAX_PRIO ensures q in t.queues[prio] <==> Queued(t, prio, q) {
      assert q in s.queues[prio] <==> Queued(s, prio, q);
    }
  }

  lemma ForkQueues(s: Sys, priority: int)
    requires Shaped(s) && Queues(s) && priority >= 0
    ensures Queues(ForkSys(s, priority))
  {
    hide ChangeState;
    var p := s.last;
    var c := FindFree(s, 2);
    if c == MAX_PROC || priority > s.procs[p].prio {
      SameQueues(s, ForkSys(s, priority));
    } else {
      var a := Put(s, p, s.procs[p].(reg0 := c));
      SameQueues(s, a);
      PutKeepsQueues(a, c, NewProc(p, priority, s.procs[p].err));
      SameQueues(Put(a, c, NewProc(p, priority, s.procs[p].err)), Spawn(s, p, c, priority));
      ChangeStateKeepsQueues(Spawn(s, p, c, priority), c, Runnable);
    }
  }

  lemma ReapQueues(s: Sys, p: int, c: int)
    requires Shaped(s) && Queues(s) && Pid(p) && Pid(c)
    ensures Queues(Reap(s, p, c))
  {
    hide ChangeState;
    var b := Collect(s, p, c);
    SameQueues(s, b);
    ChangeStateKeepsQueues(b, c, Free);
    ChangeStateKeepsQueues(ChangeState(b, c, Free), p, Runnable);
  }

  lemma WaitQueues(s: Sys)
    requires Shaped(s) && Queues(s) && RingsOk(s)
    ensures Queues(WaitSys(s))
  {
    var p := s.last;
    var ring := s.rings[p];
    if ring == [] {
      PutKeepsQueues(s, p, WaitSys(s).procs[p]);
    } else {
      var k := FirstZombie(s, ring);
      if k < |ring| {
        ReapQueues(s, p, ring[k]);
      } else {
        ChangeStateKeepsQueues(s, p, Waiting);
      }
    }
  }

  lemma DepartQueues(s: Sys, e: Err)
    requires Shaped(s) && Queues(s) && RingsOk(s)
    ensures Queues(Depart(s, e))
  {
    hide Queues;
    hide Reparent;
    var t := Depart(s, e);
    forall p | 0 <= p < MAX_PROC ensures t.procs[p].state == s.procs[p].state && t.procs[p].prio == s.procs[p].prio {
    }
    SameQueues(s, t);
  }

  lemma ExitQueues(s: Sys, no: int, data: int)
    requires Shaped(s) && Queues(s) && RingsOk(s)
    ensures Queues(ExitSys(s, no, data))
  {
    hide Queues;
    hide Reap;
    hide ChangeState;
    hide Depart;
    var b := Depart(s, Err(no, data));
    DepartQueues(s, Err(no, data));
    var q := b.procs[s.last].parent;
    if b.procs[q].state == Waiting {
      ReapQueues(b, q, s.last);
    } else {
      ChangeStateKeepsQueues(b, s.last, Zombie);
    }
  }

  lemma ConnectQueues(s: Sys, sender: int, receiver: int)
    requires Shaped(s) && Queues(s) && Pid(sender) && Pid(receiver)
    ensures Queues(Connect(s, sender, receiver))
  {
    hide ChangeState;
    if s.procs[receiver].recvSize < s.procs[sender].sendSize {
      SameQueues(s, Connect(s, sender, receiver));
    } else {
      var b := Meet(s, sender, receiver);
      SameQueues(s, b);
      ChangeStateKeepsQueues(b, sender, SendingCh);
      ChangeStateKeepsQueues(ChangeState(b, sender, SendingCh), receiver, Runnable);
    }
  }

  lemma SendQueues(s: Sys, call: Call)
    requires Shaped(s) && Queues(s) && call.SendCall?
    ensures Queues(SendSys(s, call))
  {
    var p := s.last;
    if !Pid(call.target) || (s.procs[call.target].state != ListeningCh && !call.wait) || call.size > BUFF_SIZE {
      PutKeepsQueues(s, p, SendSys(s, call).procs[p]);
    } else {
      var x := s.procs[p].(target := call.target, sendSize := call.size, ackAddr := call.ackAddr, ackSize := call.ackSize);
      PutKeepsQueues(s, p, x);
      var a := Put(s, p, x);
      if s.procs[call.target].state == ListeningCh {
        ConnectQueues(a, p, call.target);
      } else {
        ChangeStateKeepsQueues(a, p, WaitListener);
      }
    }
  }

  lemma ReceiveQueues(s: Sys, addr: nat, size: nat)
    requires Shaped(s) && Queues(s)
    ensures Queues(ReceiveSys(s, addr, size))
  {
    hide ChangeState;
    hide FindSender;
    var p := s.last;
    var b := Put(s, p, s.procs[p].(recvAddr := addr, recvSize := size));
    SameQueues(s, b);
    ChangeStateKeepsQueues(b, p, ListeningCh);
    var a := Listen(s, addr, size);
    var i := FindSender(a, p, 0);
    if i < MAX_PROC {
      ConnectQueues(a, i, p);
    }
  }

  lemma AckQueues(s: Sys, call: Call)
    requires Shaped(s) && Queues(s) && call.AckCall?
    ensures Queues(AckSys(s, call))
  {
    hide ChangeState;
    var p := s.last;
    var a := Put(s, p, s.procs[p].(returnCode := call.code));
    var q := a.procs[p].source;
    if call.size > BUFF_SIZE || a.procs[q].acknowledged || a.procs[q].state != SendingCh {
      SameQueues(s, AckSys(s, call));
    } else {
      var b := Answer(a, p, q);
      SameQueues(s, b);
      ChangeStateKeepsQueues(b, q, Runnable);
    }
  }

  lemma ServeQueues(s: Sys, call: Call)
    requires Shaped(s) && Queues(s) && RingsOk(s) && WellFormed(call)
    ensures Queues(Serve(s, call))
  {
    hide Queues;
    match call
    case ForkCall(priority) => ForkQueues(s, priority);
    case ExitCall(no, data) => ExitQueues(s, no, data);
    case WaitCall(_) => WaitQueues(s);
    case SendCall(_, _, _, _, _, _, _) => SendQueues(s, call);
    case ReceiveCall(addr, size) => ReceiveQueues(s, addr, size);
    case AckCall(_, _, _, _) => AckQueues(s, call);
    case TestCall(_) =>
  }

  // Where a process that stops being runnable goes.
  lemma LeavesQueue(m: Sys, p: int, st: ProcState)
    requires Shaped(m) && Pid(p) && m.procs[p].state == Runnable && st != Runnable
    ensures var prio := m.procs[p].prio; ChangeState(m, p, st).queues == m.queues[prio := Remove(m.queues[prio], p)]
  {
  }

  // Where a process that becomes runnable goes.
  lemma JoinsFront(m: Sys, p: int)
    requires Shaped(m) && Pid(p) && m.procs[p].state != Runnable
    ensures var prio := m.procs[p].prio; ChangeState(m, p, Runnable).queues == m.queues[prio := [p] + m.queues[prio]]
  {
  }
}
