/**
 Debts: in every run, whatever the other processes do, a process owes an acknowledgement
 exactly while the process it last received from is blocked on it.
 */
module ProcDebts {
  import opened ProcModel
  import opened ProcInvariants
  import opened ProcQueues
  import opened ProcFamily
  import opened ProcChannels
  import opened ProcRuns

  // The process that p last received from is blocked in its send to p.
  ghost predicate Awaited(s: Sys, p: int)
    requires Shaped(s) && Pid(p)
  {
    var x := s.procs[s.procs[p].source];
    x.state == SendingCh && x.target == p
  }

  ghost predicate Debts(s: Sys)
    requires Shaped(s)
  {
    forall p | 0 <= p < MAX_PROC :: s.procs[p].owes <==> Awaited(s, p)
  }

  // The fields that debts look at.
  ghost predicate SameDebt(x: Proc, y: Proc) {
    && y.owes == x.owes && y.source == x.source
    && (x.state == SendingCh <==> y.state == SendingCh)
    && (x.state == SendingCh ==> y.target == x.target)
  }

  lemma SameDebtKeeps(s: Sys, t: Sys)
    requires Shaped(s) && Debts(s) && Shaped(t)
    requires forall p | 0 <= p < MAX_PROC :: SameDebt(s.procs[p], t.procs[p])
    ensures Debts(t)
  {
    forall p | 0 <= p < MAX_PROC ensures t.procs[p].owes <==> Awaited(t, p) {
      assert s.procs[p].owes <==> Awaited(s, p);
      assert SameDebt(s.procs[p], t.procs[p]) && SameDebt(s.procs[s.procs[p].source], t.procs[s.procs[p].source]);
    }
  }

  // ---------- system calls ----------

  // Only the slots a and b differ.
  ghost predicate OnlyTwo(s: Sys, t: Sys, a: int, b: int)
    requires Shaped(s) && Shaped(t) && Pid(a) && Pid(b)
  {
    forall x | 0 <= x < MAX_PROC && x != a && x != b :: t.procs[x] == s.procs[x]
  }

  // A meeting: a becomes blocked on b, which now owes it.
  lemma MeetDebts(s: Sys, t: Sys, a: int, b: int)
    requires Shaped(s) && Shaped(t) && Debts(s) && Pid(a) && Pid(b) && a != b && OnlyTwo(s, t, a, b)
    requires s.procs[a].state != SendingCh && s.procs[b].state != SendingCh
    requires t.procs[a].state == SendingCh && t.procs[a].target == b && t.procs[a].owes == s.procs[a].owes && t.procs[a].source == s.procs[a].source
    requires t.procs[b].state != SendingCh && t.procs[b].owes && t.procs[b].source == a
    ensures Debts(t)
  {
    forall p | 0 <= p < MAX_PROC ensures t.procs[p].owes <==> Awaited(t, p) {
      var q := t.procs[p].source;
      assert s.procs[p].owes <==> Awaited(s, p);
      assert q != a && q != b ==> t.procs[q] == s.procs[q];
    }
  }

  lemma ConnectDebts(s: Sys, sender: int, receiver: int)
    requires Shaped(s) && Debts(s) && Pid(sender) && Pid(receiver) && sender != receiver
    requires s.procs[receiver].state == ListeningCh && s.procs[sender].target == receiver && s.procs[sender].state != SendingCh
    ensures Debts(Connect(s, sender, receiver))
  {
    hide Connect;
    hide Debts;
    if s.procs[receiver].recvSize < s.procs[sender].sendSize {
      RefusedDebts(s, sender, receiver);
    } else {
      ConnectedProcs(s, sender, receiver);
      MeetDebts(s, Connect(s, sender, receiver), sender, receiver);
    }
  }

  lemma RefusedDebts(s: Sys, sender: int, receiver: int)
    requires Shaped(s) && Debts(s) && Pid(sender) && Pid(receiver) && s.procs[receiver].recvSize < s.procs[sender].sendSize
    ensures Debts(Connect(s, sender, receiver))
  {
    hide Debts;
    SameDebtKeeps(s, Connect(s, sender, receiver));
  }

  lemma SendDebts(s: Sys, call: Call)
    requires Shaped(s) && Debts(s) && Trapped(s, call) && call.SendCall?
    ensures Debts(SendSys(s, call))
  {
    hide Connect;
    hide ChangeState;
    hide Debts;
    var p := s.last;
    if Pid(call.target) && s.procs[call.target].state == ListeningCh && call.size <= BUFF_SIZE {
      var a := Put(s, p, s.procs[p].(target := call.target, sendSize := call.size, ackAddr := call.ackAddr, ackSize := call.ackSize));
      SameDebtKeeps(s, a);
      ConnectDebts(a, p, call.target);
    } else {
      SameDebtKeeps(s, SendSys(s, call));
    }
  }

  lemma ReceiveDebts(s: Sys, addr: nat, size: nat, call: Call)
    requires Shaped(s) && Debts(s) && Trapped(s, call)
    ensures Debts(ReceiveSys(s, addr, size))
  {
    hide Connect;
    hide Listen;
    hide FindSender;
    hide Debts;
    var a := Listen(s, addr, size);
    SameDebtKeeps(s, a);
    var i := FindSender(a, s.last, 0);
    if i < MAX_PROC {
      assert WaitsFor(a, i, s.last);
      ConnectDebts(a, i, s.last);
    }
  }

  // An answer: q is blocked no longer and p owes nothing.
  lemma AnsweredDebts(s: Sys, t: Sys, p: int, q: int)
    requires Shaped(s) && Shaped(t) && Debts(s) && Pid(p) && Pid(q) && p != q && OnlyTwo(s, t, p, q)
    requires s.procs[p].source == q && s.procs[q].state == SendingCh && s.procs[q].target == p
    requires !t.procs[p].owes && t.procs[p].source == q && t.procs[p].state == s.procs[p].state && t.procs[p].target == s.procs[p].target
    requires t.procs[q].state != SendingCh && t.procs[q].owes == s.procs[q].owes && t.procs[q].source == s.procs[q].source
    ensures Debts(t)
  {
    forall r | 0 <= r < MAX_PROC ensures t.procs[r].owes <==> Awaited(t, r) {
      var o := t.procs[r].source;
      assert s.procs[r].owes <==> Awaited(s, r);
      assert o != p && o != q ==> t.procs[o] == s.procs[o];
    }
  }

  lemma AnswerDebts(s: Sys, p: int, q: int)
    requires Shaped(s) && Debts(s) && Pid(p) && Pid(q) && p != q
    requires s.procs[p].source == q && s.procs[q].state == SendingCh && s.procs[q].target == p
    ensures Debts(ChangeState(Answer(s, p, q), q, Runnable))
  {
    hide ChangeState;
    hide Debts;
    AnsweredDebts(s, ChangeState(Answer(s, p, q), q, Runnable), p, q);
  }

  lemma AckDebts(s: Sys, call: Call)
    requires Shaped(s) && Debts(s) && Trapped(s, call) && call.AckCall? && !AckPanics(s, s.last, call)
    ensures Debts(AckSys(s, call))
  {
    hide ChangeState;
    hide Debts;
    hide Answer;
    var p := s.last;
    if call.size > BUFF_SIZE {
      SameDebtKeeps(s, AckSys(s, call));
    } else {
      var a := Put(s, p, s.procs[p].(returnCode := call.code));
      SameDebtKeeps(s, a);
      var q := a.procs[p].source;
      if a.procs[q].acknowledged || a.procs[q].state != SendingCh {
        SameDebtKeeps(a, AckSys(s, call));
      } else {
        AnswerDebts(a, p, q);
      }
    }
  }

  // A child takes a free slot, which nobody can be blocked in.
  lemma BornDebts(s: Sys, t: Sys, p: int, c: int)
    requires Shaped(s) && Shaped(t) && Debts(s) && Pid(p) && Pid(c) && p != c && OnlyTwo(s, t, p, c)
    requires s.procs[c].state == Free && c != KERNEL_PID && s.procs[KERNEL_PID].state == Kernel
    requires !t.procs[c].owes && t.procs[c].source == KERNEL_PID && t.procs[c].state == Runnable
    requires SameDebt(s.procs[p], t.procs[p])
    ensures Debts(t)
  {
    assert KERNEL_PID != p ==> t.procs[KERNEL_PID] == s.procs[KERNEL_PID];
    forall r | 0 <= r < MAX_PROC ensures t.procs[r].owes <==> Awaited(t, r) {
      var o := t.procs[r].source;
      assert s.procs[r].owes <==> Awaited(s, r);
      assert o != p && o != c ==> t.procs[o] == s.procs[o];
    }
  }

  lemma SpawnDebts(s: Sys, p: int, c: int, priority: int)
    requires Shaped(s) && Debts(s) && Pid(p) && Pid(c) && 0 <= priority <= MAX_PRIO && p != c
    requires s.procs[c].state == Free && s.procs[KERNEL_PID].state == Kernel && c != KERNEL_PID
    ensures Debts(ChangeState(Spawn(s, p, c, priority), c, Runnable))
  {
    hide ChangeState;
    hide Debts;
    var t := ChangeState(Spawn(s, p, c, priority), c, Runnable);
    assert t.procs[c] == NewProc(p, priority, s.procs[p].err).(state := Runnable);
    assert t.procs[p] == s.procs[p].(reg0 := c);
    BornDebts(s, t, p, c);
  }

  lemma ForkDebts(s: Sys, priority: int)
    requires Shaped(s) && Debts(s) && priority >= 0 && s.procs[s.last].state == Runnable && s.procs[KERNEL_PID].state == Kernel
    ensures Debts(ForkSys(s, priority))
  {
    hide ChangeState;
    hide FindFree;
    hide Debts;
    hide Spawn;
    var c := FindFree(s, 2);
    if c == MAX_PROC || priority > s.procs[s.last].prio {
      SameDebtKeeps(s, ForkSys(s, priority));
    } else {
      SpawnDebts(s, s.last, c, priority);
    }
  }

  lemma ReapDebts(s: Sys, q: int, c: int)
    requires Shaped(s) && Debts(s) && Pid(q) && Pid(c) && s.procs[c].state != SendingCh && s.procs[q].state != SendingCh
    ensures Debts(Reap(s, q, c))
  {
    hide ChangeState;
    hide Debts;
    SameDebtKeeps(s, Reap(s, q, c));
  }

  lemma WaitDebts(s: Sys, call: Call)
    requires Shaped(s) && Debts(s) && RingsOk(s) && Trapped(s, call)
    ensures Debts(WaitSys(s))
  {
    hide Reap;
    hide ChangeState;
    hide Debts;
    var p := s.last;
    var ring := s.rings[p];
    if ring != [] && FirstZombie(s, ring) < |ring| {
      ReapDebts(s, p, ring[FirstZombie(s, ring)]);
    } else {
      SameDebtKeeps(s, WaitSys(s));
    }
  }

  lemma DepartDebts(s: Sys, e: Err)
    requires Shaped(s) && Debts(s) && RingsOk(s)
    ensures Debts(Depart(s, e)) && Depart(s, e).procs[s.last].state == s.procs[s.last].state
  {
    hide Debts;
    hide Reparent;
    SameDebtKeeps(s, Depart(s, e));
  }

  lemma ExitDebts(s: Sys, no: int, data: int, call: Call)
    requires Shaped(s) && Debts(s) && RingsOk(s) && Trapped(s, call)
    ensures Debts(ExitSys(s, no, data))
  {
    hide Reap;
    hide ChangeState;
    hide Debts;
    hide Depart;
    var p, e := s.last, Err(no, data);
    DepartDebts(s, e);
    var b := Depart(s, e);
    var q := b.procs[p].parent;
    if b.procs[q].state == Waiting {
      ReapDebts(b, q, p);
    } else {
      SameDebtKeeps(b, ChangeState(b, p, Zombie));
    }
  }

  lemma ServeDebts(s: Sys, call: Call)
    requires Shaped(s) && Debts(s) && RingsOk(s) && Trapped(s, call) && !AckPanics(s, s.last, call)
    requires s.procs[KERNEL_PID].state == Kernel
    ensures Debts(Serve(s, call))
  {
    hide Debts;
    match call
    case ForkCall(priority) => ForkDebts(s, priority);
    case ExitCall(no, data) => ExitDebts(s, no, data, call);
    case WaitCall(_) => WaitDebts(s, call);
    case SendCall(_, _, _, _, _, _, _) => SendDebts(s, call);
    case ReceiveCall(addr, size) => ReceiveDebts(s, addr, size, call);
    case AckCall(_, _, _, _) => AckDebts(s, call);
    case TestCall(_) =>
  }

  // ---------- runs ----------

  lemma NextDebts(k: Sys, v: Event, t: Sys)
    requires Shaped(k) && Debts(k) && Next(k, v, t)
    ensures Shaped(t) && Debts(t)
  {
    hide Debts;
    if v.call.TestCall? {
      SameDebtKeeps(k, t);
    } else if !Halted(k) {
      var prio :| Runs(k, v.clock, prio, t);
      SameDebtKeeps(k, t);
    }
  }

  lemma StepDebts(s: Sys, v: Event, t: Sys)
    requires Inv(s) && Debts(s) && Step(s, v, t)
    ensures Shaped(t) && Debts(t)
  {
    hide Debts;
    hide Next;
    hide Serve;
    hide Queues;
    hide Children;
    hide Waiters;
    hide Rendezvous;
    hide Deliveries;
    hide History;
    var k := Trap(s, v.call, v.err);
    TrapKeeps(s, v.call, v.err);
    SameDebtKeeps(s, k);
    ServeDebts(k, v.call);
    NextDebts(Served(s, v), v, t);
  }

  lemma BootDebts()
    ensures Debts(Boot())
  {
    var s := Boot();
    assert forall p | 0 <= p < MAX_PROC :: s.procs[p] == BootProc(p);
  }

  // In every run from boot, disciplined or not, debts are exactly the blocked senders' due.
  lemma {:induction false} EveryRunDebts(states: seq<Sys>, events: seq<Event>, n: nat)
    requires Run(states, events) && states[0] == Boot() && n < |states|
    ensures Inv(states[n]) && Debts(states[n])
    decreases n
  {
    hide Inv;
    hide Debts;
    hide Step;
    EveryRun(states, events, n);
    if n == 0 {
      BootDebts();
    } else {
      EveryRunDebts(states, events, n - 1);
      assert Step(states[n - 1], events[n - 1], states[n - 1 + 1]);
      StepDebts(states[n - 1], events[n - 1], states[n]);
    }
  }

  // What acknowledge does to its caller p, by whether p owes one: an owed acknowledge always
  // reaches the sender; one that is not owed fails with an error while the process p last
  // received from is not in a send, and trips the kernel's assertion while it is.
  lemma AckOutcome(s: Sys, call: Call)
    requires Inv(s) && Debts(s) && Trapped(s, call) && call.AckCall? && call.size <= BUFF_SIZE
    ensures var p := s.last; var q := s.procs[p].source; var t := AckSys(s, call);
      && (AckPanics(s, p, call) <==> !s.procs[p].owes && s.procs[q].state == SendingCh)
      && (s.procs[p].owes ==>
            && t.procs[p].reg0 == 0 && !t.procs[p].owes
            && t.procs[q].state == Runnable && t.procs[q].reg0 == call.code && t.procs[q].pending.Delivery?)
      && (!s.procs[p].owes && s.procs[q].state != SendingCh ==>
            t.procs[p].reg0 == -1 && t.procs[p].err.no == SOURCE_ALREADY_ACKNOWLEDGED && t.procs[q].pending == s.procs[q].pending)
  {
    DebtAt(s, s.last);
    hide Inv;
    hide Debts;
    hide AckSys;
    var q := s.procs[s.last].source;
    if s.procs[q].state == SendingCh {
      if s.procs[q].target == s.last {
        AckReaches(s, call, q);
      }
    } else {
      AckRefused(s, call, q);
    }
  }

  lemma AckReaches(s: Sys, call: Call, q: int)
    requires Shaped(s) && call.AckCall? && call.size <= BUFF_SIZE && q == s.procs[s.last].source && q != s.last
    requires s.procs[q].state == SendingCh && !s.procs[q].acknowledged
    ensures var p := s.last; var t := AckSys(s, call);
      && t.procs[p].reg0 == 0 && !t.procs[p].owes
      && t.procs[q].state == Runnable && t.procs[q].reg0 == call.code && t.procs[q].pending.Delivery?
  {
    hide ChangeState;
  }

  lemma AckRefused(s: Sys, call: Call, q: int)
    requires Shaped(s) && call.AckCall? && call.size <= BUFF_SIZE && q == s.procs[s.last].source && s.procs[q].state != SendingCh
    ensures var p := s.last; var t := AckSys(s, call);
      t.procs[p].reg0 == -1 && t.procs[p].err.no == SOURCE_ALREADY_ACKNOWLEDGED && t.procs[q].pending == s.procs[q].pending
  {
  }

  lemma DebtAt(s: Sys, p: int)
    requires Inv(s) && Debts(s) && Pid(p)
    ensures var q := s.procs[p].source;
      && (s.procs[p].owes <==> s.procs[q].state == SendingCh && s.procs[q].target == p)
      && (s.procs[q].state == SendingCh ==> !s.procs[q].acknowledged)
  {
    hide Roles;
    hide Queues;
    hide Children;
    hide Waiters;
    hide Rendezvous;
    hide History;
    assert s.procs[p].owes <==> Awaited(s, p);
  }

  // An owed acknowledge never trips the assertion, whatever all other processes have done.
  lemma OwedAckIsSafe(states: seq<Sys>, events: seq<Event>, n: nat, call: Call, e: Err)
    requires Run(states, events) && states[0] == Boot() && n < |states|
    requires Shaped(states[n]) && states[n].procs[states[n].curr].owes
    ensures !AckPanics(Trap(states[n], call, e), states[n].curr, call)
  {
    EveryRunDebts(states, events, n);
    DebtAt(states[n], states[n].curr);
    hide Inv;
    hide Debts;
  }
}
