/**
 Blocked senders: which call leaves one without an answer for good, and that with one
 acknowledge per receive senders and debtors correspond one to one.
 */
module ProcAck {
  import opened ProcModel
  import opened ProcInvariants
  import opened ProcQueues
  import opened ProcFamily
  import opened ProcChannels
  import opened ProcRuns
  import opened ProcDebts

  // A process in such a state acknowledges nothing any more: what it runs next, if it does,
  // has another source.
  ghost predicate Closed(st: ProcState) {
    Gone(st) || st == ListeningCh
  }

  // q is blocked on a process that can still answer it.
  ghost predicate OwedBy(s: Sys, q: int)
    requires Shaped(s) && Pid(q)
  {
    var l := s.procs[q].target;
    Pid(l) && s.procs[l].source == q && !Closed(s.procs[l].state)
  }

  ghost predicate Stranded(s: Sys, q: int)
    requires Shaped(s)
  {
    Pid(q) && s.procs[q].state == SendingCh && !OwedBy(s, q)
  }

  // ---------- one system call ----------

  // The fields that being stranded looks at.
  ghost predicate SameView(x: Proc, y: Proc) {
    && y.source == x.source && (Closed(x.state) <==> Closed(y.state))
    && (x.state == SendingCh <==> y.state == SendingCh) && (x.state == SendingCh ==> y.target == x.target)
  }

  ghost predicate SameStranded(s: Sys, t: Sys, q: int)
    requires Shaped(s)
  {
    Shaped(t) && (Stranded(s, q) <==> Stranded(t, q))
  }

  lemma SameViews(s: Sys, t: Sys, q: int)
    requires Shaped(s) && Shaped(t) && forall p | 0 <= p < MAX_PROC :: SameView(s.procs[p], t.procs[p])
    ensures SameStranded(s, t, q)
  {
  }

  // p closes: exactly the senders blocked on it are stranded by that.
  lemma Closing(s: Sys, t: Sys, p: int, q: int)
    requires Shaped(s) && Shaped(t) && Pid(p) && forall x | 0 <= x < MAX_PROC && x != p :: SameView(s.procs[x], t.procs[x])
    requires s.procs[p].state != SendingCh && t.procs[p].state != SendingCh && Closed(t.procs[p].state)
    ensures Stranded(t, q) <==> Stranded(s, q) || (Pid(q) && s.procs[q].state == SendingCh && s.procs[q].target == p)
  {
  }

  // A listener that is met had stranded its earlier sender before.
  lemma MeetingStrands(s: Sys, t: Sys, a: int, b: int, q: int)
    requires Shaped(s) && Shaped(t) && Pid(a) && Pid(b) && a != b && OnlyTwo(s, t, a, b)
    requires s.procs[b].state == ListeningCh && !Closed(s.procs[a].state) && s.procs[a].state != SendingCh
    requires t.procs[a].state == SendingCh && t.procs[a].target == b && t.procs[a].source == s.procs[a].source
    requires t.procs[b].state == Runnable && t.procs[b].source == a
    ensures SameStranded(s, t, q)
  {
    if Pid(q) && q != a && q != b {
      var l := s.procs[q].target;
      assert Pid(l) && l != a && l != b ==> t.procs[l] == s.procs[l];
    }
  }

  lemma RefusedStrands(s: Sys, sender: int, receiver: int, q: int)
    requires Shaped(s) && Pid(sender) && Pid(receiver) && s.procs[receiver].recvSize < s.procs[sender].sendSize
    ensures SameStranded(s, Connect(s, sender, receiver), q)
  {
    hide Stranded;
    hide Connect;
    RefusedProcs(s, sender, receiver);
    SameViews(s, Connect(s, sender, receiver), q);
  }

  lemma ConnectStrands(s: Sys, sender: int, receiver: int, q: int)
    requires Shaped(s) && Pid(sender) && Pid(receiver) && sender != receiver
    requires s.procs[receiver].state == ListeningCh && s.procs[sender].target == receiver
    requires s.procs[sender].state == Runnable || s.procs[sender].state == WaitListener
    ensures SameStranded(s, Connect(s, sender, receiver), q)
  {
    hide Connect;
    hide Stranded;
    if s.procs[receiver].recvSize < s.procs[sender].sendSize {
      RefusedStrands(s, sender, receiver, q);
    } else {
      ConnectedProcs(s, sender, receiver);
      hide SameStranded;
      MeetingStrands(s, Connect(s, sender, receiver), sender, receiver, q);
    }
  }

  lemma FailStrands(s: Sys, p: int, no: int, q: int)
    requires Shaped(s) && Pid(p)
    ensures SameStranded(s, Fail(s, p, no), q)
  {
    hide Stranded;
    SameViews(s, Fail(s, p, no), q);
  }

  lemma BlockStrands(s: Sys, p: int, st: ProcState, q: int)
    requires Shaped(s) && Pid(p) && s.procs[p].state == Runnable && (st == WaitListener || st == Waiting)
    ensures SameStranded(s, ChangeState(s, p, st), q)
  {
    hide Stranded;
    hide ChangeState;
    SameViews(s, ChangeState(s, p, st), q);
  }

  lemma SendStrands(s: Sys, call: Call, q: int)
    requires Shaped(s) && call.SendCall? && s.procs[s.last].state == Runnable
    ensures SameStranded(s, SendSys(s, call), q)
  {
    hide Connect;
    hide ChangeState;
    hide Stranded;
    hide Fail;
    var p := s.last;
    if !Pid(call.target) {
      FailStrands(s, p, INVALID_PID, q);
    } else if s.procs[call.target].state != ListeningCh && !call.wait {
      FailStrands(s, p, TARGET_NOT_LISTENING, q);
    } else if call.size > BUFF_SIZE {
      FailStrands(s, p, SEND_DATA_TOO_LARGE, q);
    } else {
      var a := Put(s, p, s.procs[p].(target := call.target, sendSize := call.size, ackAddr := call.ackAddr, ackSize := call.ackSize));
      SameViews(s, a, q);
      if s.procs[call.target].state == ListeningCh {
        ConnectStrands(a, p, call.target, q);
      } else {
        BlockStrands(a, p, WaitListener, q);
      }
    }
  }

  // The caller l strands q.
  ghost predicate Strands(s: Sys, call: Call, l: int, q: int)
    requires Shaped(s)
  {
    (call.ReceiveCall? || call.ExitCall?) && Pid(q) && s.procs[q].state == SendingCh && s.procs[q].target == l
  }

  lemma ReceiveStrands(s: Sys, addr: nat, size: nat, q: int)
    requires Shaped(s) && s.procs[s.last].state == Runnable
    ensures Stranded(ReceiveSys(s, addr, size), q) <==> Stranded(s, q) || Strands(s, ReceiveCall(addr, size), s.last, q)
  {
    hide Connect;
    hide Listen;
    hide FindSender;
    hide Stranded;
    var a := Listen(s, addr, size);
    Closing(s, a, s.last, q);
    var i := FindSender(a, s.last, 0);
    if i < MAX_PROC {
      assert WaitsFor(a, i, s.last);
      ConnectStrands(a, i, s.last, q);
    }
  }

  lemma ReapView(s: Sys, q: int, c: int)
    requires Shaped(s) && Pid(q) && Pid(c) && q != c && (s.procs[q].state == Waiting || s.procs[q].state == Runnable)
    ensures var t := Reap(s, q, c);
      t.procs[c].state == Free && forall x | 0 <= x < MAX_PROC && x != c :: SameView(s.procs[x], t.procs[x])
    ensures s.procs[c].state == Zombie ==> SameView(s.procs[c], Reap(s, q, c).procs[c])
  {
    hide ChangeState;
  }

  lemma WaitStrands(s: Sys, q: int)
    requires Shaped(s) && RingsOk(s) && s.procs[s.last].state == Runnable
    ensures SameStranded(s, WaitSys(s), q)
  {
    hide Reap;
    hide ChangeState;
    hide Stranded;
    var p := s.last;
    var ring := s.rings[p];
    if ring != [] && FirstZombie(s, ring) < |ring| {
      ReapView(s, p, ring[FirstZombie(s, ring)]);
    }
    SameViews(s, WaitSys(s), q);
  }

  lemma DepartView(s: Sys, e: Err)
    requires Shaped(s) && RingsOk(s)
    ensures forall p | 0 <= p < MAX_PROC :: SameView(s.procs[p], Depart(s, e).procs[p]) && Depart(s, e).procs[p].state == s.procs[p].state
  {
    hide Reparent;
  }

  lemma ExitStrands(s: Sys, no: int, data: int, q: int)
    requires Shaped(s) && RingsOk(s) && s.procs[s.last].state == Runnable
    ensures Stranded(ExitSys(s, no, data), q) <==> Stranded(s, q) || Strands(s, ExitCall(no, data), s.last, q)
  {
    hide Reap;
    hide ChangeState;
    hide Depart;
    hide Stranded;
    var p := s.last;
    var t := Depart(s, Err(no, data));
    DepartView(s, Err(no, data));
    if t.procs[t.procs[p].parent].state == Waiting {
      ReapView(t, t.procs[p].parent, p);
    }
    Closing(s, ExitSys(s, no, data), p, q);
  }

  // The slot of a child was free, so who is blocked on it was stranded before, and is still.
  lemma BornStrands(s: Sys, t: Sys, p: int, c: int, q: int)
    requires Shaped(s) && Shaped(t) && Pid(p) && Pid(c) && p != c && OnlyTwo(s, t, p, c) && c != KERNEL_PID
    requires s.procs[c].state == Free && s.procs[KERNEL_PID].state == Kernel
    requires t.procs[c].source == KERNEL_PID && t.procs[c].state == Runnable && SameView(s.procs[p], t.procs[p])
    ensures SameStranded(s, t, q)
  {
    if Pid(q) && q != c {
      var l := s.procs[q].target;
      assert Pid(l) && l != p && l != c ==> t.procs[l] == s.procs[l];
    }
  }

  lemma ForkStrands(s: Sys, priority: int, q: int)
    requires Shaped(s) && priority >= 0 && s.procs[s.last].state == Runnable && s.procs[KERNEL_PID].state == Kernel
    ensures SameStranded(s, ForkSys(s, priority), q)
  {
    hide ChangeState;
    hide FindFree;
    hide Stranded;
    hide Spawn;
    hide Fail;
    var p, c := s.last, FindFree(s, 2);
    if c == MAX_PROC {
      FailStrands(s, p, MAX_PROC_REACHED, q);
    } else if priority > s.procs[p].prio {
      FailStrands(s, p, TOO_HIGH_CHILD_PRIORITY, q);
    } else {
      SpawnStrands(s, p, c, priority, q);
    }
  }

  lemma SpawnStrands(s: Sys, p: int, c: int, priority: int, q: int)
    requires Shaped(s) && Pid(p) && Pid(c) && p != c && c != KERNEL_PID && 0 <= priority <= MAX_PRIO
    requires s.procs[c].state == Free && s.procs[KERNEL_PID].state == Kernel
    ensures SameStranded(s, ChangeState(Spawn(s, p, c, priority), c, Runnable), q)
  {
    hide ChangeState;
    hide Stranded;
    var t := ChangeState(Spawn(s, p, c, priority), c, Runnable);
    assert t.procs[c] == NewProc(p, priority, s.procs[p].err).(state := Runnable);
    assert t.procs[p] == s.procs[p].(reg0 := c);
    BornStrands(s, t, p, c, q);
  }

  // The sender that is answered was not stranded.
  lemma AnswerStrands(s: Sys, t: Sys, p: int, o: int, q: int)
    requires Shaped(s) && Shaped(t) && Pid(p) && Pid(o) && p != o && OnlyTwo(s, t, p, o) && s.procs[p].state == Runnable
    requires s.procs[p].source == o && s.procs[o].state == SendingCh && s.procs[o].target == p
    requires SameView(s.procs[p], t.procs[p]) && t.procs[o].state == Runnable && t.procs[o].source == s.procs[o].source
    ensures SameStranded(s, t, q)
  {
    if Pid(q) && q != o {
      var l := s.procs[q].target;
      assert Pid(l) && l != p && l != o ==> t.procs[l] == s.procs[l];
    }
  }

  lemma AnswerView(s: Sys, p: int, o: int)
    requires Shaped(s) && Pid(p) && Pid(o) && p != o
    ensures var t := ChangeState(Answer(s, p, o), o, Runnable);
      && OnlyTwo(s, t, p, o) && SameView(s.procs[p], t.procs[p])
      && t.procs[o].state == Runnable && t.procs[o].source == s.procs[o].source
  {
    hide ChangeState;
  }

  lemma AckStrands(s: Sys, call: Call, q: int)
    requires Shaped(s) && call.AckCall? && s.procs[s.last].state == Runnable && !AckPanics(s, s.last, call)
    ensures SameStranded(s, AckSys(s, call), q)
  {
    hide ChangeState;
    hide Stranded;
    hide Answer;
    hide Fail;
    var p := s.last;
    if call.size > BUFF_SIZE {
      FailStrands(s, p, SEND_DATA_TOO_LARGE, q);
    } else {
      var a := Put(s, p, s.procs[p].(returnCode := call.code));
      SameViews(s, a, q);
      var o := a.procs[p].source;
      if a.procs[o].acknowledged || a.procs[o].state != SendingCh {
        FailStrands(a, p, SOURCE_ALREADY_ACKNOWLEDGED, q);
      } else {
        AnswerView(a, p, o);
        AnswerStrands(a, ChangeState(Answer(a, p, o), o, Runnable), p, o, q);
      }
    }
  }

  // A system call strands a blocked sender exactly when it is a receive or an exit of the
  // process the sender is blocked on; and no call answers a stranded one.
  lemma ServeStrandsIff(s: Sys, call: Call, q: int)
    requires Shaped(s) && RingsOk(s) && Trapped(s, call) && !AckPanics(s, s.last, call) && s.procs[KERNEL_PID].state == Kernel
    ensures Stranded(Serve(s, call), q) <==> Stranded(s, q) || Strands(s, call, s.last, q)
  {
    hide Stranded;
    match call
    case ForkCall(priority) => ForkStrands(s, priority, q);
    case ExitCall(no, data) => ExitStrands(s, no, data, q);
    case WaitCall(_) => WaitStrands(s, q);
    case SendCall(_, _, _, _, _, _, _) => SendStrands(s, call, q);
    case ReceiveCall(addr, size) => ReceiveStrands(s, addr, size, q);
    case AckCall(_, _, _, _) => AckStrands(s, call, q);
    case TestCall(_) =>
  }

  // ---------- runs ----------

  lemma NextStrands(k: Sys, v: Event, t: Sys, q: int)
    requires Shaped(k) && Next(k, v, t)
    ensures SameStranded(k, t, q)
  {
    hide Stranded;
    if !v.call.TestCall? && !Halted(k) {
      var prio :| Runs(k, v.clock, prio, t);
    }
    SameViews(k, t, q);
  }

  lemma TrapStrands(s: Sys, call: Call, e: Err, q: int)
    requires Shaped(s) && Running(s)
    ensures var k := Trap(s, call, e);
      k.last == s.curr && SameStranded(s, k, q) && (Strands(k, call, s.curr, q) <==> Strands(s, call, s.curr, q))
  {
    hide Stranded;
    SameViews(s, Trap(s, call, e), q);
  }

  lemma StepStrandsIff(s: Sys, v: Event, t: Sys, q: int)
    requires Inv(s) && Step(s, v, t)
    ensures Shaped(t) && (Stranded(t, q) <==> Stranded(s, q) || Strands(s, v.call, s.curr, q))
  {
    hide Next;
    hide Serve;
    hide Queues;
    hide Children;
    hide Waiters;
    hide Rendezvous;
    hide Deliveries;
    hide History;
    hide Stranded;
    hide Strands;
    var k := Trap(s, v.call, v.err);
    TrapKeeps(s, v.call, v.err);
    TrapStrands(s, v.call, v.err, q);
    ServeStrandsIff(k, v.call, q);
    NextStrands(Served(s, v), v, t, q);
  }

  // The m-th trap of a run strands q.
  ghost predicate StrandsAt(states: seq<Sys>, events: seq<Event>, m: nat, q: int)
    requires m < |states| && m < |events|
  {
    Shaped(states[m]) && Strands(states[m], events[m].call, states[m].curr, q)
  }

  lemma StrandedAfter(states: seq<Sys>, events: seq<Event>, n: nat, q: int)
    requires Run(states, events) && states[0] == Boot() && n < |events| && n + 1 < |states|
    ensures Shaped(states[n]) && Shaped(states[n + 1])
    ensures Stranded(states[n + 1], q) <==> Stranded(states[n], q) || StrandsAt(states, events, n, q)
  {
    EveryRun(states, events, n);
    assert Step(states[n], events[n], states[n + 1]);
    hide Boot;
    hide Inv;
    hide Step;
    hide Strands;
    hide Stranded;
    StepStrandsIff(states[n], events[n], states[n + 1], q);
  }

  lemma BootStrands(q: int)
    ensures Shaped(Boot()) && !Stranded(Boot(), q)
  {
  }

  // In every run: a sender is stranded exactly when the process it was blocked on has received
  // again or exited before.
  lemma {:induction false} StrandedIff(states: seq<Sys>, events: seq<Event>, n: nat, q: int)
    requires Run(states, events) && states[0] == Boot() && n < |states|
    ensures Shaped(states[n])
    ensures Stranded(states[n], q) <==> exists m: nat :: m < n && StrandsAt(states, events, m, q)
    decreases n
  {
    hide *;
    RunLength(states, events);
    if n == 0 {
      BootStrands(q);
    } else {
      StrandedIff(states, events, n - 1, q);
      StrandedAfter(states, events, n - 1, q);
    }
  }

  // Once stranded, a sender stays blocked to the end of every run.
  lemma StrandedForever(states: seq<Sys>, events: seq<Event>, m: nat, n: nat, q: int)
    requires Run(states, events) && states[0] == Boot() && m <= n < |states|
    requires Shaped(states[m]) && Stranded(states[m], q)
    ensures Shaped(states[n]) && states[n].procs[q].state == SendingCh
  {
    hide Step;
    hide Boot;
    StrandedIff(states, events, m, q);
    StrandedIff(states, events, n, q);
  }

  // ---------- disciplined runs ----------

  // Acknowledge exactly what is owed, before receiving again or exiting.
  ghost predicate Disciplined(s: Sys, p: int, call: Call)
    requires Shaped(s) && Pid(p)
  {
    && (call.AckCall? ==> s.procs[p].owes)
    && (call.ReceiveCall? || call.ExitCall? ==> !s.procs[p].owes)
  }

  ghost predicate DisciplinedRun(states: seq<Sys>, events: seq<Event>)
    requires Run(states, events)
  {
    forall i | 0 <= i < |events| :: Shaped(states[i]) && Disciplined(states[i], states[i].curr, events[i].call)
  }

  // Senders awaiting an acknowledgement and processes that owe one correspond one to one: a
  // debtor's source is blocked on it, and a blocked sender's target is its live debtor.
  ghost predicate Matched(s: Sys)
    requires Shaped(s)
  {
    && (forall r | 0 <= r < MAX_PROC && s.procs[r].owes ::
          Awaited(s, r) && !s.procs[s.procs[r].source].acknowledged && !Closed(s.procs[r].state))
    && (forall q | 0 <= q < MAX_PROC && s.procs[q].state == SendingCh ::
          var l := s.procs[q].target; Pid(l) && s.procs[l].owes && s.procs[l].source == q)
  }

  // Debts hold in every run; what discipline adds is that nobody is stranded.
  lemma NobodyStranded(s: Sys)
    requires Inv(s) && Debts(s) && forall q :: !Stranded(s, q)
    ensures Matched(s)
  {
    assert Shaped(s);
    forall q | 0 <= q < MAX_PROC && s.procs[q].state == SendingCh
      ensures var l := s.procs[q].target; Pid(l) && s.procs[l].owes && s.procs[l].source == q
    {
      BlockedIsOwed(s, q);
    }
    forall r | 0 <= r < MAX_PROC && s.procs[r].owes
      ensures Awaited(s, r) && !s.procs[s.procs[r].source].acknowledged && !Closed(s.procs[r].state)
    {
      DebtAt(s, r);
      assert !Stranded(s, s.procs[r].source);
    }
    hide Inv;
    hide Debts;
    hide Stranded;
  }

  lemma BlockedIsOwed(s: Sys, q: int)
    requires Shaped(s) && Debts(s) && Pid(q) && s.procs[q].state == SendingCh && !Stranded(s, q)
    ensures var l := s.procs[q].target; Pid(l) && s.procs[l].owes && s.procs[l].source == q
  {
    assert Awaited(s, s.procs[q].target);
  }

  // A process that strands a sender which was not stranded owes it an acknowledgement.
  lemma StrandingIsUndisciplined(s: Sys, call: Call, q: int)
    requires Shaped(s) && Debts(s) && Strands(s, call, s.curr, q) && !Stranded(s, q)
    ensures !Disciplined(s, s.curr, call)
  {
    assert Awaited(s, s.curr);
  }

  lemma {:induction false} DisciplineStrandsNobody(states: seq<Sys>, events: seq<Event>, n: nat, q: int)
    requires Run(states, events) && DisciplinedRun(states, events) && states[0] == Boot() && n < |states|
    ensures Shaped(states[n]) && !Stranded(states[n], q)
    decreases n
  {
    hide *;
    RunLength(states, events);
    if n == 0 {
      BootStrands(q);
    } else {
      DisciplineStrandsNobody(states, events, n - 1, q);
      StrandedAfter(states, events, n - 1, q);
      if StrandsAt(states, events, n - 1, q) {
        Undisciplined(states, events, n - 1, q);
      }
    }
  }

  lemma Undisciplined(states: seq<Sys>, events: seq<Event>, n: nat, q: int)
    requires Run(states, events) && states[0] == Boot() && n < |events| && n < |states|
    requires StrandsAt(states, events, n, q) && !Stranded(states[n], q)
    ensures !DisciplinedRun(states, events)
  {
    hide Boot;
    hide Step;
    hide Stranded;
    hide Strands;
    hide Disciplined;
    EveryRunDebts(states, events, n);
    StrandingIsUndisciplined(states[n], events[n].call, q);
  }

  // In a disciplined run senders and debtors correspond one to one at every point, so no
  // acknowledge that the discipline allows can trip the kernel's assertion.
  lemma DisciplinedRunsMatch(states: seq<Sys>, events: seq<Event>, n: nat, call: Call, e: Err)
    requires Run(states, events) && DisciplinedRun(states, events) && states[0] == Boot() && n < |states|
    ensures Shaped(states[n]) && Matched(states[n])
    ensures Disciplined(states[n], states[n].curr, call) ==> !AckPanics(Trap(states[n], call, e), states[n].curr, call)
  {
    hide Step;
    hide Boot;
    hide Stranded;
    hide Matched;
    hide AckPanics;
    EveryRunDebts(states, events, n);
    forall q ensures !Stranded(states[n], q) {
      DisciplineStrandsNobody(states, events, n, q);
    }
    NobodyStranded(states[n]);
    hide Inv;
    hide Debts;
    if call.AckCall? && Disciplined(states[n], states[n].curr, call) {
      OwedAckIsSafe(states, events, n, call, e);
    } else if !call.AckCall? {
      OnlyAckPanics(Trap(states[n], call, e), states[n].curr, call);
    }
  }

  lemma OnlyAckPanics(s: Sys, p: int, call: Call)
    requires Shaped(s) && Pid(p) && !call.AckCall?
    ensures !AckPanics(s, p, call)
  {
  }
}
