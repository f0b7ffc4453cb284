/**
 Senders that wait for a listener: what a receive does with the first of them, exactly when one
 is taken, and a run in which a message that is too large blocks everybody.
 */
module ProcTooLarge {
  import opened ProcModel
  import opened ProcInvariants
  import opened ProcFamily
  import opened ProcChannels
  import opened ProcRuns
  import opened ProcStaleAck
  import opened Bytes

  // ---------- one receive ----------

  lemma ListenKeepsWaiters(s: Sys, addr: nat, size: nat)
    requires Shaped(s) && s.procs[s.last].state == Runnable
    ensures var a := Listen(s, addr, size);
      forall w :: (WaitsFor(a, w, s.last) <==> WaitsFor(s, w, s.last)) && (FirstWaiter(a, w, s.last) <==> FirstWaiter(s, w, s.last))
  {
    hide Listen;
    var a := Listen(s, addr, size);
    forall w ensures WaitsFor(a, w, s.last) <==> WaitsFor(s, w, s.last) {
    }
  }

  lemma FirstWaiterIsFound(a: Sys, w: int, l: int)
    requires Shaped(a) && FirstWaiter(a, w, l)
    ensures FindSender(a, l, 0) == w
  {
    var i := FindSender(a, l, 0);
    assert i < MAX_PROC ==> WaitsFor(a, i, l);
  }

  // A receive blocks its caller exactly when no first waiter fits. A first waiter that does not
  // fit gets an error return and is blocked as before; one that fits is met.
  lemma ReceiveOutcome(s: Sys, addr: nat, size: nat)
    requires Shaped(s) && s.procs[s.last].state == Runnable
    ensures var p := s.last; var t := ReceiveSys(s, addr, size);
      && (t.procs[p].state == ListeningCh <==> forall w | FirstWaiter(s, w, p) :: s.procs[w].sendSize > size)
      && (forall w | FirstWaiter(s, w, p) ::
            && (WaitsFor(t, w, p) <==> s.procs[w].sendSize > size)
            && (s.procs[w].sendSize > size ==> t.procs[w].err.no == SEND_DATA_TOO_LARGE && t.procs[w].reg0 == -1)
            && (s.procs[w].sendSize <= size ==>
                  && t.procs[w].state == SendingCh && t.procs[p].state == Runnable && t.procs[p].reg0 == w
                  && t.procs[p].pending == Delivery(addr, s.procs[w].out, FromSender(w))))
  {
    hide ReceiveSys;
    var p := s.last;
    if w :| FirstWaiter(s, w, p) {
      ReceiveMeets(s, addr, size, w);
      forall v | FirstWaiter(s, v, p) ensures v == w {
        assert WaitsFor(s, v, p) && WaitsFor(s, w, p);
      }
    } else {
      ReceiveFindsNobody(s, addr, size);
    }
  }

  lemma ReceiveMeets(s: Sys, addr: nat, size: nat, w: int)
    requires Shaped(s) && s.procs[s.last].state == Runnable && FirstWaiter(s, w, s.last)
    ensures forall x | 0 <= x < MAX_PROC && x != s.last && x != w :: ReceiveSys(s, addr, size).procs[x] == s.procs[x]
    ensures var p := s.last; var t := ReceiveSys(s, addr, size);
      if s.procs[w].sendSize > size then
        && t.procs[p].state == ListeningCh && WaitsFor(t, w, p)
        && t.procs[w].err.no == SEND_DATA_TOO_LARGE && t.procs[w].reg0 == -1
      else
        && t.procs[w].state == SendingCh && t.procs[p].state == Runnable && t.procs[p].reg0 == w
        && t.procs[p].pending == Delivery(addr, s.procs[w].out, FromSender(w))
  {
    hide Listen;
    hide Connect;
    var a := Listen(s, addr, size);
    ReceiveIs(s, addr, size, w);
    hide ReceiveSys;
    if s.procs[w].sendSize > size {
      RefusedProcs(a, w, s.last);
    } else {
      ConnectedProcs(a, w, s.last);
    }
  }

  lemma ReceiveIs(s: Sys, addr: nat, size: nat, w: int)
    requires Shaped(s) && s.procs[s.last].state == Runnable && FirstWaiter(s, w, s.last)
    ensures ReceiveSys(s, addr, size) == Connect(Listen(s, addr, size), w, s.last)
  {
    hide Listen;
    hide FindSender;
    hide Connect;
    ListenKeepsWaiters(s, addr, size);
    FirstWaiterIsFound(Listen(s, addr, size), w, s.last);
  }

  lemma ReceiveFindsNobody(s: Sys, addr: nat, size: nat)
    requires Shaped(s) && s.procs[s.last].state == Runnable && forall w :: !FirstWaiter(s, w, s.last)
    ensures ReceiveSys(s, addr, size).procs[s.last].state == ListeningCh
  {
    hide Listen;
    hide FindSender;
    var a := Listen(s, addr, size);
    ListenKeepsWaiters(s, addr, size);
    var i := FindSender(a, s.last, 0);
    assert FirstWaiter(a, i, s.last) <==> i < MAX_PROC;
  }

  // ---------- how long a sender waits ----------

  // The call of l takes w from its wait.
  ghost predicate Takes(s: Sys, call: Call, l: int, w: int)
    requires Shaped(s)
  {
    call.ReceiveCall? && FirstWaiter(s, w, l) && s.procs[w].sendSize <= call.size
  }

  ghost predicate StillWaits(s: Sys, t: Sys, w: int)
    requires Shaped(s)
  {
    Shaped(t) && forall l | WaitsFor(s, w, l) :: WaitsFor(t, w, l)
  }

  lemma ForkWaits(s: Sys, priority: int, w: int)
    requires Shaped(s) && priority >= 0 && s.procs[s.last].state == Runnable
    ensures StillWaits(s, ForkSys(s, priority), w)
  {
    hide ChangeState;
    hide FindFree;
  }

  lemma ReapWaits(s: Sys, q: int, c: int, w: int)
    requires Shaped(s) && Pid(q) && Pid(c) && s.procs[c].state != WaitListener && s.procs[q].state != WaitListener
    ensures StillWaits(s, Reap(s, q, c), w)
  {
    hide ChangeState;
  }

  lemma WaitWaits(s: Sys, w: int)
    requires Shaped(s) && RingsOk(s) && s.procs[s.last].state == Runnable
    ensures StillWaits(s, WaitSys(s), w)
  {
    hide ChangeState;
    hide Reap;
    var p := s.last;
    if s.rings[p] != [] && FirstZombie(s, s.rings[p]) < |s.rings[p]| {
      ReapWaits(s, p, s.rings[p][FirstZombie(s, s.rings[p])], w);
    }
  }

  lemma ExitWaits(s: Sys, no: int, data: int, w: int)
    requires Shaped(s) && RingsOk(s) && s.procs[s.last].state == Runnable
    ensures StillWaits(s, ExitSys(s, no, data), w)
  {
    hide ChangeState;
    hide Reap;
    hide Depart;
    var p := s.last;
    var t := Depart(s, Err(no, data));
    DepartWaits(s, Err(no, data), w);
    var q := t.procs[p].parent;
    if t.procs[q].state == Waiting {
      ReapWaits(t, q, p, w);
    }
  }

  lemma DepartWaits(s: Sys, e: Err, w: int)
    requires Shaped(s) && RingsOk(s)
    ensures StillWaits(s, Depart(s, e), w) && Depart(s, e).procs[s.last].state == s.procs[s.last].state
  {
    hide Reparent;
  }

  lemma SendWaits(s: Sys, call: Call, w: int)
    requires Shaped(s) && call.SendCall? && s.procs[s.last].state == Runnable
    ensures StillWaits(s, SendSys(s, call), w)
  {
    hide ChangeState;
    hide Connect;
    var p := s.last;
    if Pid(call.target) && s.procs[call.target].state == ListeningCh && call.size <= BUFF_SIZE {
      var a := Put(s, p, s.procs[p].(target := call.target, sendSize := call.size, ackAddr := call.ackAddr, ackSize := call.ackSize));
      ConnectWaits(a, p, call.target, w);
    }
  }

  lemma ConnectWaits(s: Sys, sender: int, receiver: int, w: int)
    requires Shaped(s) && Pid(sender) && Pid(receiver) && sender != receiver && s.procs[receiver].state != WaitListener
    requires w != sender || s.procs[sender].state != WaitListener || s.procs[receiver].recvSize < s.procs[sender].sendSize
    ensures StillWaits(s, Connect(s, sender, receiver), w)
  {
    hide ChangeState;
  }

  lemma AckWaits(s: Sys, call: Call, w: int)
    requires Shaped(s) && call.AckCall? && s.procs[s.last].state == Runnable
    ensures StillWaits(s, AckSys(s, call), w)
  {
    hide ChangeState;
    hide Answer;
    var p := s.last;
    var a := Put(s, p, s.procs[p].(returnCode := call.code));
    if a.procs[a.procs[p].source].state == SendingCh {
      AnswerWaits(a, p, a.procs[p].source, w);
    }
  }

  lemma AnswerWaits(s: Sys, p: int, q: int, w: int)
    requires Shaped(s) && Pid(p) && Pid(q) && s.procs[q].state == SendingCh && s.procs[p].state == Runnable
    ensures StillWaits(s, ChangeState(Answer(s, p, q), q, Runnable), w)
  {
    hide ChangeState;
  }

  lemma ReceiveWaits(s: Sys, addr: nat, size: nat, w: int)
    requires Shaped(s) && s.procs[s.last].state == Runnable && !Takes(s, ReceiveCall(addr, size), s.last, w)
    ensures StillWaits(s, ReceiveSys(s, addr, size), w)
  {
    hide Listen;
    hide Connect;
    hide FindSender;
    var a := Listen(s, addr, size);
    var i := FindSender(a, s.last, 0);
    ListenKeepsWaiters(s, addr, size);
    if i < MAX_PROC {
      assert FirstWaiter(a, i, s.last);
      ConnectWaits(a, i, s.last, w);
    }
  }

  // Only a receive of the process it waits for takes a sender, and only one with room.
  lemma CallWaits(s: Sys, call: Call, w: int)
    requires Shaped(s) && RingsOk(s) && Trapped(s, call) && !Takes(s, call, s.last, w)
    ensures StillWaits(s, Serve(s, call), w)
  {
    hide StillWaits;
    hide FirstWaiter;
    match call
    case ForkCall(priority) => ForkWaits(s, priority, w);
    case ExitCall(no, data) => ExitWaits(s, no, data, w);
    case WaitCall(_) => WaitWaits(s, w);
    case SendCall(_, _, _, _, _, _, _) => SendWaits(s, call, w);
    case ReceiveCall(addr, size) => ReceiveWaits(s, addr, size, w);
    case AckCall(_, _, _, _) => AckWaits(s, call, w);
    case TestCall(_) => NothingWaits(s, w);
  }

  lemma NothingWaits(s: Sys, w: int)
    requires Shaped(s)
    ensures StillWaits(s, s, w)
  {
  }

  lemma ServeWaits(s: Sys, call: Call, w: int, l: int)
    requires Shaped(s) && RingsOk(s) && Trapped(s, call) && WaitsFor(s, w, l)
    ensures WaitsFor(Serve(s, call), w, l) <==> !Takes(s, call, s.last, w)
  {
    if Takes(s, call, s.last, w) {
      TakenAway(s, call, w);
    } else {
      CallWaits(s, call, w);
    }
    hide Serve;
    hide Takes;
  }

  lemma TakenAway(s: Sys, call: Call, w: int)
    requires Shaped(s) && RingsOk(s) && Trapped(s, call) && Takes(s, call, s.last, w)
    ensures Serve(s, call).procs[w].state == SendingCh
  {
    hide ReceiveSys;
    ReceiveMeets(s, call.addr, call.size, w);
  }

  lemma TrapWaits(s: Sys, call: Call, e: Err, w: int, l: int)
    requires Shaped(s) && Running(s)
    ensures var k := Trap(s, call, e);
      && k.last == s.curr && (WaitsFor(k, w, l) <==> WaitsFor(s, w, l))
      && (Takes(k, call, s.curr, w) <==> Takes(s, call, s.curr, w))
  {
    var k := Trap(s, call, e);
    forall j, o ensures WaitsFor(k, j, o) <==> WaitsFor(s, j, o) {
    }
  }

  lemma NextWaits(k: Sys, v: Event, t: Sys, w: int, l: int)
    requires Shaped(k) && Next(k, v, t)
    ensures Shaped(t) && (WaitsFor(t, w, l) <==> WaitsFor(k, w, l))
  {
    if !v.call.TestCall? && !Halted(k) {
      var prio :| Runs(k, v.clock, prio, t);
    }
  }

  // One step of a run: a sender that waits for l goes on waiting for it, unless the step is a
  // receive of l with room for its message while it is the first that waits.
  lemma StepWaitsIff(s: Sys, v: Event, t: Sys, w: int, l: int)
    requires Inv(s) && Step(s, v, t) && WaitsFor(s, w, l)
    ensures Shaped(t) && (WaitsFor(t, w, l) <==> !Takes(s, v.call, s.curr, w))
  {
    hide Next;
    hide Serve;
    hide Roles;
    hide Queues;
    hide Children;
    hide Waiters;
    hide Rendezvous;
    hide Deliveries;
    hide History;
    hide Takes;
    var k := Trap(s, v.call, v.err);
    TrapKeeps(s, v.call, v.err);
    TrapWaits(s, v.call, v.err, w, l);
    ServeWaits(k, v.call, w, l);
    NextWaits(Served(s, v), v, t, w, l);
  }

  // ---------- a run from boot ----------

  const LARGE: Event := Trapping(SendCall(INIT_PID, 8, [0], 1, 0, 0, true))
  const SMALL: Event := Trapping(ReceiveCall(8, 0))

  ghost predicate NobodyElse(s: Sys)
    requires Shaped(s)
  {
    forall p | 3 <= p < MAX_PROC :: s.procs[p].state == Free
  }

  lemma ForkLeavesFree(s: Sys, t: Sys)
    requires Inv(s) && Step(s, FORK, t) && s.procs[2].state == Free && NobodyElse(s)
    ensures Shaped(t) && NobodyElse(t)
  {
    hide Roles;
    hide Queues;
    hide Children;
    hide Waiters;
    hide Rendezvous;
    hide Deliveries;
    hide History;
    hide ChangeState;
    var k := Served(s, FORK);
    assert NobodyElse(k);
    if !Halted(k) {
      var prio :| Runs(k, FORK.clock, prio, t);
    }
  }

  // The child sends one byte to init, which does not listen yet.
  lemma ChildWaits(s: Sys) returns (t: Sys)
    requires Scene(s, 2, [1, 2], Runnable, Runnable, Free) && NobodyElse(s)
    ensures Step(s, LARGE, t) && Inv(t) && RingsOk(t) && Running(t) && t.curr == 1 && NobodyElse(t)
    ensures WaitsFor(t, 2, 1) && t.procs[2].sendSize == 1
  {
    hide Roles;
    hide Queues;
    hide Children;
    hide Waiters;
    hide Rendezvous;
    hide Deliveries;
    hide History;
    var k := Served(s, LARGE);
    assert k.queues[MAX_PRIO] == [1] + [];
    t := RunsHead(s, LARGE, 1, []);
  }

  // init receives with no room: it listens, the child is refused and blocked, nobody can run.
  lemma InitReceives(s: Sys) returns (t: Sys)
    requires Inv(s) && RingsOk(s) && Running(s) && s.curr == 1 && NobodyElse(s) && WaitsFor(s, 2, 1) && s.procs[2].sendSize == 1
    ensures Step(s, SMALL, t) && Inv(t) && Halted(t)
    ensures t.procs[1].state == ListeningCh && WaitsFor(t, 2, 1)
    ensures t.procs[2].err.no == SEND_DATA_TOO_LARGE && t.procs[2].reg0 == -1
  {
    t := Served(s, SMALL);
    ServedKeeps(s, SMALL);
    assert Inv(t);
    Refused(s);
    hide Served;
    HaltIffNoneRunnable(t);
    hide RunnableCount;
    hide Inv;
  }

  lemma Refused(s: Sys)
    requires Inv(s) && RingsOk(s) && Running(s) && s.curr == 1 && NobodyElse(s) && WaitsFor(s, 2, 1) && s.procs[2].sendSize == 1
    ensures var t := Served(s, SMALL);
      && t.procs[1].state == ListeningCh && WaitsFor(t, 2, 1)
      && t.procs[2].err.no == SEND_DATA_TOO_LARGE && t.procs[2].reg0 == -1
      && forall p | 0 <= p < MAX_PROC :: t.procs[p].state != Runnable
  {
    hide Queues;
    hide Children;
    hide Waiters;
    hide Rendezvous;
    hide Deliveries;
    hide History;
    hide ReceiveSys;
    var k := Trap(s, SMALL.call, SMALL.err);
    assert WaitsFor(k, 2, 1) && k.procs[1].state == Runnable && k.procs[0].state == Kernel;
    assert FirstWaiter(k, 2, 1);
    ReceiveMeets(k, 8, 0, 2);
  }

  // From boot: fork, a send of one byte by the child, a receive without room by init; the child
  // has its error return, is blocked nevertheless, and the kernel halts.
  lemma TooLargeHalts() returns (states: seq<Sys>, events: seq<Event>)
    ensures Run(states, events) && states[0] == Boot()
    ensures var s := states[|states| - 1];
      && Inv(s) && Halted(s) && s.procs[1].state == ListeningCh && WaitsFor(s, 2, 1)
      && s.procs[2].err.no == SEND_DATA_TOO_LARGE && s.procs[2].reg0 == -1
  {
    hide Inv;
    hide Step;
    hide Halted;
    var s0 := Boot();
    BootScene();
    assert NobodyElse(s0);
    var s1 := InitForks(s0);
    ForkLeavesFree(s0, s1);
    var s2 := ChildWaits(s1);
    var s3 := InitReceives(s2);
    states := [s0, s1, s2, s3];
    events := [FORK, LARGE, SMALL];
  }
}
