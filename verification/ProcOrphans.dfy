/**
 Zombies that lost their parent: exit reparents them to init without putting them in init's
 ring, so nobody can reap them and their slots are lost. Which exits are lost, and that they
 stay so.
 */
module ProcOrphans {
  import opened ProcModel
  import opened ProcInvariants
  import opened ProcQueues
  import opened ProcFamily
  import opened ProcChannels
  import opened ProcRuns

  ghost predicate Lost(s: Sys, c: int)
    requires Shaped(s)
  {
    2 <= c < MAX_PROC && s.procs[c].state == Zombie && s.procs[c].orphan
  }

  // A zombie is in some ring, where wait can find it, exactly when it has not lost its parent.
  lemma FindableIffNotLost(s: Sys, c: int)
    requires Inv(s) && 2 <= c < MAX_PROC && s.procs[c].state == Zombie
    ensures (exists q :: 0 <= q < MAX_PROC && c in s.rings[q]) <==> !Lost(s, c)
  {
    hide Queues;
    hide Waiters;
    hide Rendezvous;
    hide Deliveries;
    hide History;
    var q := s.procs[c].parent;
    assert c in s.rings[q] <==> IsChild(s, q, c);
    forall o | 0 <= o < MAX_PROC ensures c in s.rings[o] ==> !s.procs[c].orphan {
      assert c in s.rings[o] <==> IsChild(s, o, c);
    }
  }

  // ---------- one system call ----------

  ghost predicate SameLost(s: Sys, t: Sys, c: int)
    requires Shaped(s)
  {
    Shaped(t) && (Lost(s, c) <==> Lost(t, c))
  }

  lemma ForkLost(s: Sys, priority: int, c: int)
    requires Shaped(s) && priority >= 0 && s.procs[s.last].state == Runnable
    ensures SameLost(s, ForkSys(s, priority), c)
  {
    hide ChangeState;
    hide FindFree;
  }

  // A lost zombie is in no ring, so wait passes it over.
  lemma WaitLost(s: Sys, c: int)
    requires Shaped(s) && Children(s) && RingsOk(s) && s.procs[s.last].state == Runnable
    ensures SameLost(s, WaitSys(s), c)
  {
    hide ChangeState;
    hide Reap;
    var p := s.last;
    if s.rings[p] != [] && FirstZombie(s, s.rings[p]) < |s.rings[p]| {
      var z := s.rings[p][FirstZombie(s, s.rings[p])];
      assert z in s.rings[p];
      assert IsChild(s, p, z);
      hide Children;
      hide FirstZombie;
      CollectLost(s, p, z, c);
    }
  }

  lemma CollectLost(s: Sys, p: int, z: int, c: int)
    requires Shaped(s) && Pid(p) && Pid(z) && p != z && s.procs[p].state == Runnable && !s.procs[z].orphan
    ensures SameLost(s, Reap(s, p, z), c)
  {
    hide ChangeState;
  }

  lemma ConnectLost(s: Sys, sender: int, receiver: int, c: int)
    requires Shaped(s) && Pid(sender) && Pid(receiver) && sender != receiver
    requires s.procs[sender].state != Zombie && s.procs[receiver].state != Zombie
    ensures SameLost(s, Connect(s, sender, receiver), c)
  {
    hide ChangeState;
  }

  lemma SendLost(s: Sys, call: Call, c: int)
    requires Shaped(s) && call.SendCall? && s.procs[s.last].state == Runnable
    ensures SameLost(s, SendSys(s, call), c)
  {
    hide Connect;
    hide ChangeState;
    var p := s.last;
    if Pid(call.target) && s.procs[call.target].state == ListeningCh && call.size <= BUFF_SIZE {
      var a := Put(s, p, s.procs[p].(target := call.target, sendSize := call.size, ackAddr := call.ackAddr, ackSize := call.ackSize));
      ConnectLost(a, p, call.target, c);
    }
  }

  lemma ReceiveLost(s: Sys, addr: nat, size: nat, c: int)
    requires Shaped(s) && s.procs[s.last].state == Runnable
    ensures SameLost(s, ReceiveSys(s, addr, size), c)
  {
    hide Connect;
    hide Listen;
    hide FindSender;
    var a := Listen(s, addr, size);
    var i := FindSender(a, s.last, 0);
    if i < MAX_PROC {
      assert WaitsFor(a, i, s.last);
      ConnectLost(a, i, s.last, c);
    }
  }

  lemma AckLost(s: Sys, call: Call, c: int)
    requires Shaped(s) && call.AckCall? && s.procs[s.last].state == Runnable
    ensures SameLost(s, AckSys(s, call), c)
  {
    hide ChangeState;
    hide Answer;
    var p := s.last;
    var a := Put(s, p, s.procs[p].(returnCode := call.code));
    var q := a.procs[p].source;
    if a.procs[q].state == SendingCh {
      AnswerLost(a, p, q, c);
    }
  }

  lemma AnswerLost(s: Sys, p: int, q: int, c: int)
    requires Shaped(s) && Pid(p) && Pid(q) && s.procs[q].state == SendingCh
    ensures SameLost(s, ChangeState(Answer(s, p, q), q, Runnable), c)
  {
    hide ChangeState;
  }

  // No other system call than exit loses a zombie or finds one.
  lemma OnlyExitLoses(s: Sys, call: Call, c: int)
    requires Shaped(s) && Children(s) && RingsOk(s) && Trapped(s, call) && !call.ExitCall?
    ensures SameLost(s, Serve(s, call), c)
  {
    hide Children;
    hide SameLost;
    match call
    case ForkCall(priority) => ForkLost(s, priority, c);
    case WaitCall(_) => WaitLost(s, c);
    case SendCall(_, _, _, _, _, _, _) => SendLost(s, call, c);
    case ReceiveCall(addr, size) => ReceiveLost(s, addr, size, c);
    case AckCall(_, _, _, _) => AckLost(s, call, c);
    case TestCall(_) => NothingLost(s, c);
  }

  lemma NothingLost(s: Sys, c: int)
    requires Shaped(s)
    ensures SameLost(s, s, c)
  {
  }

  // What the exit of p loses: its zombies, and itself when its own parent is gone and init
  // does not happen to wait.
  ghost predicate Loses(s: Sys, p: int, c: int)
    requires Shaped(s) && Pid(p)
  {
    || (c in s.rings[p] && 2 <= c < MAX_PROC && s.procs[c].state == Zombie)
    || (c == p && 2 <= c && s.procs[c].orphan && s.procs[INIT_PID].state != Waiting)
  }

  lemma DepartLoses(s: Sys, e: Err, c: int)
    requires Shaped(s) && RingsOk(s) && Roles(s) && Children(s) && s.last > 0 && s.procs[s.last].state == Runnable
    ensures var t := Depart(s, e); var p := s.last;
      && (Lost(t, c) <==> Lost(s, c) || (c in s.rings[p] && 2 <= c < MAX_PROC && s.procs[c].state == Zombie))
      && t.procs[p].orphan == s.procs[p].orphan && t.procs[p].parent == s.procs[p].parent && t.procs[p].state == Runnable
      && t.procs[s.procs[p].parent].state == s.procs[s.procs[p].parent].state
  {
    hide Depart;
    var p := s.last;
    DepartIs(s, e);
    assert c in s.rings[p] <==> IsChild(s, p, c);
    assert p !in s.rings[p] by {
      assert p in s.rings[p] <==> IsChild(s, p, p);
    }
  }

  lemma ReapLoses(t: Sys, q: int, p: int, c: int)
    requires Shaped(t) && Pid(q) && Pid(p) && p != q && t.procs[p].state == Runnable && t.procs[q].state == Waiting
    ensures SameLost(t, Reap(t, q, p), c)
  {
    hide ChangeState;
  }

  lemma ZombieLoses(t: Sys, p: int, c: int)
    requires Shaped(t) && Pid(p) && t.procs[p].state == Runnable
    ensures Lost(ChangeState(t, p, Zombie), c) <==> Lost(t, c) || (c == p && 2 <= c && t.procs[c].orphan)
  {
    hide ChangeState;
  }

  // An exit loses exactly these.
  lemma ExitLosesIff(s: Sys, no: int, data: int, c: int)
    requires Inv(s) && RingsOk(s) && s.last > 0 && s.procs[s.last].state == Runnable
    ensures Lost(ExitSys(s, no, data), c) <==> Lost(s, c) || Loses(s, s.last, c)
  {
    hide Queues;
    hide Waiters;
    hide Rendezvous;
    hide Deliveries;
    hide History;
    hide Depart;
    hide Reap;
    hide ChangeState;
    var p := s.last;
    var q := s.procs[p].parent;
    var t := Depart(s, Err(no, data));
    DepartLoses(s, Err(no, data), c);
    OrphansParent(s);
    hide Children;
    if s.procs[q].state == Waiting {
      ReapLoses(t, q, p, c);
    } else {
      ZombieLoses(t, p, c);
    }
  }

  // An orphan names init as its parent, and nobody but init itself is its own parent.
  lemma OrphansParent(s: Sys)
    requires Inv(s) && s.last > 0 && s.procs[s.last].state == Runnable
    ensures s.procs[s.last].orphan && 2 <= s.last ==> s.procs[s.last].parent == INIT_PID
    ensures s.procs[s.procs[s.last].parent].state == Waiting ==> s.procs[s.last].parent != s.last
    ensures s.last == INIT_PID ==> !s.procs[s.last].orphan
  {
  }

  // ---------- runs ----------

  lemma NextLost(k: Sys, v: Event, t: Sys, c: int)
    requires Shaped(k) && Next(k, v, t)
    ensures SameLost(k, t, c)
  {
    if !v.call.TestCall? && !Halted(k) {
      var prio :| Runs(k, v.clock, prio, t);
    }
  }

  lemma ServeLosesIff(k: Sys, call: Call, c: int)
    requires Inv(k) && RingsOk(k) && Trapped(k, call)
    ensures Lost(Serve(k, call), c) <==> Lost(k, c) || (call.ExitCall? && Loses(k, k.last, c))
  {
    if call.ExitCall? {
      ExitLosesIff(k, call.no, call.data, c);
    } else {
      OnlyExitLoses(k, call, c);
    }
    hide *;
  }

  // One step of a run: a zombie is lost after it exactly when it was before, or the step is an
  // exit that loses it.
  lemma StepLosesIff(s: Sys, v: Event, t: Sys, c: int)
    requires Inv(s) && Step(s, v, t)
    ensures Shaped(t) && (Lost(t, c) <==> Lost(s, c) || (v.call.ExitCall? && Loses(s, s.curr, c)))
  {
    hide Next;
    hide Serve;
    hide Roles;
    hide Queues;
    hide Children;
    hide Waiters;
    hide Rendezvous;
    hide Deliveries;
    hide History;
    var k := Trap(s, v.call, v.err);
    TrapKeeps(s, v.call, v.err);
    TrapLoses(s, v.call, v.err, c);
    RingsInRange(k);
    ServeLosesIff(k, v.call, c);
    NextLost(Served(s, v), v, t, c);
  }

  lemma TrapLoses(s: Sys, call: Call, e: Err, c: int)
    requires Shaped(s)
    ensures var k := Trap(s, call, e);
      (Lost(k, c) <==> Lost(s, c)) && (Loses(k, s.curr, c) <==> Loses(s, s.curr, c)) && k.last == s.curr
  {
  }

  // The m-th trap of a run is an exit that loses c.
  ghost predicate LosesAt(states: seq<Sys>, events: seq<Event>, m: nat, c: int)
    requires m < |states| && m < |events|
  {
    Shaped(states[m]) && events[m].call.ExitCall? && Loses(states[m], states[m].curr, c)
  }

  // In every run: a zombie is lost exactly when some exit before has lost it. So an exit that is
  // lost stays lost, and nothing else loses one.
  lemma {:induction false} LostIff(states: seq<Sys>, events: seq<Event>, n: nat, c: int)
    requires Run(states, events) && states[0] == Boot() && n < |states|
    ensures Shaped(states[n])
    ensures Lost(states[n], c) <==> exists m: nat :: m < n && LosesAt(states, events, m, c)
    decreases n
  {
    hide *;
    RunLength(states, events);
    if n == 0 {
      BootLost(c);
    } else {
      LostIff(states, events, n - 1, c);
      LostAfter(states, events, n - 1, c);
    }
  }

  lemma LostAfter(states: seq<Sys>, events: seq<Event>, n: nat, c: int)
    requires Run(states, events) && states[0] == Boot() && n < |events| && n + 1 < |states|
    ensures Shaped(states[n]) && Shaped(states[n + 1])
    ensures Lost(states[n + 1], c) <==> Lost(states[n], c) || LosesAt(states, events, n, c)
  {
    EveryRun(states, events, n);
    assert Step(states[n], events[n], states[n + 1]);
    hide Boot;
    hide Inv;
    hide Step;
    hide Loses;
    hide Lost;
    StepLosesIff(states[n], events[n], states[n + 1], c);
  }

  lemma BootLost(c: int)
    ensures Shaped(Boot()) && !Lost(Boot(), c)
  {
  }

  // Once lost, a zombie stays unreaped to the end of every run.
  lemma LostForever(states: seq<Sys>, events: seq<Event>, m: nat, n: nat, c: int)
    requires Run(states, events) && states[0] == Boot() && m <= n < |states|
    requires Shaped(states[m]) && Lost(states[m], c)
    ensures Shaped(states[n]) && Lost(states[n], c)
    ensures states[n].exits[c] == states[n].reaps[c] + 1
  {
    hide Inv;
    hide Step;
    hide Boot;
    LostIff(states, events, m, c);
    LostIff(states, events, n, c);
    EveryRun(states, events, n);
    LostIsUnreaped(states[n], c);
  }

  lemma LostIsUnreaped(s: Sys, c: int)
    requires Inv(s) && Lost(s, c)
    ensures s.exits[c] == s.reaps[c] + 1
  {
    hide Queues;
    hide Waiters;
    hide Rendezvous;
    hide Deliveries;
  }
}
