/**
 Runs: traps and dispatches in turn, from boot on.
 */
module ProcRuns {
  import opened Bytes
  import opened Sampling
  import opened ProcModel
  import opened ProcInvariants
  import opened ProcQueues
  import opened ProcFamily
  import opened ProcChannels

  // ---------- one system call ----------

  lemma CallFamily(s: Sys, call: Call)
    requires Shaped(s) && Family(s) && Trapped(s, call) && (call.SendCall? || call.AckCall?)
    ensures Family(if call.SendCall? then SendSys(s, call) else AckSys(s, call))
  {
    hide ChangeState;
    hide Family;
    if call.SendCall? {
      SendMoves(s, call);
      ActiveMoveKeeps(s, SendSys(s, call));
    } else {
      AckMoves(s, call);
      ActiveMoveKeeps(s, AckSys(s, call));
    }
  }

  lemma ConnectMoves(s: Sys, sender: int, receiver: int)
    requires Shaped(s) && Pid(sender) && Pid(receiver) && sender != receiver
    requires Active(s.procs[sender].state) && Active(s.procs[receiver].state)
    ensures ActiveMove(s, Connect(s, sender, receiver))
  {
    hide ChangeState;
    hide Meet;
    if s.procs[receiver].recvSize >= s.procs[sender].sendSize {
      ConnectedProcs(s, sender, receiver);
    }
  }

  lemma SendMoves(s: Sys, call: Call)
    requires Shaped(s) && Trapped(s, call) && call.SendCall?
    ensures ActiveMove(s, SendSys(s, call))
  {
    hide ChangeState;
    hide Connect;
    var p := s.last;
    if Pid(call.target) && (s.procs[call.target].state == ListeningCh || call.wait) && call.size <= BUFF_SIZE {
      var a := Put(s, p, s.procs[p].(target := call.target, sendSize := call.size, ackAddr := call.ackAddr, ackSize := call.ackSize));
      assert ActiveMove(s, a);
      if s.procs[call.target].state == ListeningCh {
        ConnectMoves(a, p, call.target);
      }
    }
  }

  lemma ReceiveMoves(s: Sys, addr: nat, size: nat)
    requires Shaped(s) && s.procs[s.last].state == Runnable
    ensures ActiveMove(s, ReceiveSys(s, addr, size))
  {
    hide Listen;
    hide Connect;
    hide FindSender;
    var a := Listen(s, addr, size);
    assert ActiveMove(s, a);
    var i := FindSender(a, s.last, 0);
    if i < MAX_PROC {
      assert WaitsFor(a, i, s.last);
      ConnectMoves(a, i, s.last);
    }
  }

  lemma AckMoves(s: Sys, call: Call)
    requires Shaped(s) && Trapped(s, call) && call.AckCall?
    ensures ActiveMove(s, AckSys(s, call))
  {
    hide ChangeState;
    hide Answer;
    var p := s.last;
    var a := Put(s, p, s.procs[p].(returnCode := call.code));
    var q := a.procs[p].source;
    if call.size <= BUFF_SIZE && !a.procs[q].acknowledged && a.procs[q].state == SendingCh {
      AnswerMoves(a, p, q);
      assert ActiveMove(s, a);
      hide Put;
      MoveMove(s, a, ChangeState(Answer(a, p, q), q, Runnable));
    }
  }

  lemma AnswerMoves(s: Sys, p: int, q: int)
    requires Shaped(s) && Pid(p) && Pid(q) && s.procs[p].state == Runnable && s.procs[q].state == SendingCh
    ensures ActiveMove(s, ChangeState(Answer(s, p, q), q, Runnable))
  {
    hide ChangeState;
    var t := ChangeState(Answer(s, p, q), q, Runnable);
    assert forall x | 0 <= x < MAX_PROC && x != p && x != q :: t.procs[x] == s.procs[x];
  }

  lemma MoveMove(s: Sys, t: Sys, u: Sys)
    requires Shaped(s) && Shaped(t) && Shaped(u) && ActiveMove(s, t) && ActiveMove(t, u)
    ensures ActiveMove(s, u)
  {
  }

  lemma ServeFamily(s: Sys, call: Call)
    requires Shaped(s) && Family(s) && RingsOk(s) && Trapped(s, call)
    ensures Family(Serve(s, call))
  {
    hide Family;
    match call
    case ForkCall(priority) => ForkFamily(s, priority);
    case ExitCall(no, data) => ExitFamily(s, no, data);
    case WaitCall(_) => WaitFamily(s);
    case SendCall(_, _, _, _, _, _, _) => CallFamily(s, call);
    case ReceiveCall(addr, size) =>
      ReceiveMoves(s, addr, size);
      ActiveMoveKeeps(s, ReceiveSys(s, addr, size));
    case AckCall(_, _, _, _) => CallFamily(s, call);
    case TestCall(_) =>
  }

  lemma ServeChannels(s: Sys, call: Call)
    requires Shaped(s) && Channels(s) && Family(s) && RingsOk(s) && Trapped(s, call) && !AckPanics(s, s.last, call)
    ensures Channels(Serve(s, call))
  {
    hide Channels;
    hide Family;
    match call
    case ForkCall(priority) => ForkChannels(s, priority);
    case ExitCall(no, data) => ExitChannels(s, no, data, call);
    case WaitCall(_) => WaitChannels(s, call);
    case SendCall(_, _, _, _, _, _, _) => SendChannels(s, call);
    case ReceiveCall(addr, size) => ReceiveChannels(s, addr, size, call);
    case AckCall(_, _, _, _) => AckChannels(s, call);
    case TestCall(_) =>
  }

  // Every system call keeps every invariant.
  lemma ServeKeeps(s: Sys, call: Call)
    requires Inv(s) && RingsOk(s) && Trapped(s, call) && !AckPanics(s, s.last, call)
    ensures Inv(Serve(s, call))
  {
    hide Roles;
    hide Queues;
    hide Children;
    hide Waiters;
    hide Rendezvous;
    hide Deliveries;
    hide History;
    hide Serve;
    ServeQueues(s, call);
    ServeFamily(s, call);
    ServeChannels(s, call);
  }

  // ---------- trap and dispatch ----------

  // Process s.curr runs, with an empty buffer.
  ghost predicate Running(s: Sys)
    requires Shaped(s)
  {
    var x := s.procs[s.curr];
    s.curr > 0 && x.state == Runnable && x.initialized && x.pending == Nothing && x.out == []
  }

  lemma TrapKeeps(s: Sys, call: Call, e: Err)
    requires Inv(s) && Running(s) && WellFormed(call)
    ensures Inv(Trap(s, call, e)) && Trapped(Trap(s, call, e), call)
  {
    hide Rendezvous;
    hide Deliveries;
    hide Family;
    var t := Trap(s, call, e);
    SameQueues(s, t);
    TrapFamily(s, call, e);
    QuietMoveKeeps(s, t);
  }

  lemma TrapFamily(s: Sys, call: Call, e: Err)
    requires Inv(s) && Running(s)
    ensures Family(Trap(s, call, e))
  {
    ActiveMoveKeeps(s, Trap(s, call, e));
  }

  lemma ResumeKeeps(s: Sys, p: int)
    requires Inv(s) && 0 < p < MAX_PROC && s.procs[p].state == Runnable
    ensures Inv(Resume(s, p)) && Running(Resume(s, p))
  {
    hide Rendezvous;
    hide Deliveries;
    var t := Resume(s, p);
    SameQueues(s, t);
    ActiveMoveKeeps(s, t);
    QuietMoveKeeps(s, t);
  }

  function Lengths(s: Sys): (l: seq<nat>)
    ensures |l| == |s.queues| && forall i :: 0 <= i < |l| ==> l[i] == |s.queues[i]|
  {
    seq(|s.queues|, i requires 0 <= i < |s.queues| => |s.queues[i]|)
  }

  // n_runnable_procs.
  function RunnableCount(s: Sys): nat {
    Sum(Lengths(s))
  }

  // The weights that schedule draws from: priorities 1 to 14 that have a process.
  function Weights(s: Sys): (w: seq<nat>)
    requires |s.queues| == MAX_PRIO + 1
    ensures |w| == MAX_PRIO
    ensures forall i :: 0 <= i < MAX_PRIO ==> w[i] == if i > 0 && |s.queues[i]| > 0 then i * i + |s.queues[i]| else 0
  {
    seq(MAX_PRIO, i requires 0 <= i < MAX_PRIO => if i > 0 && |s.queues[i]| > 0 then i * i + |s.queues[i]| else 0)
  }

  lemma {:induction false} SumOfZeros(law: seq<nat>, n: nat)
    requires n <= |law| && forall i | 1 <= i < n :: law[i] == 0
    ensures Sum(law[..n]) == if n == 0 then 0 else law[0]
  {
    if n > 0 {
      SumOfZeros(law, n - 1);
      PrefixSum(law, n - 1);
    }
  }

  lemma {:induction false} TermBelowSum(law: seq<nat>, i: nat)
    requires i < |law|
    ensures law[i] <= Sum(law)
  {
    PrefixSum(law, i);
    SumMonotone(law, i + 1, |law|);
    assert law[..|law|] == law;
  }

  // The draw is never from an empty total.
  lemma DrawPossible(s: Sys)
    requires |s.queues| == MAX_PRIO + 1 && s.queues[MAX_PRIO] == [] && RunnableCount(s) != |s.queues[0]|
    ensures Sum(Weights(s)) > 0
  {
    var l, w := Lengths(s), Weights(s);
    assert l[..|l|] == l;
    if forall i | 1 <= i < |l| :: l[i] == 0 {
      SumOfZeros(l, |l|);
    } else {
      var i :| 1 <= i < |l| && l[i] != 0;
      TermBelowSum(w, i);
    }
  }

  // The queue that schedule picks for a reading of the clock.
  ghost predicate Picks(s: Sys, clock: nat, prio: int)
    requires Shaped(s)
  {
    if s.queues[MAX_PRIO] != [] then prio == MAX_PRIO
    else if RunnableCount(s) == |s.queues[0]| then prio == 0
    else prio >= 0 && Sum(Weights(s)) > 0 && Selects(Weights(s), clock % Sum(Weights(s)), prio)
  }

  lemma PickExists(s: Sys, clock: nat) returns (prio: int)
    requires Shaped(s) && RunnableCount(s) > 0
    ensures Picks(s, clock, prio)
  {
    if s.queues[MAX_PRIO] != [] {
      prio := MAX_PRIO;
    } else if RunnableCount(s) == |s.queues[0]| {
      prio := 0;
    } else {
      DrawPossible(s);
      var w := Weights(s);
      assert w[..|w|] == w;
      prio := EveryDrawSelects(w, clock % Sum(w), |w|);
    }
  }

  // Dispatch safety: whatever the clock reads, the picked queue has a head, which is a
  // runnable, initialized process other than the kernel.
  lemma DispatchSafe(s: Sys, clock: nat, prio: int)
    requires Inv(s) && RunnableCount(s) > 0 && Picks(s, clock, prio)
    ensures 0 <= prio <= MAX_PRIO && s.queues[prio] != []
    ensures var p := s.queues[prio][0]; 0 < p < MAX_PROC && s.procs[p].state == Runnable && s.procs[p].initialized
  {
    PickNonEmpty(s, clock, prio);
    var p := s.queues[prio][0];
    assert p in s.queues[prio];
    assert Queued(s, prio, p);
  }

  lemma PickNonEmpty(s: Sys, clock: nat, prio: int)
    requires Shaped(s) && RunnableCount(s) > 0 && Picks(s, clock, prio)
    ensures 0 <= prio <= MAX_PRIO && s.queues[prio] != []
  {
    if s.queues[MAX_PRIO] == [] && RunnableCount(s) != |s.queues[0]| {
      PrefixSum(Weights(s), prio);
    }
  }

  lemma EmptyQueue(s: Sys, prio: int)
    requires Shaped(s) && Queues(s) && 0 <= prio <= MAX_PRIO && forall p | 0 <= p < MAX_PROC :: s.procs[p].state != Runnable
    ensures s.queues[prio] == []
  {
    var q := s.queues[prio];
    assert |q| > 0 ==> q[0] in q && Queued(s, prio, q[0]);
  }

  lemma HaltIffNoneRunnable(s: Sys)
    requires Inv(s)
    ensures RunnableCount(s) == 0 <==> forall p | 0 <= p < MAX_PROC :: s.procs[p].state != Runnable
  {
    var l := Lengths(s);
    if p :| 0 <= p < MAX_PROC && s.procs[p].state == Runnable {
      var prio := s.procs[p].prio;
      assert Queued(s, prio, p);
      assert p in s.queues[prio];
      TermBelowSum(l, prio);
    } else {
      forall prio | 0 <= prio <= MAX_PRIO ensures l[prio] == 0 {
        EmptyQueue(s, prio);
      }
      SumOfZeros(l, |l|);
      assert l[..|l|] == l;
    }
  }

  lemma RotateKeeps(s: Sys, prio: int)
    requires Inv(s) && 0 <= prio <= MAX_PRIO && s.queues[prio] != []
    ensures Inv(s.(queues := s.queues[prio := s.queues[prio][1..] + [s.queues[prio][0]]]))
  {
    hide Rendezvous;
    hide Deliveries;
    hide Family;
    var q := s.queues[prio];
    var t := s.(queues := s.queues[prio := q[1..] + [q[0]]]);
    assert forall x :: x in t.queues[prio] <==> x in q;
    forall pr, p | 0 <= pr <= MAX_PRIO ensures p in t.queues[pr] <==> Queued(t, pr, p) {
      assert p in s.queues[pr] <==> Queued(s, pr, p);
    }
    RotateFamily(s, t);
    QuietMoveKeeps(s, t);
  }

  lemma RotateFamily(s: Sys, t: Sys)
    requires Inv(s) && Shaped(t) && t == s.(queues := t.queues)
    ensures Family(t)
  {
    ActiveMoveKeeps(s, t);
  }

  // ---------- runs ----------

  // A trap with the caller's errno, and the clock reading of the dispatch that follows.
  datatype Event = Event(call: Call, err: Err, clock: nat)

  // The kernel state in which the dispatcher finds a served trap.
  function Served(s: Sys, v: Event): (t: Sys)
    requires Shaped(s) && RingsOk(s) && WellFormed(v.call)
    ensures Shaped(t)
  {
    Serve(Trap(s, v.call, v.err), v.call)
  }

  predicate Panics(s: Sys, v: Event)
    requires Shaped(s)
  {
    AckPanics(Trap(s, v.call, v.err), s.curr, v.call)
  }

  predicate Halted(s: Sys)
    requires Shaped(s)
  {
    RunnableCount(s) == 0
  }

  // t is what the user sees after the kernel state k: syscall 101 returns to its caller,
  // otherwise schedule halts or dispatches a process.
  ghost predicate Runs(k: Sys, clock: nat, prio: int, t: Sys)
    requires Shaped(k)
  {
    Picks(k, clock, prio) && 0 <= prio <= MAX_PRIO && k.queues[prio] != [] && Pid(k.queues[prio][0]) && t == RunPriority(k, prio)
  }

  ghost predicate Next(k: Sys, v: Event, t: Sys)
    requires Shaped(k)
  {
    if v.call.TestCall? then t == Resume(k, k.last)
    else if Halted(k) then t == k
    else exists prio :: Runs(k, v.clock, prio, t)
  }

  ghost predicate Step(s: Sys, v: Event, t: Sys) {
    && Shaped(s) && RingsOk(s) && Running(s)
    && WellFormed(v.call) && !Panics(s, v) && Next(Served(s, v), v, t)
  }

  lemma ServedKeeps(s: Sys, v: Event)
    requires Inv(s) && RingsOk(s) && Running(s) && WellFormed(v.call) && !Panics(s, v)
    ensures Inv(Served(s, v))
    ensures v.call.TestCall? ==> Served(s, v).last > 0 && Served(s, v).procs[Served(s, v).last].state == Runnable
  {
    hide Roles;
    hide Queues;
    hide Children;
    hide Waiters;
    hide Rendezvous;
    hide Deliveries;
    hide History;
    TrapKeeps(s, v.call, v.err);
    ServeKeeps(Trap(s, v.call, v.err), v.call);
  }

  lemma NextKeeps(k: Sys, v: Event, t: Sys)
    requires Inv(k) && Next(k, v, t)
    requires v.call.TestCall? ==> k.last > 0 && k.procs[k.last].state == Runnable
    ensures Inv(t) && (Running(t) || Halted(t))
  {
    hide Roles;
    hide Queues;
    hide Children;
    hide Waiters;
    hide Rendezvous;
    hide Deliveries;
    hide History;
    if v.call.TestCall? {
      ResumeKeeps(k, k.last);
    } else if !Halted(k) {
      var prio :| Runs(k, v.clock, prio, t);
      DispatchSafe(k, v.clock, prio);
      var q := k.queues[prio];
      RotateKeeps(k, prio);
      ResumeKeeps(k.(queues := k.queues[prio := q[1..] + [q[0]]]), q[0]);
    }
  }

  lemma StepKeeps(s: Sys, v: Event, t: Sys)
    requires Inv(s) && Step(s, v, t)
    ensures Inv(t) && (Running(t) || Halted(t))
  {
    hide Inv;
    ServedKeeps(s, v);
    NextKeeps(Served(s, v), v, t);
  }

  // A running process can always trap, unless the assertion of handle_channel_ack fires.
  lemma Progress(s: Sys, v: Event) returns (t: Sys)
    requires Inv(s) && RingsOk(s) && Running(s) && WellFormed(v.call) && !Panics(s, v)
    ensures Step(s, v, t)
  {
    hide Roles;
    hide Queues;
    hide Children;
    hide Waiters;
    hide Rendezvous;
    hide Deliveries;
    hide History;
    var k := Served(s, v);
    ServedKeeps(s, v);
    if v.call.TestCall? {
      t := Resume(k, k.last);
    } else if Halted(k) {
      t := k;
    } else {
      var prio := PickExists(k, v.clock);
      DispatchSafe(k, v.clock, prio);
      t := RunPriority(k, prio);
      assert Runs(k, v.clock, prio, t);
    }
  }

  // ---------- boot ----------

  // A descriptor of the static table before anything is written to it.
  function BlankProc(): Proc {
    NewProc(0, 0, Err(0, 0)).(initialized := false, acknowledged := false)
  }

  function BootProc(p: int): Proc {
    if p == KERNEL_PID then BlankProc().(state := Kernel)
    else if p == INIT_PID then NewProc(INIT_PID, MAX_PRIO, Err(0, 0)).(state := Runnable)
    else BlankProc()
  }

  // init_proc, and the first dispatch of init.
  function Boot(): (s: Sys)
    ensures Shaped(s)
  {
    Sys(seq(MAX_PROC, p => BootProc(p)),
        seq(MAX_PRIO + 1, prio => if prio == MAX_PRIO then [INIT_PID] else []),
        seq(MAX_PROC, p => []), INIT_PID, KERNEL_PID,
        seq(MAX_PROC, p => 0), seq(MAX_PROC, p => 0), seq(MAX_PROC, p => Err(0, 0)))
  }

  // The boot state, slot by slot.
  ghost predicate IsBoot(s: Sys) {
    && Shaped(s) && s.curr == INIT_PID
    && (forall p | 0 <= p < MAX_PROC :: s.procs[p] == BootProc(p))
    && (forall prio | 0 <= prio <= MAX_PRIO :: s.queues[prio] == if prio == MAX_PRIO then [INIT_PID] else [])
    && (forall p | 0 <= p < MAX_PROC :: s.rings[p] == [] && s.exits[p] == 0 && s.reaps[p] == 0)
  }

  lemma BootIsBoot()
    ensures IsBoot(Boot())
  {
  }

  lemma BootFamily(s: Sys)
    requires IsBoot(s)
    ensures Roles(s) && Children(s) && Waiters(s) && History(s)
  {
  }

  lemma BootQueues(s: Sys)
    requires IsBoot(s)
    ensures Queues(s)
  {
  }

  lemma BootChannels(s: Sys)
    requires IsBoot(s)
    ensures Rendezvous(s) && Deliveries(s) && Running(s)
  {
  }

  // At boot init runs, with the highest priority and no error, and every other slot is free.
  lemma BootKeeps()
    ensures Inv(Boot()) && Running(Boot())
    ensures Boot().curr == INIT_PID && Boot().procs[INIT_PID].prio == MAX_PRIO && Boot().procs[INIT_PID].err == Err(0, 0)
    ensures forall p | 2 <= p < MAX_PROC :: Boot().procs[p].state == Free
  {
    hide Boot;
    BootIsBoot();
    BootFamily(Boot());
    BootQueues(Boot());
    BootChannels(Boot());
    hide Roles;
    hide Queues;
    hide Children;
    hide Waiters;
    hide Rendezvous;
    hide Deliveries;
    hide History;
    hide Running;
  }

  // states[i] steps to states[i + 1] by events[i].
  ghost predicate Run(states: seq<Sys>, events: seq<Event>) {
    |states| == |events| + 1 && forall i | 0 <= i < |events| :: Step(states[i], events[i], states[i + 1])
  }

  lemma RunLength(states: seq<Sys>, events: seq<Event>)
    requires Run(states, events)
    ensures |states| == |events| + 1
  {
  }

  // Every state of every run from boot satisfies every invariant, and either a process runs
  // or no process is runnable.
  lemma {:induction false} EveryRun(states: seq<Sys>, events: seq<Event>, n: nat)
    requires Run(states, events) && states[0] == Boot() && n < |states|
    ensures Inv(states[n]) && (Running(states[n]) || Halted(states[n]))
  {
    if n == 0 {
      BootKeeps();
    } else {
      EveryRun(states, events, n - 1);
      assert Step(states[n - 1], events[n - 1], states[n - 1 + 1]);
      StepKeeps(states[n - 1], events[n - 1], states[n]);
    }
  }
}
