/**
 End to end: from the trap of a send to the bytes its receiver finds.
 */
module ProcPayload {
  import opened Bytes
  import opened ProcModel
  import opened ProcInvariants
  import opened ProcQueues
  import opened ProcFamily
  import opened ProcChannels
  import opened ProcRuns

  // ---------- what is pending stays pending ----------

  ghost predicate KeepsMail(s: Sys, t: Sys, q: int)
    requires Shaped(s) && Shaped(t) && Pid(q)
  {
    t.procs[q].pending == s.procs[q].pending
  }

  lemma ConnectMail(s: Sys, sender: int, receiver: int, q: int)
    requires Shaped(s) && Pid(sender) && Pid(receiver) && sender != receiver && Pid(q) && q != receiver
    ensures KeepsMail(s, Connect(s, sender, receiver), q)
  {
    hide ChangeState;
    hide Meet;
    if s.procs[receiver].recvSize >= s.procs[sender].sendSize {
      ConnectedProcs(s, sender, receiver);
    }
  }

  lemma ReapMail(s: Sys, p: int, c: int, q: int)
    requires Shaped(s) && Pid(p) && Pid(c) && Pid(q) && q != p
    ensures KeepsMail(s, Reap(s, p, c), q)
  {
    hide ChangeState;
  }

  // While q waits to run, no other process's system call touches what it will be given.
  lemma ServeMail(s: Sys, call: Call, q: int)
    requires Inv(s) && RingsOk(s) && Trapped(s, call) && Pid(q) && q != s.last && s.procs[q].state == Runnable
    ensures KeepsMail(s, Serve(s, call), q)
  {
    hide ChangeState;
    hide Connect;
    hide Reap;
    hide Queues;
    hide Children;
    hide Rendezvous;
    hide Deliveries;
    hide FindFree;
    hide FindSender;
    hide Reparent;
    match call
    case ForkCall(priority) =>
    case ExitCall(no, data) => ExitMail(s, no, data, q);
    case WaitCall(_) => WaitMail(s, q);
    case SendCall(_, _, _, _, _, _, _) => SendMail(s, call, q);
    case ReceiveCall(addr, size) => ReceiveMail(s, addr, size, q);
    case AckCall(_, _, _, _) =>
    case TestCall(_) =>
  }

  lemma ExitMail(s: Sys, no: int, data: int, q: int)
    requires Shaped(s) && RingsOk(s) && Pid(q) && s.procs[q].state == Runnable
    ensures KeepsMail(s, ExitSys(s, no, data), q)
  {
    hide ChangeState;
    hide Reap;
    hide Reparent;
    var t := Depart(s, Err(no, data));
    var r := t.procs[s.last].parent;
    if t.procs[r].state == Waiting {
      ReapMail(t, r, s.last, q);
    }
  }

  lemma WaitMail(s: Sys, q: int)
    requires Shaped(s) && RingsOk(s) && Pid(q) && q != s.last
    ensures KeepsMail(s, WaitSys(s), q)
  {
    hide ChangeState;
    hide Reap;
    var ring := s.rings[s.last];
    if ring != [] && FirstZombie(s, ring) < |ring| {
      ReapMail(s, s.last, ring[FirstZombie(s, ring)], q);
    }
  }

  lemma SendMail(s: Sys, call: Call, q: int)
    requires Shaped(s) && Trapped(s, call) && call.SendCall? && Pid(q) && q != s.last && s.procs[q].state == Runnable
    ensures KeepsMail(s, SendSys(s, call), q)
  {
    hide ChangeState;
    hide Connect;
    var p := s.last;
    if Pid(call.target) && s.procs[call.target].state == ListeningCh && call.size <= BUFF_SIZE {
      var a := Put(s, p, s.procs[p].(target := call.target, sendSize := call.size, ackAddr := call.ackAddr, ackSize := call.ackSize));
      ConnectMail(a, p, call.target, q);
    }
  }

  lemma ReceiveMail(s: Sys, addr: nat, size: nat, q: int)
    requires Shaped(s) && Pid(q) && q != s.last
    ensures KeepsMail(s, ReceiveSys(s, addr, size), q)
  {
    hide Listen;
    hide Connect;
    hide FindSender;
    var a := Listen(s, addr, size);
    var i := FindSender(a, s.last, 0);
    if i < MAX_PROC {
      assert WaitsFor(a, i, s.last);
      ConnectMail(a, i, s.last, q);
    }
  }

  // ---------- the last trap of a process ----------

  // A process that is not new keeps the record of its last trap.
  ghost predicate KeepsCalls(s: Sys, t: Sys)
    requires Shaped(s) && Shaped(t)
  {
    forall q | 0 <= q < MAX_PROC :: t.procs[q].call == s.procs[q].call || t.procs[q].call == TestCall(0)
  }

  lemma ConnectCalls(s: Sys, sender: int, receiver: int)
    requires Shaped(s) && Pid(sender) && Pid(receiver)
    ensures KeepsCalls(s, Connect(s, sender, receiver))
  {
    hide ChangeState;
    var b := Meet(s, sender, receiver);
    assert KeepsCalls(s, b);
  }

  lemma ReapCalls(s: Sys, p: int, c: int)
    requires Shaped(s) && Pid(p) && Pid(c)
    ensures KeepsCalls(s, Reap(s, p, c))
  {
    hide ChangeState;
    var b := Collect(s, p, c);
    assert KeepsCalls(s, b);
  }

  lemma ExitCalls(s: Sys, no: int, data: int)
    requires Shaped(s) && RingsOk(s)
    ensures KeepsCalls(s, ExitSys(s, no, data))
  {
    hide ChangeState;
    hide Reap;
    hide Reparent;
    var t := Depart(s, Err(no, data));
    assert KeepsCalls(s, t);
    var r := t.procs[s.last].parent;
    if t.procs[r].state == Waiting {
      ReapCalls(t, r, s.last);
    }
  }

  lemma WaitCalls(s: Sys)
    requires Shaped(s) && RingsOk(s)
    ensures KeepsCalls(s, WaitSys(s))
  {
    hide ChangeState;
    hide Reap;
    var ring := s.rings[s.last];
    if ring != [] && FirstZombie(s, ring) < |ring| {
      ReapCalls(s, s.last, ring[FirstZombie(s, ring)]);
    }
  }

  lemma SendCalls(s: Sys, call: Call)
    requires Shaped(s) && call.SendCall?
    ensures KeepsCalls(s, SendSys(s, call))
  {
    hide ChangeState;
    hide Connect;
    var p := s.last;
    if Pid(call.target) && s.procs[call.target].state == ListeningCh && call.size <= BUFF_SIZE {
      var a := Put(s, p, s.procs[p].(target := call.target, sendSize := call.size, ackAddr := call.ackAddr, ackSize := call.ackSize));
      ConnectCalls(a, p, call.target);
    }
  }

  lemma ReceiveCalls(s: Sys, addr: nat, size: nat)
    requires Shaped(s)
    ensures KeepsCalls(s, ReceiveSys(s, addr, size))
  {
    hide Listen;
    hide Connect;
    hide FindSender;
    var a := Listen(s, addr, size);
    var i := FindSender(a, s.last, 0);
    if i < MAX_PROC {
      ConnectCalls(a, i, s.last);
    }
  }

  lemma AckCalls(s: Sys, call: Call)
    requires Shaped(s) && call.AckCall?
    ensures KeepsCalls(s, AckSys(s, call))
  {
    hide ChangeState;
    var p := s.last;
    var a := Put(s, p, s.procs[p].(returnCode := call.code));
    var b := Answer(a, p, a.procs[p].source);
    assert KeepsCalls(s, a);
    assert KeepsCalls(a, b);
  }

  lemma ServeCalls(s: Sys, call: Call)
    requires Shaped(s) && RingsOk(s) && WellFormed(call)
    ensures KeepsCalls(s, Serve(s, call))
  {
    hide KeepsCalls;
    match call
    case ForkCall(priority) => ForkCalls(s, priority);
    case ExitCall(no, data) => ExitCalls(s, no, data);
    case WaitCall(_) => WaitCalls(s);
    case SendCall(_, _, _, _, _, _, _) => SendCalls(s, call);
    case ReceiveCall(addr, size) => ReceiveCalls(s, addr, size);
    case AckCall(_, _, _, _) => AckCalls(s, call);
    case TestCall(_) => SameCalls(s);
  }

  lemma SameCalls(s: Sys)
    requires Shaped(s)
    ensures KeepsCalls(s, s)
  {
  }

  lemma ForkCalls(s: Sys, priority: int)
    requires Shaped(s) && priority >= 0
    ensures KeepsCalls(s, ForkSys(s, priority))
  {
    hide ChangeState;
    hide FindFree;
    var c := FindFree(s, 2);
    if c < MAX_PROC && priority <= s.procs[s.last].prio {
      assert KeepsCalls(s, Spawn(s, s.last, c, priority));
    }
  }

  lemma NextCalls(k: Sys, v: Event, t: Sys, q: int)
    requires Shaped(k) && Next(k, v, t) && Pid(q)
    ensures Shaped(t) && t.procs[q].call == k.procs[q].call
  {
    if !v.call.TestCall? && !Halted(k) {
      var prio :| Runs(k, v.clock, prio, t);
    }
  }

  // The kernel state of the n-th trap of a run.
  ghost function KernelAt(states: seq<Sys>, events: seq<Event>, n: nat): (k: Sys)
    requires Run(states, events) && n < |events|
    ensures Shaped(k)
  {
    assert Step(states[n], events[n], states[n + 1]);
    Served(states[n], events[n])
  }

  lemma KernelCall(states: seq<Sys>, events: seq<Event>, n: nat, q: int)
    requires Run(states, events) && n < |events| && Pid(q)
    ensures Shaped(states[n])
    ensures KernelAt(states, events, n).procs[q].call.SendCall? ==>
      KernelAt(states, events, n).procs[q].call == if states[n].curr == q then events[n].call else states[n].procs[q].call
  {
    hide Serve;
    hide Next;
    var s, v := states[n], events[n];
    assert Step(s, v, states[n + 1]);
    ServeCalls(Trap(s, v.call, v.err), v.call);
  }

  lemma UserCall(states: seq<Sys>, events: seq<Event>, n: nat, q: int)
    requires Run(states, events) && n < |events| && Pid(q)
    ensures Shaped(states[n + 1]) && states[n + 1].procs[q].call == KernelAt(states, events, n).procs[q].call
  {
    hide Serve;
    hide Next;
    assert Step(states[n], events[n], states[n + 1]);
    NextCalls(Served(states[n], events[n]), events[n], states[n + 1], q);
  }

  // A process recorded as sending trapped with that send, and has not trapped since.
  lemma {:induction false} SendWasTrapped(states: seq<Sys>, events: seq<Event>, n: nat, q: int) returns (m: nat)
    requires Run(states, events) && states[0] == Boot() && n < |events| && Pid(q)
    requires KernelAt(states, events, n).procs[q].call.SendCall?
    ensures m <= n && states[m].curr == q && events[m].call == KernelAt(states, events, n).procs[q].call
    ensures forall i | m < i <= n :: states[i].curr != q
    decreases n
  {
    hide KernelAt;
    KernelCall(states, events, n, q);
    if states[n].curr == q {
      m := n;
    } else {
      BootCalls(q);
      UserCall(states, events, n - 1, q);
      m := SendWasTrapped(states, events, n - 1, q);
    }
  }

  lemma BootCalls(q: int)
    requires Pid(q)
    ensures Boot().procs[q].call == TestCall(0)
  {
  }

  lemma KernelKeeps(states: seq<Sys>, events: seq<Event>, n: nat)
    requires Run(states, events) && states[0] == Boot() && n < |events|
    ensures Inv(KernelAt(states, events, n))
  {
    hide Inv;
    hide Next;
    EveryRun(states, events, n);
    assert Step(states[n], events[n], states[n + 1]);
    ServedKeeps(states[n], events[n]);
  }

  // In every run: what the dispatcher finds pending for process q from a sender is exactly
  // what that sender captured when it trapped with a send to q, and it has been blocked since.
  lemma EndToEndPayload(states: seq<Sys>, events: seq<Event>, n: nat, q: int) returns (m: nat)
    requires Run(states, events) && states[0] == Boot() && n < |events| && Pid(q)
    requires var d := KernelAt(states, events, n).procs[q].pending; d.Delivery? && d.origin.FromSender?
    ensures var d := KernelAt(states, events, n).procs[q].pending;
      && m <= n && states[m].curr == d.origin.pid && events[m].call.SendCall? && events[m].call.target == q
      && d.bytes == Captured(events[m].call) == (if events[m].call.addr != 0 && events[m].call.size > 0 then events[m].call.bytes else [])
      && d.addr == KernelAt(states, events, n).procs[q].recvAddr
      && forall i | m < i <= n :: states[i].curr != d.origin.pid
  {
    hide KernelAt;
    var k := KernelAt(states, events, n);
    KernelKeeps(states, events, n);
    assert PendingOk(k, q);
    m := SendWasTrapped(states, events, n, k.procs[q].pending.origin.pid);
  }

  // ---------- from delivery to resume ----------

  lemma NextMail(k: Sys, v: Event, t: Sys, q: int)
    requires Shaped(k) && Next(k, v, t) && Pid(q) && t.curr != q
    ensures Shaped(t) && t.procs[q].pending == k.procs[q].pending && t.procs[q].state == k.procs[q].state
  {
    if !v.call.TestCall? && !Halted(k) {
      var prio :| Runs(k, v.clock, prio, t);
    }
  }

  // One more trap by another process leaves what q has pending as it was.
  lemma MailStep(states: seq<Sys>, events: seq<Event>, n: nat, q: int)
    requires Run(states, events) && states[0] == Boot() && n + 1 < |events| && Pid(q)
    requires KernelAt(states, events, n).procs[q].pending.Delivery? && states[n + 1].curr != q
    ensures KernelAt(states, events, n + 1).procs[q].pending == KernelAt(states, events, n).procs[q].pending
  {
    hide Serve;
    hide Next;
    hide Roles;
    hide Queues;
    hide Children;
    hide Waiters;
    hide Rendezvous;
    hide History;
    var k := KernelAt(states, events, n);
    var s, v := states[n + 1], events[n + 1];
    KernelKeeps(states, events, n);
    assert PendingOk(k, q);
    assert Step(states[n], events[n], s);
    NextMail(k, events[n], s, q);
    EveryRun(states, events, n + 1);
    assert Step(s, v, states[n + 2]);
    TrapKeeps(s, v.call, v.err);
    ServeMail(Trap(s, v.call, v.err), v.call, q);
  }

  // Whatever other system calls run in between, what is pending for q when it is dispatched
  // is what was pending when it became runnable.
  lemma {:induction false} PendingUntilDispatch(states: seq<Sys>, events: seq<Event>, n: nat, n': nat, q: int)
    requires Run(states, events) && states[0] == Boot() && n <= n' < |events| && Pid(q)
    requires KernelAt(states, events, n).procs[q].pending.Delivery?
    requires forall i | n < i <= n' :: states[i].curr != q
    ensures KernelAt(states, events, n').procs[q].pending == KernelAt(states, events, n).procs[q].pending
    decreases n' - n
  {
    hide KernelAt;
    hide Run;
    hide Boot;
    if n < n' {
      MailStep(states, events, n, q);
      PendingUntilDispatch(states, events, n + 1, n', q);
    }
  }

  // An acknowledgement hands the sender the agreed prefix of the server's bytes.
  lemma AckAnswers(s: Sys, call: Call)
    requires Inv(s) && Trapped(s, call) && call.AckCall? && call.size <= BUFF_SIZE && !AckPanics(s, s.last, call)
    requires var x := s.procs[s.procs[s.last].source]; x.state == SendingCh && !x.acknowledged
    ensures var q := s.procs[s.last].source; var t := AckSys(s, call); var given := s.procs[q].call;
      && given.SendCall? && given.target == s.last
      && var b := if call.addr != 0 && call.size > 0 then call.bytes else [];
      && t.procs[q].pending == Delivery(given.ackAddr, b[..Min(given.ackSize, |b|)], FromServer(s.last))
      && t.procs[q].state == Runnable && t.procs[q].reg0 == call.code && t.procs[s.last].reg0 == 0
  {
    hide ChangeState;
    var q := s.procs[s.last].source;
    assert BlockedSend(s.procs[q]);
  }
}
