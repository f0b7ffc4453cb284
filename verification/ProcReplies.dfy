/**
 End to end, the other way: from the trap of an acknowledge to the bytes the sender finds.
 */
module ProcReplies {
  import opened Bytes
  import opened ProcModel
  import opened ProcInvariants
  import opened ProcQueues
  import opened ProcFamily
  import opened ProcChannels
  import opened ProcRuns
  import opened ProcPayload

  ghost predicate IsReply(d: Delivery) {
    d.Delivery? && d.origin.FromServer?
  }

  // No reply reaches q that it did not have.
  ghost predicate NoNewReply(s: Sys, t: Sys, q: int)
    requires Shaped(s) && Shaped(t) && Pid(q)
  {
    IsReply(t.procs[q].pending) ==> t.procs[q].pending == s.procs[q].pending
  }

  // The caller acknowledges q, which is blocked in a send to it.
  ghost predicate Replies(s: Sys, t: Sys, call: Call, q: int)
    requires Shaped(s) && Shaped(t) && Pid(q)
  {
    && call.AckCall? && s.procs[q].state == SendingCh && s.procs[q].target == s.last
    && t.procs[q].pending == Delivery(s.procs[q].ackAddr, s.procs[s.last].out[..Min(s.procs[q].ackSize, |s.procs[s.last].out|)], FromServer(s.last))
  }

  lemma ForkReplies(s: Sys, priority: int, q: int)
    requires Shaped(s) && priority >= 0 && Pid(q)
    ensures NoNewReply(s, ForkSys(s, priority), q)
  {
    hide ChangeState;
    hide FindFree;
  }

  lemma ReapReplies(s: Sys, p: int, c: int, q: int)
    requires Shaped(s) && Pid(p) && Pid(c) && Pid(q)
    ensures NoNewReply(s, Reap(s, p, c), q)
  {
    hide ChangeState;
  }

  lemma WaitReplies(s: Sys, q: int)
    requires Shaped(s) && RingsOk(s) && Pid(q)
    ensures NoNewReply(s, WaitSys(s), q)
  {
    hide ChangeState;
    hide Reap;
    var ring := s.rings[s.last];
    if ring != [] && FirstZombie(s, ring) < |ring| {
      ReapReplies(s, s.last, ring[FirstZombie(s, ring)], q);
    }
  }

  lemma ExitReplies(s: Sys, no: int, data: int, q: int)
    requires Shaped(s) && RingsOk(s) && Pid(q)
    ensures NoNewReply(s, ExitSys(s, no, data), q)
  {
    hide ChangeState;
    hide Reap;
    hide Reparent;
    var b := Depart(s, Err(no, data));
    assert b.procs[q].pending == s.procs[q].pending;
    ReapReplies(b, b.procs[s.last].parent, s.last, q);
  }

  lemma ConnectReplies(s: Sys, sender: int, receiver: int, q: int)
    requires Shaped(s) && Pid(sender) && Pid(receiver) && sender != receiver && Pid(q)
    ensures NoNewReply(s, Connect(s, sender, receiver), q)
  {
    hide ChangeState;
  }

  lemma SendReplies(s: Sys, call: Call, q: int)
    requires Shaped(s) && Trapped(s, call) && call.SendCall? && Pid(q)
    ensures NoNewReply(s, SendSys(s, call), q)
  {
    hide ChangeState;
    hide Connect;
    var p := s.last;
    if Pid(call.target) && s.procs[call.target].state == ListeningCh && call.size <= BUFF_SIZE {
      var a := Put(s, p, s.procs[p].(target := call.target, sendSize := call.size, ackAddr := call.ackAddr, ackSize := call.ackSize));
      ConnectReplies(a, p, call.target, q);
    }
  }

  lemma ReceiveReplies(s: Sys, addr: nat, size: nat, q: int)
    requires Shaped(s) && Pid(q)
    ensures NoNewReply(s, ReceiveSys(s, addr, size), q)
  {
    hide Listen;
    hide Connect;
    hide FindSender;
    var a := Listen(s, addr, size);
    var i := FindSender(a, s.last, 0);
    if i < MAX_PROC {
      assert WaitsFor(a, i, s.last);
      ConnectReplies(a, i, s.last, q);
    }
  }

  lemma AckReplies(s: Sys, call: Call, q: int)
    requires Shaped(s) && Trapped(s, call) && call.AckCall? && !AckPanics(s, s.last, call) && Pid(q)
    ensures NoNewReply(s, AckSys(s, call), q) || Replies(s, AckSys(s, call), call, q)
  {
    hide ChangeState;
  }

  lemma ServeReplies(s: Sys, call: Call, q: int)
    requires Shaped(s) && RingsOk(s) && Trapped(s, call) && !AckPanics(s, s.last, call) && Pid(q)
    ensures NoNewReply(s, Serve(s, call), q) || Replies(s, Serve(s, call), call, q)
  {
    hide NoNewReply;
    hide Replies;
    match call
    case ForkCall(priority) => ForkReplies(s, priority, q);
    case ExitCall(no, data) => ExitReplies(s, no, data, q);
    case WaitCall(_) => WaitReplies(s, q);
    case SendCall(_, _, _, _, _, _, _) => SendReplies(s, call, q);
    case ReceiveCall(addr, size) => ReceiveReplies(s, addr, size, q);
    case AckCall(_, _, _, _) => AckReplies(s, call, q);
    case TestCall(_) => SameReply(s, q);
  }

  lemma SameReply(s: Sys, q: int)
    requires Shaped(s) && Pid(q)
    ensures NoNewReply(s, s, q)
  {
  }

  // The client's half: what it asked for when it was sent to sleep.
  lemma BlockedCall(s: Sys, q: int)
    requires Inv(s) && Pid(q) && s.procs[q].state == SendingCh
    ensures var x := s.procs[q];
      x.call.SendCall? && x.target == x.call.target && x.ackAddr == x.call.ackAddr && x.ackSize == x.call.ackSize
  {
    assert BlockedSend(s.procs[q]);
  }

  // What q has pending when the n-th trap has been served.
  ghost function PendingAt(states: seq<Sys>, events: seq<Event>, n: nat, q: int): Delivery
    requires Run(states, events) && n < |events| && Pid(q)
  {
    KernelAt(states, events, n).procs[q].pending
  }

  // The n-th trap either leaves q's reply as it was, or is the acknowledge that makes it.
  lemma ReplyStep(states: seq<Sys>, events: seq<Event>, n: nat, q: int)
    requires Run(states, events) && states[0] == Boot() && n < |events| && Pid(q)
    requires IsReply(PendingAt(states, events, n, q))
    ensures Shaped(states[n]) && states[n].curr != q
    ensures var d := PendingAt(states, events, n, q); var s, v := states[n], events[n];
      d == s.procs[q].pending || Answers(d, s.procs[q].call, v.call, s.curr)
  {
    hide Serve;
    hide Next;
    hide Inv;
    var s, v := states[n], events[n];
    EveryRun(states, events, n);
    assert Step(s, v, states[n + 1]);
    var k := Trap(s, v.call, v.err);
    TrapKeeps(s, v.call, v.err);
    ServeReplies(k, v.call, q);
    if Replies(k, Serve(k, v.call), v.call, q) {
      BlockedCall(k, q);
    }
  }

  // The reply d of process q: q trapped at m with a send, the server of that send trapped at a
  // with the acknowledge, and d is the prefix that q asked for of what the server captured. From
  // m to n process q has not run.
  ghost predicate Traced(states: seq<Sys>, events: seq<Event>, n: nat, q: int, d: Delivery, m: nat, a: nat) {
    && n < |states| && n < |events| && m < a <= n && IsReply(d)
    && states[m].curr == q && events[m].call.SendCall? && events[m].call.target == d.origin.pid
    && states[a].curr == d.origin.pid && events[a].call.AckCall?
    && d.addr == events[m].call.ackAddr
    && (forall i | m < i <= n :: states[i].curr != q)
    && var given := if events[a].call.addr != 0 && events[a].call.size > 0 then events[a].call.bytes else [];
       d.bytes == given[..Min(events[m].call.ackSize, |given|)]
  }

  // q does not run before the n-th trap.
  ghost predicate Sleeps(states: seq<Sys>, events: seq<Event>, n: nat, q: int) {
    n < |states| && n < |events| && states[n].curr != q
  }

  lemma TracedOn(states: seq<Sys>, events: seq<Event>, n: nat, q: int, d: Delivery, m: nat, a: nat)
    requires n > 0 && Sleeps(states, events, n, q) && Traced(states, events, n - 1, q, d, m, a)
    ensures Traced(states, events, n, q, d, m, a)
  {
  }

  // In every run every reply that a process finds is traced to a send of its own and to an
  // acknowledge of the server it sent to.
  lemma {:induction false} EndToEndReply(states: seq<Sys>, events: seq<Event>, n: nat, q: int) returns (m: nat, a: nat)
    requires Run(states, events) && states[0] == Boot() && n < |events| && Pid(q)
    requires IsReply(PendingAt(states, events, n, q))
    ensures Traced(states, events, n, q, PendingAt(states, events, n, q), m, a)
    decreases n
  {
    hide *;
    var isNew, k := NewOrOld(states, events, n, q);
    if isNew {
      m, a := k, n;
    } else {
      m, a := EndToEndReply(states, events, n - 1, q);
      TracedOn(states, events, n, q, PendingAt(states, events, n, q), m, a);
    }
  }

  lemma NewOrOld(states: seq<Sys>, events: seq<Event>, n: nat, q: int) returns (isNew: bool, m: nat)
    requires Run(states, events) && states[0] == Boot() && n < |events| && Pid(q)
    requires IsReply(PendingAt(states, events, n, q))
    ensures if isNew then Traced(states, events, n, q, PendingAt(states, events, n, q), m, n)
            else n > 0 && Sleeps(states, events, n, q) && PendingAt(states, events, n - 1, q) == PendingAt(states, events, n, q)
  {
    assert |states| == |events| + 1;
    hide PendingAt;
    hide Run;
    hide Boot;
    hide Traced;
    hide Answers;
    hide IsReply;
    ReplyStep(states, events, n, q);
    var d := PendingAt(states, events, n, q);
    m := 0;
    isNew := Answers(d, states[n].procs[q].call, events[n].call, states[n].curr);
    if isNew {
      m := ReplyNow(states, events, n, q, d);
    } else {
      ReplyBefore(states, events, n, q);
    }
  }

  // d answers the send c of q by the acknowledge of process p.
  ghost predicate Answers(d: Delivery, c: Call, ack: Call, p: int) {
    && IsReply(d) && ack.AckCall? && c.SendCall? && c.target == p && d.origin.pid == p && d.addr == c.ackAddr
    && d.bytes == Captured(ack)[..Min(c.ackSize, |Captured(ack)|)]
  }

  lemma TracedNow(states: seq<Sys>, events: seq<Event>, n: nat, q: int, d: Delivery, c: Call, m: nat)
    requires Sleeps(states, events, n, q) && SentAt(states, events, n, q, c, m)
    requires Answers(d, c, events[n].call, states[n].curr)
    ensures Traced(states, events, n, q, d, m, n)
  {
  }

  // q trapped at m with c and has not run from then up to the n-th trap.
  ghost predicate SentAt(states: seq<Sys>, events: seq<Event>, n: nat, q: int, c: Call, m: nat) {
    && n <= |states| && n <= |events| && m < n && states[m].curr == q && events[m].call == c
    && forall i | m < i <= n - 1 :: states[i].curr != q
  }

  lemma LastSend(states: seq<Sys>, events: seq<Event>, n: nat, q: int) returns (m: nat)
    requires Run(states, events) && states[0] == Boot() && n < |events| && Pid(q) && Shaped(states[n])
    requires states[n].procs[q].call.SendCall?
    ensures SentAt(states, events, n, q, states[n].procs[q].call, m)
  {
    hide KernelAt;
    SentBefore(states, events, n, q);
    m := SendOf(states, events, n - 1, q, states[n].procs[q].call);
    hide *;
  }

  lemma SendOf(states: seq<Sys>, events: seq<Event>, k: nat, q: int, c: Call) returns (m: nat)
    requires Run(states, events) && states[0] == Boot() && k < |events| && Pid(q)
    requires c.SendCall? && KernelAt(states, events, k).procs[q].call == c
    ensures SentAt(states, events, k + 1, q, c, m)
  {
    hide KernelAt;
    hide Boot;
    m := SendWasTrapped(states, events, k, q);
  }

  lemma ReplyNow(states: seq<Sys>, events: seq<Event>, n: nat, q: int, d: Delivery) returns (m: nat)
    requires Run(states, events) && states[0] == Boot() && n < |events| && Pid(q) && Shaped(states[n]) && Sleeps(states, events, n, q)
    requires Answers(d, states[n].procs[q].call, events[n].call, states[n].curr)
    ensures Traced(states, events, n, q, d, m, n)
  {
    var c := states[n].procs[q].call;
    assert c.SendCall?;
    hide *;
    m := LastSend(states, events, n, q);
    TracedNow(states, events, n, q, d, c, m);
  }

  lemma ReplyBefore(states: seq<Sys>, events: seq<Event>, n: nat, q: int)
    requires Run(states, events) && states[0] == Boot() && n < |events| && Pid(q) && Shaped(states[n]) && states[n].curr != q
    requires IsReply(states[n].procs[q].pending)
    ensures n > 0 && PendingAt(states, events, n - 1, q) == states[n].procs[q].pending
  {
    hide Serve;
    hide Next;
    assert n > 0;
    assert Step(states[n - 1], events[n - 1], states[n - 1 + 1]);
    NextMail(KernelAt(states, events, n - 1), events[n - 1], states[n], q);
  }

  lemma SentBefore(states: seq<Sys>, events: seq<Event>, n: nat, q: int)
    requires Run(states, events) && states[0] == Boot() && n < |events| && Pid(q) && Shaped(states[n])
    requires states[n].procs[q].call.SendCall?
    ensures n > 0 && KernelAt(states, events, n - 1).procs[q].call == states[n].procs[q].call
  {
    hide KernelAt;
    BootCalls(q);
    assert n > 0;
    UserCall(states, events, n - 1, q);
  }
}
