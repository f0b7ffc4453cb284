/**
 A run from boot that trips the assertion of handle_channel_ack: init acknowledges twice,
 and between the two its client has sent to somebody else.
 */
module ProcStaleAck {
  import opened Bytes
  import opened ProcModel
  import opened ProcInvariants
  import opened ProcQueues
  import opened Sampling
  import opened ProcRuns

  // The running process, the queue of the highest priority, and the states of 1, 2 and 3.
  ghost predicate Scene(s: Sys, curr: int, queue: seq<int>, one: ProcState, two: ProcState, three: ProcState) {
    && Inv(s) && RingsOk(s) && Running(s) && s.curr == curr && s.queues[MAX_PRIO] == queue
    && s.procs[1].state == one && s.procs[2].state == two && s.procs[3].state == three
    && (forall p | 1 <= p <= 3 && s.procs[p].state != Free :: s.procs[p].prio == MAX_PRIO)
    && (forall p | 0 <= p < MAX_PROC :: s.procs[p].state != WaitListener)
  }

  // From a kernel state whose highest queue is p, rest the dispatcher runs p.
  lemma RunsHead(s: Sys, v: Event, p: int, rest: seq<int>) returns (t: Sys)
    requires Inv(s) && RingsOk(s) && Running(s) && WellFormed(v.call) && !Panics(s, v) && !v.call.TestCall?
    requires Served(s, v).queues[MAX_PRIO] == [p] + rest && Pid(p)
    ensures Step(s, v, t) && Inv(t) && RingsOk(t) && Running(t)
    ensures var k := Served(s, v); t == Resume(k.(queues := k.queues[MAX_PRIO := rest + [p]]), p)
  {
    hide Served;
    hide Roles;
    hide Queues;
    hide Children;
    hide Waiters;
    hide Rendezvous;
    hide Deliveries;
    hide History;
    var k := Served(s, v);
    TermBelowSum(Lengths(k), MAX_PRIO);
    t := RunPriority(k, MAX_PRIO);
    assert k.queues[MAX_PRIO][1..] == rest;
    assert Runs(k, v.clock, MAX_PRIO, t);
    StepKeeps(s, v, t);
    HeadRuns(s, v, t);
  }

  lemma HeadRuns(s: Sys, v: Event, t: Sys)
    requires Inv(t) && t.queues[MAX_PRIO] != [] && (Running(t) || Halted(t))
    ensures Running(t) && RingsOk(t)
  {
    TermBelowSum(Lengths(t), MAX_PRIO);
    RingsInRange(t);
  }

  function Trapping(call: Call): Event { Event(call, Err(0, 0), 0) }

  const SEND_EMPTY: seq<Byte> := []

  function SendTo(q: int): Event { Trapping(SendCall(q, 0, SEND_EMPTY, 0, 0, 0, true)) }
  const FORK: Event := Trapping(ForkCall(MAX_PRIO))
  const RECEIVE: Event := Trapping(ReceiveCall(8, 8))
  const ACK: Event := Trapping(AckCall(0, 0, SEND_EMPTY, 0))

  lemma InitForks(s: Sys) returns (t: Sys)
    requires Scene(s, 1, [1], Runnable, Free, Free)
    ensures Step(s, FORK, t) && Scene(t, 2, [1, 2], Runnable, Runnable, Free) && t.procs[2].parent == 1
  {
    hide Roles;
    hide Queues;
    hide Children;
    hide Waiters;
    hide Rendezvous;
    hide Deliveries;
    hide History;
    var k := Served(s, FORK);
    assert k.queues[MAX_PRIO] == [2] + [1];
    t := RunsHead(s, FORK, 2, [1]);
  }

  lemma ClientForks(s: Sys) returns (t: Sys)
    requires Scene(s, 2, [1, 2], Runnable, Runnable, Free)
    ensures Step(s, FORK, t) && Scene(t, 3, [1, 2, 3], Runnable, Runnable, Runnable)
    ensures t.procs[2].parent == s.procs[2].parent && t.procs[3].parent == 2 && !t.procs[3].orphan
  {
    hide Roles;
    hide Queues;
    hide Children;
    hide Waiters;
    hide Rendezvous;
    hide Deliveries;
    hide History;
    var k := Served(s, FORK);
    assert k.queues[MAX_PRIO] == [3] + [1, 2];
    t := RunsHead(s, FORK, 3, [1, 2]);
  }

  lemma ServerListens(s: Sys) returns (t: Sys)
    requires Scene(s, 3, [1, 2, 3], Runnable, Runnable, Runnable)
    ensures Step(s, RECEIVE, t) && Scene(t, 1, [2, 1], Runnable, Runnable, ListeningCh) && t.procs[3].recvSize == 8
  {
    hide Roles;
    hide Queues;
    hide Children;
    hide Waiters;
    hide Rendezvous;
    hide Deliveries;
    hide History;
    hide Served;
    ListenFacts(s);
    var k := Served(s, RECEIVE);
    assert k.queues[MAX_PRIO] == [1] + [2];
    t := RunsHead(s, RECEIVE, 1, [2]);
  }

  // Nobody waits, so a receive only listens.
  lemma Listening(s: Sys)
    requires Inv(s) && RingsOk(s) && Running(s) && forall p | 0 <= p < MAX_PROC :: s.procs[p].state != WaitListener
    ensures Served(s, RECEIVE) == Listen(Trap(s, RECEIVE.call, RECEIVE.err), 8, 8)
  {
    hide Roles;
    hide Queues;
    hide Children;
    hide Waiters;
    hide Rendezvous;
    hide Deliveries;
    hide History;
    hide Listen;
    hide FindSender;
    var a := Listen(Trap(s, RECEIVE.call, RECEIVE.err), 8, 8);
    assert forall p | 0 <= p < MAX_PROC :: !WaitsFor(a, p, s.curr);
  }

  // The listener leaves its queue; nothing else moves.
  lemma ListenFacts(s: Sys)
    requires Inv(s) && RingsOk(s) && Running(s) && s.procs[s.curr].prio == MAX_PRIO
    requires forall p | 0 <= p < MAX_PROC :: s.procs[p].state != WaitListener
    ensures var k := Served(s, RECEIVE);
      && k.queues[MAX_PRIO] == Remove(s.queues[MAX_PRIO], s.curr)
      && (forall p | 0 <= p < MAX_PROC && p != s.curr :: k.procs[p] == s.procs[p])
      && k.procs[s.curr].state == ListeningCh && k.procs[s.curr].recvSize == 8 && k.procs[s.curr].prio == MAX_PRIO
  {
    hide Roles;
    hide Queues;
    hide Children;
    hide Waiters;
    hide Rendezvous;
    hide Deliveries;
    hide History;
    Listening(s);
    hide Served;
  }

  lemma InitListens(s: Sys) returns (t: Sys)
    requires Scene(s, 1, [2, 1], Runnable, Runnable, ListeningCh) && s.procs[3].recvSize == 8
    ensures Step(s, RECEIVE, t) && Scene(t, 2, [2], ListeningCh, Runnable, ListeningCh) && t.procs[1].recvSize == 8 && t.procs[3].recvSize == 8
  {
    hide Roles;
    hide Queues;
    hide Children;
    hide Waiters;
    hide Rendezvous;
    hide Deliveries;
    hide History;
    hide Served;
    ListenFacts(s);
    var k := Served(s, RECEIVE);
    assert k.queues[MAX_PRIO] == [2] + [];
    t := RunsHead(s, RECEIVE, 2, []);
  }

  // The running process meets a listener: it leaves its queue, the listener joins it in front.
  lemma SendFacts(s: Sys, q: int)
    requires Inv(s) && RingsOk(s) && Running(s) && Pid(q) && q != s.curr && s.procs[q].state == ListeningCh
    requires s.procs[s.curr].prio == MAX_PRIO && s.procs[q].prio == MAX_PRIO
    ensures var k := Served(s, SendTo(q));
      && k.queues[MAX_PRIO] == [q] + Remove(s.queues[MAX_PRIO], s.curr)
      && (forall p | 0 <= p < MAX_PROC && p != s.curr && p != q :: k.procs[p] == s.procs[p])
      && k.procs[s.curr].state == SendingCh && k.procs[s.curr].target == q && k.procs[s.curr].prio == MAX_PRIO && k.procs[s.curr].source == s.procs[s.curr].source
      && k.procs[q].state == Runnable && k.procs[q].source == s.curr && k.procs[q].prio == MAX_PRIO
  {
    hide Roles;
    hide Queues;
    hide Children;
    hide Waiters;
    hide Rendezvous;
    hide Deliveries;
    hide History;
    var a := Trap(s, SendTo(q).call, SendTo(q).err);
    var b := Put(a, s.curr, a.procs[s.curr].(target := q, sendSize := 0, ackAddr := 0, ackSize := 0));
    assert Served(s, SendTo(q)) == Connect(b, s.curr, q);
    hide Served;
    ConnectFacts(b, s.curr, q);
    hide Connect;
  }

  lemma ConnectFacts(b: Sys, p: int, q: int)
    requires Shaped(b) && Pid(p) && Pid(q) && p != q && b.procs[p].sendSize == 0
    requires b.procs[p].state == Runnable && b.procs[q].state == ListeningCh && b.procs[p].prio == MAX_PRIO && b.procs[q].prio == MAX_PRIO
    ensures var k := Connect(b, p, q);
      && k.queues[MAX_PRIO] == [q] + Remove(b.queues[MAX_PRIO], p)
      && (forall x | 0 <= x < MAX_PROC && x != p && x != q :: k.procs[x] == b.procs[x])
      && k.procs[p].state == SendingCh && k.procs[p].target == b.procs[p].target && k.procs[p].prio == MAX_PRIO && k.procs[p].source == b.procs[p].source
      && k.procs[q].state == Runnable && k.procs[q].source == p && k.procs[q].prio == MAX_PRIO
  {
    hide ChangeState;
    hide Remove;
    var a := Meet(b, p, q);
    assert a.queues == b.queues && a.procs[p] == b.procs[p].(acknowledged := false);
    assert a.procs[q].state == ListeningCh && a.procs[q].prio == MAX_PRIO && a.procs[q].source == p;
    assert forall x | 0 <= x < MAX_PROC && x != p && x != q :: a.procs[x] == b.procs[x];
    assert Connect(b, p, q) == ChangeState(ChangeState(a, p, SendingCh), q, Runnable);
    hide Meet;
    hide Connect;
    MovedQueues(a, p, q);
  }

  lemma MovedQueues(a: Sys, p: int, q: int)
    requires Shaped(a) && Pid(p) && Pid(q) && p != q && a.procs[p].state == Runnable && a.procs[q].state == ListeningCh
    requires a.procs[p].prio == MAX_PRIO && a.procs[q].prio == MAX_PRIO
    ensures var k := ChangeState(ChangeState(a, p, SendingCh), q, Runnable);
      && k.queues[MAX_PRIO] == [q] + Remove(a.queues[MAX_PRIO], p)
      && k.procs[p] == a.procs[p].(state := SendingCh) && k.procs[q] == a.procs[q].(state := Runnable)
      && forall x | 0 <= x < MAX_PROC && x != p && x != q :: k.procs[x] == a.procs[x]
  {
    hide ChangeState;
    hide Remove;
    var c := ChangeState(a, p, SendingCh);
    LeavesAt(a, p);
    Elsewhere(a, p, SendingCh);
    JoinsAt(c, q);
    Elsewhere(c, q, Runnable);
    hide Shaped;
  }

  lemma Elsewhere(a: Sys, p: int, st: ProcState)
    requires Shaped(a) && Pid(p)
    ensures var c := ChangeState(a, p, st);
      c.procs[p] == a.procs[p].(state := st) && forall x | 0 <= x < MAX_PROC && x != p :: c.procs[x] == a.procs[x]
  {
    hide ChangeState;
  }

  lemma LeavesAt(a: Sys, p: int)
    requires Shaped(a) && Pid(p) && a.procs[p].state == Runnable
    ensures ChangeState(a, p, SendingCh).queues[a.procs[p].prio] == Remove(a.queues[a.procs[p].prio], p)
  {
    hide ChangeState;
    hide Remove;
    LeavesQueue(a, p, SendingCh);
  }

  lemma JoinsAt(c: Sys, q: int)
    requires Shaped(c) && Pid(q) && c.procs[q].state != Runnable
    ensures ChangeState(c, q, Runnable).queues[c.procs[q].prio] == [q] + c.queues[c.procs[q].prio]
  {
    hide ChangeState;
    JoinsFront(c, q);
  }

  lemma ClientSends(s: Sys) returns (t: Sys)
    requires Scene(s, 2, [2], ListeningCh, Runnable, ListeningCh) && s.procs[1].recvSize == 8 && s.procs[3].recvSize == 8
    ensures Step(s, SendTo(1), t) && Scene(t, 1, [1], Runnable, SendingCh, ListeningCh)
    ensures t.procs[1].source == 2 && t.procs[2].target == 1 && t.procs[3].recvSize == 8
  {
    hide Roles;
    hide Queues;
    hide Children;
    hide Waiters;
    hide Rendezvous;
    hide Deliveries;
    hide History;
    hide Served;
    SendFacts(s, 1);
    var k := Served(s, SendTo(1));
    assert k.queues[MAX_PRIO] == [1] + [];
    t := RunsHead(s, SendTo(1), 1, []);
  }

  lemma InitAcks(s: Sys) returns (t: Sys)
    requires Scene(s, 1, [1], Runnable, SendingCh, ListeningCh)
    requires s.procs[1].source == 2 && s.procs[2].target == 1 && s.procs[3].recvSize == 8
    ensures Step(s, ACK, t) && Scene(t, 2, [1, 2], Runnable, Runnable, ListeningCh)
    ensures t.procs[1].source == 2 && t.procs[3].recvSize == 8
  {
    hide Roles;
    hide Queues;
    hide Children;
    hide Waiters;
    hide Rendezvous;
    hide History;
    var k := Served(s, ACK);
    assert k.queues[MAX_PRIO] == [2] + [1];
    t := RunsHead(s, ACK, 2, [1]);
  }

  lemma ClientSendsElsewhere(s: Sys) returns (t: Sys)
    requires Scene(s, 2, [1, 2], Runnable, Runnable, ListeningCh) && s.procs[1].source == 2 && s.procs[3].recvSize == 8
    ensures Step(s, SendTo(3), t) && Scene(t, 3, [1, 3], Runnable, SendingCh, Runnable)
    ensures t.procs[1].source == 2 && t.procs[2].target == 3
  {
    hide Roles;
    hide Queues;
    hide Children;
    hide Waiters;
    hide Rendezvous;
    hide Deliveries;
    hide History;
    hide Served;
    SendFacts(s, 3);
    var k := Served(s, SendTo(3));
    assert k.queues[MAX_PRIO] == [3] + [1];
    t := RunsHead(s, SendTo(3), 3, [1]);
  }

  // A call that fails gives init its turn.
  lemma ServerYields(s: Sys) returns (t: Sys)
    requires Scene(s, 3, [1, 3], Runnable, SendingCh, Runnable) && s.procs[1].source == 2 && s.procs[2].target == 3
    ensures Step(s, SendTo(-1), t) && Scene(t, 1, [3, 1], Runnable, SendingCh, Runnable)
    ensures t.procs[1].source == 2 && t.procs[2].target == 3
  {
    hide Roles;
    hide Queues;
    hide Children;
    hide Waiters;
    hide Rendezvous;
    hide Deliveries;
    hide History;
    var k := Served(s, SendTo(-1));
    assert k.queues[MAX_PRIO] == [1] + [3];
    t := RunsHead(s, SendTo(-1), 1, [3]);
  }

  // The second acknowledge of init, in a run from boot, makes the kernel panic.
  lemma StaleAckPanics() returns (states: seq<Sys>, events: seq<Event>)
    ensures Run(states, events) && states[0] == Boot()
    ensures var s := states[|states| - 1];
      Inv(s) && Running(s) && s.curr == INIT_PID && Panics(s, ACK)
  {
    hide Inv;
    hide Step;
    var s0 := Boot();
    BootScene();
    var s1 := InitForks(s0);
    var s2 := ClientForks(s1);
    var s3 := ServerListens(s2);
    var s4 := InitListens(s3);
    var s5 := ClientSends(s4);
    var s6 := InitAcks(s5);
    var s7 := ClientSendsElsewhere(s6);
    var s8 := ServerYields(s7);
    states := [s0, s1, s2, s3, s4, s5, s6, s7, s8];
    events := [FORK, FORK, RECEIVE, RECEIVE, SendTo(1), ACK, SendTo(3), SendTo(-1)];
    SceneAckPanics(s8);
  }

  lemma BootScene()
    ensures Scene(Boot(), 1, [1], Runnable, Free, Free)
  {
    BootKeeps();
    RingsInRange(Boot());
  }

  lemma SceneAckPanics(s: Sys)
    requires Scene(s, 1, [3, 1], Runnable, SendingCh, Runnable) && s.procs[1].source == 2 && s.procs[2].target == 3
    ensures Panics(s, ACK)
  {
  }
}
