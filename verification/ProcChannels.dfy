/**
 Rendezvous and payloads: what is delivered is what was captured at the sender's trap.
 */
module ProcChannels {
  import opened ProcModel
  import opened ProcInvariants
  import opened ProcFamily

  ghost predicate Channels(s: Sys)
    requires Shaped(s)
  {
    Rendezvous(s) && Deliveries(s)
  }

  ghost predicate Channel(st: ProcState) {
    st == SendingCh || st == ListeningCh || st == WaitListener
  }

  ghost predicate SameChannel(x: Proc, y: Proc) {
    && y.state == x.state && y.target == x.target && y.sendSize == x.sendSize && y.ackAddr == x.ackAddr && y.ackSize == x.ackSize
    && y.recvSize == x.recvSize && y.recvAddr == x.recvAddr && y.source == x.source && y.out == x.out && y.call == x.call
    && y.acknowledged == x.acknowledged
  }

  ghost predicate QuietPending(x: Proc, y: Proc) {
    || y.pending == Nothing
    || (y.state == Runnable && y.pending.Delivery? && y.pending.origin.FromChild? && |y.pending.bytes| <= BUFF_SIZE)
    || (y.pending == x.pending && y.state == x.state && y.recvSize == x.recvSize && y.recvAddr == x.recvAddr && y.source == x.source)
  }

  // No process enters, leaves or changes a channel state.
  ghost predicate QuietMove(s: Sys, t: Sys)
    requires Shaped(s) && Shaped(t)
  {
    forall p | 0 <= p < MAX_PROC ::
      && (Channel(s.procs[p].state) || Channel(t.procs[p].state) ==> SameChannel(s.procs[p], t.procs[p]))
      && QuietPending(s.procs[p], t.procs[p])
  }

  lemma QuietMoveKeeps(s: Sys, t: Sys)
    requires Shaped(s) && Channels(s) && Shaped(t) && QuietMove(s, t)
    ensures Channels(t)
  {
    SameRendezvous(s, t);
    forall q | 0 <= q < MAX_PROC ensures PendingOk(t, q) {
      assert PendingOk(s, q);
    }
  }

  lemma SameRendezvous(s: Sys, t: Sys)
    requires Shaped(s) && Rendezvous(s) && Shaped(t) && QuietMove(s, t)
    ensures Rendezvous(t)
  {
    forall w, l ensures WaitsFor(t, w, l) <==> WaitsFor(s, w, l) {
    }
    forall w, l | FirstWaiter(t, w, l) ensures FirstWaiter(s, w, l) {
      assert forall j | 0 <= j < w :: !WaitsFor(t, j, l);
    }
  }

  // ---------- fork, wait, exit ----------

  lemma FailChannels(s: Sys, p: int, no: int)
    requires Shaped(s) && Channels(s) && Pid(p)
    ensures Channels(Fail(s, p, no))
  {
    hide Channels;
    QuietMoveKeeps(s, Fail(s, p, no));
  }

  lemma SpawnQuiet(s: Sys, p: int, c: int, priority: int)
    requires Shaped(s) && Pid(p) && Pid(c) && p != c && 0 <= priority <= MAX_PRIO && s.procs[c].state == Free
    ensures QuietMove(s, ChangeState(Spawn(s, p, c, priority), c, Runnable))
  {
    hide ChangeState;
    var t := ChangeState(Spawn(s, p, c, priority), c, Runnable);
    assert t.procs[c] == NewProc(p, priority, s.procs[p].err).(state := Runnable);
    assert t.procs[p] == s.procs[p].(reg0 := c);
    assert forall x | 0 <= x < MAX_PROC && x != c && x != p :: t.procs[x] == s.procs[x];
  }

  lemma ForkChannels(s: Sys, priority: int)
    requires Shaped(s) && Channels(s) && priority >= 0 && s.procs[s.last].state == Runnable
    ensures Channels(ForkSys(s, priority))
  {
    hide FindFree;
    hide ChangeState;
    hide Channels;
    hide Spawn;
    hide Fail;
    hide QuietMove;
    var p := s.last;
    var c := FindFree(s, 2);
    if c == MAX_PROC {
      FailChannels(s, p, MAX_PROC_REACHED);
    } else if priority > s.procs[p].prio {
      FailChannels(s, p, TOO_HIGH_CHILD_PRIORITY);
    } else {
      SpawnQuiet(s, p, c, priority);
      QuietMoveKeeps(s, ChangeState(Spawn(s, p, c, priority), c, Runnable));
    }
  }

  lemma NothingPending(s: Sys, q: int)
    requires Shaped(s) && Deliveries(s) && Pid(q) && s.procs[q].state != Runnable
    ensures s.procs[q].pending == Nothing
  {
    assert PendingOk(s, q);
  }

  lemma ReapChannels(s: Sys, q: int, c: int)
    requires Shaped(s) && Channels(s) && Reapable(s, q, c)
    requires s.procs[c].pending == Nothing && !Channel(s.procs[c].state)
    ensures Channels(Reap(s, q, c))
  {
    hide ChangeState;
    hide Rendezvous;
    var b := Collect(s, q, c);
    if s.procs[q].state == Waiting {
      NothingPending(s, q);
    }
    var t := Reap(s, q, c);
    forall p | 0 <= p < MAX_PROC
      ensures Channel(s.procs[p].state) || Channel(t.procs[p].state) ==> SameChannel(s.procs[p], t.procs[p])
      ensures QuietPending(s.procs[p], t.procs[p])
    {
      assert p != q && p != c ==> t.procs[p] == s.procs[p];
      assert t.procs[q] == b.procs[q].(state := Runnable) && t.procs[c] == s.procs[c].(state := Free);
    }
    QuietMoveKeeps(s, t);
  }

  lemma WaitChannels(s: Sys, call: Call)
    requires Shaped(s) && Channels(s) && Family(s) && RingsOk(s) && Trapped(s, call)
    ensures Channels(WaitSys(s))
  {
    hide Channels;
    hide Family;
    hide ChangeState;
    var p := s.last;
    var ring := s.rings[p];
    if ring != [] && FirstZombie(s, ring) < |ring| {
      var c := ring[FirstZombie(s, ring)];
      ZombieQuiet(s, c);
      WaitReaps(s);
      ReapChannels(s, p, c);
    } else {
      QuietMoveKeeps(s, WaitSys(s));
    }
  }

  lemma ZombieQuiet(s: Sys, c: int)
    requires Shaped(s) && Channels(s) && Pid(c) && s.procs[c].state == Zombie
    ensures s.procs[c].pending == Nothing
  {
    NothingPending(s, c);
  }

  lemma ZombieChannels(t: Sys, p: int)
    requires Shaped(t) && Channels(t) && Pid(p) && t.procs[p].state == Runnable && t.procs[p].pending == Nothing
    ensures Channels(ChangeState(t, p, Zombie))
  {
    hide Channels;
    hide ChangeState;
    QuietMoveKeeps(t, ChangeState(t, p, Zombie));
  }

  lemma ExitChannels(s: Sys, no: int, data: int, call: Call)
    requires Shaped(s) && Channels(s) && Family(s) && RingsOk(s) && Trapped(s, call)
    ensures Channels(ExitSys(s, no, data))
  {
    hide Channels;
    hide ChangeState;
    hide Depart;
    hide Waiters;
    hide History;
    hide Reap;
    hide QuietMove;
    var p, e := s.last, Err(no, data);
    var t := Depart(s, e);
    DepartQuiet(s, e);
    QuietMoveKeeps(s, t);
    DepartIs(s, e);
    DepartedParent(s, t, p, e);
    hide Roles;
    hide Children;
    if s.procs[s.procs[p].parent].state == Waiting {
      ReapChannels(t, s.procs[p].parent, p);
    } else {
      ZombieChannels(t, p);
    }
  }

  lemma DepartQuiet(s: Sys, e: Err)
    requires Shaped(s) && RingsOk(s)
    ensures QuietMove(s, Depart(s, e)) && Depart(s, e).procs[s.last].pending == s.procs[s.last].pending
  {
    hide Reparent;
    var t := Depart(s, e);
    var a := s.procs[s.last := s.procs[s.last].(err := e)];
    forall x | 0 <= x < MAX_PROC
      ensures t.procs[x] == if x in s.rings[s.last] then a[x].(parent := INIT_PID, orphan := true) else a[x]
    {
    }
  }

  // ---------- send, receive, acknowledge ----------

  // Rendezvous for every listener but one.
  ghost predicate RendezvousBut(s: Sys, but: int)
    requires Shaped(s)
  {
    forall l, w | 0 <= l < MAX_PROC && l != but && s.procs[l].state == ListeningCh && FirstWaiter(s, w, l) ::
      s.procs[w].sendSize > s.procs[l].recvSize
  }

  // The sender is the caller, or the first process blocked on the receiver.
  ghost predicate CanMeet(s: Sys, sender: int, receiver: int)
    requires Shaped(s)
  {
    && Pid(sender) && Pid(receiver) && sender != receiver
    && s.procs[receiver].state == ListeningCh
    && BlockedSend(s.procs[sender]) && s.procs[sender].target == receiver && s.procs[sender].pending == Nothing
    && (s.procs[sender].state == Runnable || FirstWaiter(s, sender, receiver))
  }

  lemma ConnectedProcs(s: Sys, sender: int, receiver: int)
    requires Shaped(s) && Pid(sender) && Pid(receiver) && sender != receiver
    requires s.procs[receiver].recvSize >= s.procs[sender].sendSize
    ensures var t := Connect(s, sender, receiver);
      && t == s.(procs := t.procs, queues := t.queues)
      && t.procs[sender] == s.procs[sender].(acknowledged := false, state := SendingCh)
      && t.procs[receiver] == s.procs[receiver].(pending := Delivery(s.procs[receiver].recvAddr, s.procs[sender].out, FromSender(sender)),
                                                 source := sender, reg0 := sender, owes := true, state := Runnable)
      && (forall p | 0 <= p < MAX_PROC && p != sender && p != receiver :: t.procs[p] == s.procs[p])
  {
    hide ChangeState;
  }

  lemma RefusedProcs(s: Sys, sender: int, receiver: int)
    requires Shaped(s) && Pid(sender) && Pid(receiver) && s.procs[receiver].recvSize < s.procs[sender].sendSize
    ensures var t := Connect(s, sender, receiver);
      && t == s.(procs := t.procs) && t.procs[sender] == s.procs[sender].(err := Err(SEND_DATA_TOO_LARGE, s.procs[sender].err.data), reg0 := -1)
      && forall x | 0 <= x < MAX_PROC && x != sender :: t.procs[x] == s.procs[x]
  {
  }

  lemma ConnectRendezvous(s: Sys, sender: int, receiver: int)
    requires Shaped(s) && RendezvousBut(s, receiver) && CanMeet(s, sender, receiver)
    requires s.procs[receiver].recvSize >= s.procs[sender].sendSize
    ensures Rendezvous(Connect(s, sender, receiver))
  {
    hide Connect;
    var t := Connect(s, sender, receiver);
    ConnectedProcs(s, sender, receiver);
    forall w, l | l != receiver ensures WaitsFor(t, w, l) <==> WaitsFor(s, w, l) {
    }
    forall w, l | l != receiver && FirstWaiter(t, w, l) ensures FirstWaiter(s, w, l) {
      assert forall j | 0 <= j < w :: !WaitsFor(t, j, l);
    }
  }

  lemma ConnectDeliveries(s: Sys, sender: int, receiver: int)
    requires Shaped(s) && Deliveries(s) && CanMeet(s, sender, receiver)
    requires s.procs[receiver].recvSize >= s.procs[sender].sendSize
    ensures Deliveries(Connect(s, sender, receiver))
  {
    hide Connect;
    var t := Connect(s, sender, receiver);
    ConnectedProcs(s, sender, receiver);
    forall q | 0 <= q < MAX_PROC ensures PendingOk(t, q) {
      assert PendingOk(s, q);
    }
  }

  // A sender that is too large stays where it is.
  lemma ConnectTooLarge(s: Sys, sender: int, receiver: int)
    requires Shaped(s) && RendezvousBut(s, receiver) && Deliveries(s) && CanMeet(s, sender, receiver)
    requires s.procs[receiver].recvSize < s.procs[sender].sendSize
    requires s.procs[sender].state == Runnable ==> Rendezvous(s)
    ensures Channels(Connect(s, sender, receiver))
  {
    var t := Connect(s, sender, receiver);
    forall w, l ensures WaitsFor(t, w, l) <==> WaitsFor(s, w, l) {
    }
    forall w, l | FirstWaiter(t, w, l) ensures FirstWaiter(s, w, l) {
      assert forall j | 0 <= j < w :: !WaitsFor(t, j, l);
    }
    forall w | FirstWaiter(s, w, receiver) && s.procs[sender].state == WaitListener ensures w == sender {
      assert WaitsFor(s, w, receiver) && WaitsFor(s, sender, receiver);
    }
    forall q | 0 <= q < MAX_PROC ensures PendingOk(t, q) {
      assert PendingOk(s, q);
    }
  }

  lemma ConnectChannels(s: Sys, sender: int, receiver: int)
    requires Shaped(s) && RendezvousBut(s, receiver) && Deliveries(s) && CanMeet(s, sender, receiver)
    requires s.procs[sender].state == Runnable ==> Rendezvous(s)
    ensures Channels(Connect(s, sender, receiver))
  {
    hide Connect;
    hide Deliveries;
    hide Rendezvous;
    if s.procs[receiver].recvSize < s.procs[sender].sendSize {
      ConnectTooLarge(s, sender, receiver);
    } else {
      ConnectRendezvous(s, sender, receiver);
      ConnectDeliveries(s, sender, receiver);
    }
  }

  lemma BlockChannels(s: Sys, p: int)
    requires Shaped(s) && Channels(s) && Pid(p) && s.procs[p].state == Runnable && s.procs[p].pending == Nothing
    requires BlockedSend(s.procs[p]) && s.procs[s.procs[p].target].state != ListeningCh
    ensures Channels(ChangeState(s, p, WaitListener))
  {
    hide ChangeState;
    var t := ChangeState(s, p, WaitListener);
    forall w, l | l != s.procs[p].target ensures WaitsFor(t, w, l) <==> WaitsFor(s, w, l) {
    }
    forall w, l | l != s.procs[p].target && FirstWaiter(t, w, l) ensures FirstWaiter(s, w, l) {
      assert forall j | 0 <= j < w :: !WaitsFor(t, j, l);
    }
    forall q | 0 <= q < MAX_PROC ensures PendingOk(t, q) {
      assert PendingOk(s, q);
    }
  }

  lemma SendChannels(s: Sys, call: Call)
    requires Shaped(s) && Channels(s) && Trapped(s, call) && call.SendCall?
    ensures Channels(SendSys(s, call))
  {
    hide ChangeState;
    hide Connect;
    hide Rendezvous;
    hide Deliveries;
    var p := s.last;
    if !Pid(call.target) || (s.procs[call.target].state != ListeningCh && !call.wait) || call.size > BUFF_SIZE {
      QuietMoveKeeps(s, SendSys(s, call));
    } else {
      var a := Put(s, p, s.procs[p].(target := call.target, sendSize := call.size, ackAddr := call.ackAddr, ackSize := call.ackSize));
      QuietMoveKeeps(s, a);
      assert BlockedSend(a.procs[p]);
      if s.procs[call.target].state == ListeningCh {
        AllButOne(a, call.target);
        ConnectChannels(a, p, call.target);
      } else {
        BlockChannels(a, p);
      }
    }
  }

  lemma AllButOne(s: Sys, l: int)
    requires Shaped(s) && Rendezvous(s)
    ensures RendezvousBut(s, l)
  {
  }

  // a is s with p listening.
  ghost predicate Listens(s: Sys, a: Sys, p: int)
    requires Shaped(s) && Shaped(a) && Pid(p)
  {
    && s.procs[p].state == Runnable && s.procs[p].pending == Nothing
    && a.procs[p].state == ListeningCh && a.procs[p].pending == Nothing
    && forall x | 0 <= x < MAX_PROC && x != p :: a.procs[x] == s.procs[x]
  }

  lemma ListenRendezvous(s: Sys, a: Sys, p: int)
    requires Shaped(s) && Rendezvous(s) && Shaped(a) && Pid(p) && Listens(s, a, p)
    ensures RendezvousBut(a, p)
    ensures (forall j | 0 <= j < MAX_PROC :: !WaitsFor(a, j, p)) ==> Rendezvous(a)
  {
    forall w, l ensures WaitsFor(a, w, l) <==> WaitsFor(s, w, l) {
    }
    forall w, l | FirstWaiter(a, w, l) ensures FirstWaiter(s, w, l) {
      assert forall j | 0 <= j < w :: !WaitsFor(a, j, l);
    }
  }

  lemma ListenDeliveries(s: Sys, a: Sys, p: int)
    requires Shaped(s) && Deliveries(s) && Shaped(a) && Pid(p) && Listens(s, a, p)
    ensures Deliveries(a)
  {
    forall q | 0 <= q < MAX_PROC ensures PendingOk(a, q) {
      assert PendingOk(s, q);
    }
  }

  lemma ListenChannels(s: Sys, addr: nat, size: nat)
    requires Shaped(s) && Channels(s) && s.procs[s.last].state == Runnable && s.procs[s.last].pending == Nothing
    ensures var a := Listen(s, addr, size);
      RendezvousBut(a, s.last) && Deliveries(a) && (FindSender(a, s.last, 0) == MAX_PROC ==> Rendezvous(a))
  {
    hide Listen;
    hide FindSender;
    hide Rendezvous;
    hide RendezvousBut;
    hide Deliveries;
    var a := Listen(s, addr, size);
    ListenRendezvous(s, a, s.last);
    ListenDeliveries(s, a, s.last);
  }

  lemma ReceiveChannels(s: Sys, addr: nat, size: nat, call: Call)
    requires Shaped(s) && Channels(s) && Trapped(s, call)
    ensures Channels(ReceiveSys(s, addr, size))
  {
    hide Listen;
    hide Connect;
    hide FindSender;
    hide Rendezvous;
    hide Deliveries;
    var a := Listen(s, addr, size);
    ListenChannels(s, addr, size);
    var i := FindSender(a, s.last, 0);
    if i < MAX_PROC {
      FoundSender(a, s.last, i);
      ConnectChannels(a, i, s.last);
    }
  }

  lemma FoundSender(a: Sys, p: int, i: int)
    requires Shaped(a) && Deliveries(a) && Pid(p) && a.procs[p].state == ListeningCh && i == FindSender(a, p, 0) < MAX_PROC
    ensures CanMeet(a, i, p) && a.procs[i].state == WaitListener
  {
    hide FindSender;
    assert WaitsFor(a, i, p);
    NothingPending(a, i);
  }

  // The answer reaches the one process that p received from.
  lemma AnswerChannels(s: Sys, p: int, q: int)
    requires Shaped(s) && Channels(s) && Pid(p) && Pid(q) && p != q
    requires s.procs[p].state == Runnable && s.procs[p].pending == Nothing && |s.procs[p].out| <= BUFF_SIZE
    requires s.procs[q].state == SendingCh && s.procs[q].target == p
    ensures Channels(ChangeState(Answer(s, p, q), q, Runnable))
  {
    hide ChangeState;
    var b := Answer(s, p, q);
    var t := ChangeState(b, q, Runnable);
    assert forall x | 0 <= x < MAX_PROC && x != p && x != q :: t.procs[x] == s.procs[x];
    forall w, l ensures WaitsFor(t, w, l) <==> WaitsFor(s, w, l) {
    }
    forall w, l | FirstWaiter(t, w, l) ensures FirstWaiter(s, w, l) {
      assert forall j | 0 <= j < w :: !WaitsFor(t, j, l);
    }
    forall r | 0 <= r < MAX_PROC ensures PendingOk(t, r) {
      assert PendingOk(s, r);
    }
  }

  lemma AckChannels(s: Sys, call: Call)
    requires Shaped(s) && Channels(s) && Trapped(s, call) && call.AckCall? && !AckPanics(s, s.last, call)
    ensures Channels(AckSys(s, call))
  {
    hide ChangeState;
    hide Channels;
    hide Answer;
    hide Fail;
    var p := s.last;
    if call.size > BUFF_SIZE {
      FailChannels(s, p, SEND_DATA_TOO_LARGE);
    } else {
      var a := Put(s, p, s.procs[p].(returnCode := call.code));
      QuietMoveKeeps(s, a);
      hide QuietMove;
      var q := a.procs[p].source;
      if a.procs[q].acknowledged || a.procs[q].state != SendingCh {
        FailChannels(a, p, SOURCE_ALREADY_ACKNOWLEDGED);
      } else {
        AnswerChannels(a, p, q);
      }
    }
  }
}
