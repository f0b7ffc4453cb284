/**
 What each system call gives its caller and everybody else, case by case: the error returns
 and exactly when they happen, and the whole state after each outcome.
 */
module ProcOutcomes {
  import opened Bytes
  import opened ProcModel
  import opened ProcErrors
  import opened ProcInvariants
  import opened ProcQueues
  import opened ProcFamily
  import opened ProcChannels
  import opened ProcRuns
  import opened ProcTooLarge

  // ---------- parts of a state ----------

  ghost predicate SameHistory(s: Sys, t: Sys) {
    t.exits == s.exits && t.reaps == s.reaps && t.exitErr == s.exitErr && t.curr == s.curr && t.last == s.last
  }

  // All processes but a and b are as they were.
  ghost predicate OthersSame(s: Sys, t: Sys, a: int, b: int)
    requires Shaped(s) && Shaped(t)
  {
    forall x | 0 <= x < MAX_PROC && x != a && x != b :: t.procs[x] == s.procs[x]
  }

  // An error return of p: nothing but its errno and its return value changes.
  ghost predicate Refused(s: Sys, t: Sys, p: int, no: int)
    requires Shaped(s) && Shaped(t) && Pid(p)
  {
    && t.procs[p] == s.procs[p].(err := Err(no, s.procs[p].err.data), reg0 := -1) && OthersSame(s, t, p, p)
    && t.queues == s.queues && t.rings == s.rings && SameHistory(s, t)
  }

  // r is q without its element p.
  ghost predicate Leaves(q: seq<int>, r: seq<int>, p: int) {
    exists k | 0 <= k < |q| :: q[k] == p && r == q[..k] + q[k + 1..]
  }

  // p has left the queue of its priority.
  ghost predicate HasLeft(s: Sys, t: Sys, p: int)
    requires Shaped(s) && Shaped(t) && Pid(p)
  {
    var i := s.procs[p].prio;
    t.queues == s.queues[i := t.queues[i]] && Leaves(s.queues[i], t.queues[i], p)
  }

  // q has joined the queue of its priority in front.
  ghost predicate HasJoined(s: Sys, t: Sys, q: int)
    requires Shaped(s) && Shaped(t) && Pid(q)
  {
    var i := s.procs[q].prio;
    t.queues == s.queues[i := [q] + s.queues[i]]
  }

  // p leaves its queue and q joins its own in front.
  ghost predicate HaveSwapped(s: Sys, t: Sys, p: int, q: int)
    requires Shaped(s) && Shaped(t) && Pid(p) && Pid(q)
  {
    exists m :: Shaped(m) && m.procs == s.procs && HasLeft(s, m, p) && HasJoined(m, t, q)
  }

  lemma {:induction false} RemoveAt(q: seq<int>, p: int) returns (k: nat)
    requires p in q
    ensures k < |q| && q[k] == p && Remove(q, p) == q[..k] + q[k + 1..]
  {
    if q[0] == p {
      k := 0;
    } else {
      var i := RemoveAt(q[1..], p);
      k := i + 1;
      assert [q[0]] + q[1..][..i] == q[..k] && q[1..][i + 1..] == q[k + 1..];
    }
  }

  lemma RemoveLeaves(q: seq<int>, p: int)
    requires p in q
    ensures Leaves(q, Remove(q, p), p)
  {
    hide Remove;
    var k := RemoveAt(q, p);
  }

  lemma LeavingQueue(m: Sys, p: int, st: ProcState)
    requires Shaped(m) && Pid(p) && m.procs[p].state == Runnable && st != Runnable && p in m.queues[m.procs[p].prio]
    ensures HasLeft(m, ChangeState(m, p, st), p)
  {
    hide ChangeState;
    LeavesQueue(m, p, st);
    RemoveLeaves(m.queues[m.procs[p].prio], p);
    hide Remove;
  }

  lemma InItsQueue(s: Sys, p: int)
    requires Shaped(s) && Queues(s) && Pid(p) && s.procs[p].state == Runnable
    ensures p in s.queues[s.procs[p].prio]
  {
    assert Queued(s, s.procs[p].prio, p);
  }

  // ---------- the trap ----------

  // What back_up_buff_svc took from the caller.
  function Taken(addr: nat, bytes: seq<Byte>, size: nat): (b: seq<Byte>) {
    if addr != 0 && size > 0 then bytes else []
  }

  // A trap records its first argument, the errno and, of a send or an acknowledge, the bytes
  // at its data pointer; the kernel runs in place of the caller, and nothing else changes.
  lemma TrapCases(s: Sys, call: Call, e: Err)
    requires Shaped(s)
    ensures var p := s.curr; var t := Trap(s, call, e); var x := t.procs[p];
      && x == s.procs[p].(reg0 := x.reg0, err := e, out := x.out, call := call) && OthersSame(s, t, p, p)
      && t.last == p && t.curr == KERNEL_PID && t.queues == s.queues && t.rings == s.rings
      && t.exits == s.exits && t.reaps == s.reaps && t.exitErr == s.exitErr
      && match call
         case ForkCall(priority) => x.reg0 == priority && x.out == []
         case ExitCall(no, _) => x.reg0 == no && x.out == []
         case WaitCall(status) => x.reg0 == status && x.out == []
         case SendCall(target, addr, bytes, size, _, _, _) => x.reg0 == target && x.out == Taken(addr, bytes, size)
         case ReceiveCall(addr, _) => x.reg0 == addr && x.out == []
         case AckCall(code, addr, bytes, size) => x.reg0 == code && x.out == Taken(addr, bytes, size)
         case TestCall(x0) => x.reg0 == x0 && x.out == []
  {
  }

  // ---------- fork ----------

  ghost predicate NoSlot(s: Sys)
    requires Shaped(s)
  {
    forall c | 2 <= c < MAX_PROC :: s.procs[c].state != Free
  }

  ghost predicate LeastFree(s: Sys, c: int)
    requires Shaped(s)
  {
    2 <= c < MAX_PROC && s.procs[c].state == Free && forall j | 2 <= j < c :: s.procs[j].state != Free
  }

  // p has a new child c: p gets its pid, c gets 0.
  ghost predicate HasForked(s: Sys, t: Sys, p: int, c: int, priority: int)
    requires Shaped(s) && Shaped(t) && Pid(p) && 0 <= priority <= MAX_PRIO
  {
    && Pid(c) && c != p && t.procs[p] == s.procs[p].(reg0 := c) && OthersSame(s, t, p, c)
    && t.queues == s.queues[priority := [c] + s.queues[priority]]
    && t.rings == s.rings[p := [c] + s.rings[p]] && t.rings[c] == [] && SameHistory(s, t)
    && var x := t.procs[c];
       && x.state == Runnable && x.reg0 == 0 && x.parent == p && x.prio == priority && x.err == s.procs[p].err
       && x.initialized && !x.orphan && x.pending == Nothing && x.out == [] && x.acknowledged && !x.owes
  }

  // fork fails for want of a slot, and else for too high a priority; otherwise the child is in
  // the least free slot.
  lemma ForkCases(s: Sys, priority: int)
    requires Inv(s) && RingsOk(s) && Trapped(s, ForkCall(priority))
    ensures var p := s.last; var t := Serve(s, ForkCall(priority));
      && (t.procs[p].reg0 == -1 && t.procs[p].err.no == MAX_PROC_REACHED <==> NoSlot(s))
      && (t.procs[p].reg0 == -1 && t.procs[p].err.no == TOO_HIGH_CHILD_PRIORITY <==> !NoSlot(s) && priority > s.procs[p].prio)
      && (NoSlot(s) ==> Refused(s, t, p, MAX_PROC_REACHED))
      && (!NoSlot(s) && priority > s.procs[p].prio ==> Refused(s, t, p, TOO_HIGH_CHILD_PRIORITY))
      && (!NoSlot(s) && priority <= s.procs[p].prio ==> exists c :: LeastFree(s, c) && HasForked(s, t, p, c, priority))
  {
    hide Rendezvous;
    hide Deliveries;
    hide Waiters;
    hide History;
    hide Queues;
    hide FindFree;
    hide Spawn;
    hide ChangeState;
    var p, c := s.last, FindFree(s, 2);
    if c < MAX_PROC {
      assert LeastFree(s, c);
      if priority <= s.procs[p].prio {
        Forks(s, p, c, priority);
      }
    }
  }

  lemma Forks(s: Sys, p: int, c: int, priority: int)
    requires Shaped(s) && Children(s) && Pid(p) && s.procs[p].state == Runnable && LeastFree(s, c) && 0 <= priority <= MAX_PRIO
    ensures HasForked(s, ChangeState(Spawn(s, p, c, priority), c, Runnable), p, c, priority)
  {
    hide ChangeState;
    var a := Spawn(s, p, c, priority);
    assert a.procs[c] == NewProc(p, priority, s.procs[p].err) && a.queues == s.queues;
    assert s.rings[c] == [];
    hide Children;
    JoinsFront(a, c);
  }

  // ---------- send ----------

  // What the sender has recorded of its send.
  function Recorded(x: Proc, call: Call): (y: Proc)
    requires call.SendCall?
  {
    x.(target := call.target, sendSize := call.size, ackAddr := call.ackAddr, ackSize := call.ackSize)
  }

  // p waits for its target to listen.
  ghost predicate HasBlocked(s: Sys, t: Sys, p: int, call: Call)
    requires Shaped(s) && Shaped(t) && Pid(p) && call.SendCall?
  {
    && t.procs[p] == Recorded(s.procs[p], call).(state := WaitListener) && t.procs[p].out == Taken(call.addr, call.bytes, call.size)
    && OthersSame(s, t, p, p) && HasLeft(s, t, p) && t.rings == s.rings && SameHistory(s, t)
  }

  // p is refused by a listener without room, and can run.
  ghost predicate HasNoRoom(s: Sys, t: Sys, p: int, call: Call)
    requires Shaped(s) && Shaped(t) && Pid(p) && call.SendCall?
  {
    && t.procs[p] == Recorded(s.procs[p], call).(err := Err(SEND_DATA_TOO_LARGE, s.procs[p].err.data), reg0 := -1)
    && OthersSame(s, t, p, p) && t.queues == s.queues && t.rings == s.rings && SameHistory(s, t)
  }

  // p has met the listener l, which can run with p's bytes pending at the address it gave.
  ghost predicate HasMet(s: Sys, t: Sys, p: int, l: int, call: Call)
    requires Shaped(s) && Shaped(t) && Pid(p) && Pid(l) && call.SendCall?
  {
    && t.procs[p] == Recorded(s.procs[p], call).(state := SendingCh, acknowledged := false)
    && t.procs[l] == s.procs[l].(state := Runnable, reg0 := p, source := p, owes := true,
                                 pending := Delivery(s.procs[l].recvAddr, Taken(call.addr, call.bytes, call.size), FromSender(p)))
    && OthersSame(s, t, p, l) && t.rings == s.rings && SameHistory(s, t)
    && HaveSwapped(s, t, p, l)
  }

  // Which send fails and how, which blocks and which is received at once.
  lemma SendCases(s: Sys, call: Call)
    requires Inv(s) && RingsOk(s) && Trapped(s, call) && call.SendCall?
    ensures var p := s.last; var l := call.target; var x := Serve(s, call).procs[p];
      var accepted := Pid(l) && (s.procs[l].state == ListeningCh || call.wait) && call.size <= 1024;
      && (x.state == WaitListener <==> accepted && s.procs[l].state != ListeningCh)
      && (x.state == SendingCh <==> accepted && s.procs[l].state == ListeningCh && call.size <= s.procs[l].recvSize)
      && (x.state == Runnable && x.reg0 == -1 <==> !accepted || (s.procs[l].state == ListeningCh && call.size > s.procs[l].recvSize))
    ensures var p := s.last; var l := call.target; var t := Serve(s, call);
      if !Pid(l) then Refused(s, t, p, INVALID_PID)
      else if s.procs[l].state != ListeningCh && !call.wait then Refused(s, t, p, TARGET_NOT_LISTENING)
      else if call.size > 1024 then Refused(s, t, p, SEND_DATA_TOO_LARGE)
      else if s.procs[l].state != ListeningCh then HasBlocked(s, t, p, call)
      else if call.size > s.procs[l].recvSize then HasNoRoom(s, t, p, call)
      else HasMet(s, t, p, l, call)
  {
    hide Roles;
    hide Rendezvous;
    hide Deliveries;
    hide Waiters;
    hide History;
    hide Children;
    hide Connect;
    hide ChangeState;
    var p, l := s.last, call.target;
    InItsQueue(s, p);
    hide Queues;
    if Pid(l) && (s.procs[l].state == ListeningCh || call.wait) && call.size <= BUFF_SIZE {
      var a := Put(s, p, Recorded(s.procs[p], call));
      if s.procs[l].state != ListeningCh {
        LeavingQueue(a, p, WaitListener);
      } else if call.size > s.procs[l].recvSize {
        RefusedProcs(a, p, l);
        assert Connect(a, p, l).queues == a.queues;
      } else {
        Meets(s, a, p, l, call);
      }
    }
  }

  lemma Meets(s: Sys, a: Sys, p: int, l: int, call: Call)
    requires Shaped(s) && Pid(p) && Pid(l) && p != l && call.SendCall? && s.procs[p].out == Taken(call.addr, call.bytes, call.size)
    requires s.procs[p].state == Runnable && s.procs[l].state == ListeningCh && p in s.queues[s.procs[p].prio]
    requires call.size <= s.procs[l].recvSize && a == Put(s, p, Recorded(s.procs[p], call))
    ensures HasMet(s, Connect(a, p, l), p, l, call)
  {
    hide ChangeState;
    var b := Meet(a, p, l);
    var c := ChangeState(b, p, SendingCh);
    LeavingQueue(b, p, SendingCh);
    JoinsFront(c, l);
    var m := s.(queues := c.queues);
    assert HasLeft(s, m, p);
    ConnectedProcs(a, p, l);
    assert Connect(a, p, l) == ChangeState(c, l, Runnable);
    hide Connect;
    hide Meet;
    assert HasJoined(m, ChangeState(c, l, Runnable), l);
  }

  // ---------- wait ----------

  // c is the first zombie of p's ring, at position k.
  ghost predicate FirstZombieAt(s: Sys, p: int, k: int)
    requires Shaped(s) && RingsOk(s) && Pid(p)
  {
    0 <= k < |s.rings[p]| && s.procs[s.rings[p][k]].state == Zombie && forall i | 0 <= i < k :: s.procs[s.rings[p][i]].state != Zombie
  }

  lemma FirstZombieIs(s: Sys, p: int)
    requires Shaped(s) && RingsOk(s) && Pid(p)
    ensures var k := FirstZombie(s, s.rings[p]); forall i :: FirstZombieAt(s, p, i) <==> i == k < |s.rings[p]|
  {
    hide FirstZombie;
    var k := FirstZombie(s, s.rings[p]);
    forall i ensures FirstZombieAt(s, p, i) <==> i == k < |s.rings[p]| {
    }
  }

  // p goes on with the pid of c and, at the address it gave, the error of c; c's slot is free.
  ghost predicate HasReaped(s: Sys, t: Sys, p: int, c: int, status: int)
    requires Shaped(s) && Shaped(t) && Pid(p) && Pid(c)
  {
    && t.procs[p] == s.procs[p].(reg0 := c, pending := t.procs[p].pending)
    && (if status != 0 then ErrorPending(t.procs[p].pending, status, s.exitErr[c], c) else t.procs[p].pending == Nothing)
    && t.procs[c] == s.procs[c].(state := Free) && OthersSame(s, t, p, c) && t.queues == s.queues
    && t.rings == s.rings[p := t.rings[p]] && Leaves(s.rings[p], t.rings[p], c)
    && SameHistory(s, t.(reaps := s.reaps)) && t.reaps == s.reaps[c := s.reaps[c] + 1]
  }

  // p waits for a child to exit.
  ghost predicate IsWaiting(s: Sys, t: Sys, p: int)
    requires Shaped(s) && Shaped(t) && Pid(p)
  {
    && t.procs[p] == s.procs[p].(state := Waiting) && OthersSame(s, t, p, p)
    && HasLeft(s, t, p) && t.rings == s.rings && SameHistory(s, t)
  }

  lemma WaitCases(s: Sys, status: nat)
    requires Inv(s) && RingsOk(s) && Trapped(s, WaitCall(status))
    ensures var p := s.last; var t := Serve(s, WaitCall(status));
      && (t.procs[p].reg0 == -1 && t.procs[p].err.no == NO_CHILD && t.procs[p].state == Runnable <==> s.rings[p] == [])
      && (s.rings[p] == [] ==> Refused(s, t, p, NO_CHILD))
      && (forall k :: FirstZombieAt(s, p, k) ==> HasReaped(s, t, p, s.rings[p][k], status))
      && (s.rings[p] != [] && (forall k :: !FirstZombieAt(s, p, k)) ==> IsWaiting(s, t, p))
  {
    hide Rendezvous;
    hide Deliveries;
    hide Waiters;
    hide ChangeState;
    hide Reap;
    hide HasReaped;
    var p := s.last;
    InItsQueue(s, p);
    hide Queues;
    FirstZombieIs(s, p);
    hide FirstZombieAt;
    var k := FirstZombie(s, s.rings[p]);
    if k < |s.rings[p]| {
      var c := s.rings[p][k];
      assert c in s.rings[p];
      assert IsChild(s, p, c);
      hide Children;
      Reaps(s, p, c, status);
      assert FirstZombieAt(s, p, k);
    } else if s.rings[p] != [] {
      hide Children;
      LeavingQueue(s, p, Waiting);
    }
  }

  lemma Reaps(s: Sys, p: int, c: int, status: int)
    requires Shaped(s) && Pid(p) && Pid(c) && p != c && c in s.rings[p] && History(s)
    requires s.procs[p].state == Runnable && s.procs[p].pending == Nothing && s.procs[p].reg0 == status && s.procs[c].state == Zombie
    ensures HasReaped(s, Reap(s, p, c), p, c, status) && Reap(s, p, c).procs[p].reg0 == c
  {
    hide ErrBytes;
    hide ReadsAs;
    hide Remove;
    hide Leaves;
    hide ChangeState;
    ErrorIsHeld(s.procs[c].err);
    RemoveLeaves(s.rings[p], c);
    ReapRest(s, p, c);
    ReapsQueues(s, p, c);
  }

  // Neither side of a reaping enters or leaves a queue when the parent can run.
  lemma ReapsQueues(s: Sys, p: int, c: int)
    requires Shaped(s) && Pid(p) && Pid(c) && p != c && s.procs[p].state == Runnable && s.procs[c].state == Zombie
    ensures Reap(s, p, c).queues == s.queues
  {
    hide ErrBytes;
    hide Remove;
  }

  // ---------- exit ----------

  // A child of p whose parent has now exited.
  function Orphaned(s: Sys, p: int, x: int): (y: Proc)
    requires Shaped(s) && Pid(p) && Pid(x)
  {
    if x in s.rings[p] then s.procs[x].(parent := INIT_PID, orphan := true) else s.procs[x]
  }

  // Everybody but p and q is as before, or orphaned by p's exit.
  ghost predicate OthersOrphaned(s: Sys, t: Sys, p: int, q: int)
    requires Shaped(s) && Shaped(t) && Pid(p)
  {
    forall x | 0 <= x < MAX_PROC && x != p && x != q :: t.procs[x] == Orphaned(s, p, x)
  }

  // The exit of p with error e is on record.
  ghost predicate Exited(s: Sys, t: Sys, p: int, e: Err)
    requires Shaped(s) && Pid(p)
  {
    t.exits == s.exits[p := s.exits[p] + 1] && t.exitErr == s.exitErr[p := e] && t.curr == s.curr && t.last == s.last
  }

  // p has become a zombie.
  ghost predicate HasDied(s: Sys, t: Sys, p: int, e: Err)
    requires Shaped(s) && Shaped(t) && Pid(p)
  {
    && t.procs[p] == s.procs[p].(state := Zombie, err := e) && OthersOrphaned(s, t, p, p)
    && HasLeft(s, t, p) && t.rings == s.rings[p := []] && Exited(s, t, p, e) && t.reaps == s.reaps
  }

  // p has exited into the hands of its waiting parent q, which goes on with the pid of p and,
  // at the address it gave, the error of p.
  ghost predicate HandedProcs(s: Sys, t: Sys, p: int, q: int, e: Err)
    requires Shaped(s) && Shaped(t) && Pid(p) && Pid(q)
  {
    && t.procs[p] == s.procs[p].(state := Free, err := e) && OthersOrphaned(s, t, p, q)
    && t.procs[q] == Orphaned(s, p, q).(state := Runnable, reg0 := p, pending := t.procs[q].pending)
    && (if s.procs[q].reg0 != 0 then ErrorPending(t.procs[q].pending, s.procs[q].reg0, e, p) else t.procs[q].pending == s.procs[q].pending)
  }

  // The ring of q without p; an orphan was not in it.
  ghost predicate RingAfter(s: Sys, p: int, q: int, r: seq<int>)
    requires Shaped(s) && Pid(p) && Pid(q)
  {
    if s.procs[p].orphan then r == s.rings[q] else Leaves(s.rings[q], r, p)
  }

  // p is in its parent's ring no longer, and the exit is reaped.
  ghost predicate HandedRings(s: Sys, t: Sys, p: int, q: int, e: Err)
    requires Shaped(s) && Shaped(t) && Pid(p) && Pid(q)
  {
    && t.rings == s.rings[p := []][q := t.rings[q]]
    && RingAfter(s, p, q, t.rings[q])
    && Exited(s, t, p, e) && t.reaps == s.reaps[p := s.reaps[p] + 1]
  }

  // exit hands over to a waiting parent, and otherwise leaves a zombie.
  lemma ExitCases(s: Sys, no: int, data: int)
    requires Inv(s) && RingsOk(s) && Trapped(s, ExitCall(no, data))
    ensures var p := s.last; var q := s.procs[p].parent; var e := Err(no, data); var t := Serve(s, ExitCall(no, data));
      if s.procs[q].state == Waiting then HandedProcs(s, t, p, q, e) && HaveSwapped(s, t, p, q) && HandedRings(s, t, p, q, e)
      else HasDied(s, t, p, e)
  {
    hide Rendezvous;
    hide Deliveries;
    hide Waiters;
    hide History;
    hide ChangeState;
    hide Reap;
    hide Depart;
    hide HandedProcs;
    hide HandedRings;
    hide HaveSwapped;
    var p, q, e := s.last, s.procs[s.last].parent, Err(no, data);
    InItsQueue(s, p);
    hide Queues;
    ParentOf(s, p, q);
    hide Children;
    hide Roles;
    Departs(s, p, e);
    var b := Depart(s, e);
    if s.procs[q].state == Waiting {
      HandsProcs(s, b, p, q, e);
      HandsQueues(s, b, p, q, e);
      HandsRings(s, b, p, q, e, Remove(s.rings[q], p));
    } else {
      LeavingQueue(b, p, Zombie);
    }
  }

  lemma ParentOf(s: Sys, p: int, q: int)
    requires Shaped(s) && Roles(s) && Children(s) && 0 < p < MAX_PROC && q == s.procs[p].parent && s.procs[p].state == Runnable
    ensures p !in s.rings[p]
    ensures s.procs[q].state == Waiting ==> p != q
    ensures s.procs[q].state == Waiting ==> RingAfter(s, p, q, Remove(s.rings[q], p))
  {
    assert p in s.rings[p] <==> IsChild(s, p, p);
    assert p in s.rings[q] <==> IsChild(s, q, p);
    RemoveKeeps(s.rings[q], p);
    if p in s.rings[q] {
      RemoveLeaves(s.rings[q], p);
    }
    hide Leaves;
  }

  // The state between the reparenting and the hand-over.
  ghost predicate HasDeparted(s: Sys, b: Sys, p: int, e: Err)
    requires Shaped(s) && Shaped(b) && Pid(p)
  {
    && b.procs[p] == s.procs[p].(err := e) && OthersOrphaned(s, b, p, p)
    && b.queues == s.queues && b.rings == s.rings[p := []] && Exited(s, b, p, e) && b.reaps == s.reaps
  }

  lemma Departs(s: Sys, p: int, e: Err)
    requires Shaped(s) && RingsOk(s) && p == s.last && p !in s.rings[p]
    ensures HasDeparted(s, Depart(s, e), p, e)
  {
    hide Reparent;
  }

  lemma HandsProcs(s: Sys, b: Sys, p: int, q: int, e: Err)
    requires Shaped(s) && Shaped(b) && Pid(p) && Pid(q) && p != q && HasDeparted(s, b, p, e)
    ensures HandedProcs(s, Reap(b, q, p), p, q, e)
  {
    hide ErrBytes;
    hide ReadsAs;
    hide ChangeState;
    hide Remove;
    ErrorIsHeld(e);
    var t := Reap(b, q, p);
    assert b.procs[q] == Orphaned(s, p, q);
  }

  lemma HandsQueues(s: Sys, b: Sys, p: int, q: int, e: Err)
    requires Shaped(s) && Shaped(b) && Pid(p) && Pid(q) && p != q && HasDeparted(s, b, p, e)
    requires s.procs[p].state == Runnable && s.procs[q].state == Waiting && p in s.queues[s.procs[p].prio]
    ensures HaveSwapped(s, Reap(b, q, p), p, q)
  {
    hide ErrBytes;
    hide ChangeState;
    hide Remove;
    assert b.procs[q] == Orphaned(s, p, q);
    var c := Collect(b, q, p);
    assert c.procs[p] == b.procs[p] && c.procs[q].state == Waiting && c.procs[q].prio == s.procs[q].prio && c.queues == s.queues;
    hide Collect;
    var d := ChangeState(c, p, Free);
    LeavingQueue(c, p, Free);
    JoinsFront(d, q);
    var m := s.(queues := d.queues);
    assert HasLeft(s, m, p);
    assert HasJoined(m, ChangeState(d, q, Runnable), q);
  }

  lemma HandsRings(s: Sys, b: Sys, p: int, q: int, e: Err, r: seq<int>)
    requires Shaped(s) && Shaped(b) && Pid(p) && Pid(q) && p != q && HasDeparted(s, b, p, e)
    requires r == Remove(s.rings[q], p) && RingAfter(s, p, q, r)
    ensures HandedRings(s, Reap(b, q, p), p, q, e)
  {
    hide *;
    DepartedRest(s, b, p, q, e);
    ReapRest(b, q, p);
    StillExited(s, b, Reap(b, q, p), p, e);
    RingsHanded(s, b, Reap(b, q, p), p, q, e, r);
  }

  lemma DepartedRest(s: Sys, b: Sys, p: int, q: int, e: Err)
    requires Shaped(s) && Shaped(b) && Pid(p) && Pid(q) && p != q && HasDeparted(s, b, p, e)
    ensures b.rings == s.rings[p := []] && b.rings[q] == s.rings[q] && b.reaps == s.reaps && Exited(s, b, p, e)
  {
    hide OthersOrphaned;
  }

  lemma StillExited(s: Sys, b: Sys, t: Sys, p: int, e: Err)
    requires Shaped(s) && Pid(p) && Exited(s, b, p, e)
    requires t.exits == b.exits && t.exitErr == b.exitErr && t.curr == b.curr && t.last == b.last
    ensures Exited(s, t, p, e)
  {
  }

  lemma RingsHanded(s: Sys, b: Sys, t: Sys, p: int, q: int, e: Err, r: seq<int>)
    requires Shaped(s) && Shaped(b) && Shaped(t) && Pid(p) && Pid(q) && p != q
    requires b.rings == s.rings[p := []] && t.rings == b.rings[q := r] && t.reaps == s.reaps[p := s.reaps[p] + 1] && Exited(s, t, p, e)
    requires RingAfter(s, p, q, r)
    ensures HandedRings(s, t, p, q, e)
  {
    hide RingAfter;
    hide Exited;
  }

  lemma ReapRest(b: Sys, q: int, p: int)
    requires Shaped(b) && Pid(p) && Pid(q)
    ensures var t := Reap(b, q, p);
      && t.rings == b.rings[q := Remove(b.rings[q], p)] && t.reaps == b.reaps[p := b.reaps[p] + 1]
      && t.exits == b.exits && t.exitErr == b.exitErr && t.curr == b.curr && t.last == b.last
  {
    var c := Collect(b, q, p);
    CollectRest(b, q, p);
    assert Reap(b, q, p) == ChangeState(ChangeState(c, p, Free), q, Runnable);
    hide *;
    MoveRest(c, p, Free);
    MoveRest(ChangeState(c, p, Free), q, Runnable);
  }

  lemma CollectRest(b: Sys, q: int, p: int)
    requires Shaped(b) && Pid(p) && Pid(q)
    ensures var c := Collect(b, q, p);
      Shaped(c) && c == b.(procs := c.procs, rings := b.rings[q := Remove(b.rings[q], p)], reaps := b.reaps[p := b.reaps[p] + 1])
  {
    hide ErrBytes;
    hide Remove;
    hide Shaped;
  }

  lemma MoveRest(c: Sys, p: int, st: ProcState)
    requires Shaped(c) && Pid(p)
    ensures var t := ChangeState(c, p, st);
      && Shaped(t) && t.rings == c.rings && t.reaps == c.reaps
      && t.exits == c.exits && t.exitErr == c.exitErr && t.curr == c.curr && t.last == c.last
  {
    hide ChangeState;
  }

  // ---------- receive ----------

  // p listens at addr for messages up to size.
  function Listening(x: Proc, addr: nat, size: nat): (y: Proc) {
    x.(state := ListeningCh, recvAddr := addr, recvSize := size)
  }

  ghost predicate IsListening(s: Sys, t: Sys, p: int, addr: nat, size: nat)
    requires Shaped(s) && Shaped(t) && Pid(p)
  {
    t.procs[p] == Listening(s.procs[p], addr, size) && HasLeft(s, t, p) && t.rings == s.rings && SameHistory(s, t)
  }

  // p has met the sender w, whose bytes are pending for it at addr, and is first in its queue.
  ghost predicate HasReceived(s: Sys, t: Sys, p: int, w: int, addr: nat, size: nat)
    requires Shaped(s) && Shaped(t) && Pid(p) && Pid(w)
  {
    && s.procs[w].call.SendCall? && s.procs[w].call.target == p
    && t.procs[w] == s.procs[w].(state := SendingCh, acknowledged := false)
    && t.procs[p] == Listening(s.procs[p], addr, size).(state := Runnable, reg0 := w, source := w, owes := true, pending := t.procs[p].pending)
    && var sent := s.procs[w].call;
       && t.procs[p].pending == Delivery(addr, Taken(sent.addr, sent.bytes, sent.size), FromSender(w))
       && OthersSame(s, t, p, w) && HaveSwapped(s, t, p, p) && t.rings == s.rings && SameHistory(s, t)
  }

  // What a receive does, by the first sender that waits for its caller.
  lemma ReceiveCases(s: Sys, addr: nat, size: nat)
    requires Inv(s) && RingsOk(s) && Trapped(s, ReceiveCall(addr, size))
    ensures var p := s.last; var t := Serve(s, ReceiveCall(addr, size));
      && ((forall w :: !FirstWaiter(s, w, p)) ==> IsListening(s, t, p, addr, size) && OthersSame(s, t, p, p))
      && (forall w :: FirstWaiter(s, w, p) ==>
            if s.procs[w].sendSize > size then
              && IsListening(s, t, p, addr, size) && OthersSame(s, t, p, w)
              && t.procs[w] == s.procs[w].(err := Err(SEND_DATA_TOO_LARGE, s.procs[w].err.data), reg0 := -1)
            else HasReceived(s, t, p, w, addr, size))
  {
    hide Roles;
    hide Rendezvous;
    hide Waiters;
    hide History;
    hide Children;
    hide ReceiveSys;
    hide Listen;
    var p := s.last;
    InItsQueue(s, p);
    hide Queues;
    var a := Listen(s, addr, size);
    Listens(s, addr, size);
    if w :| FirstWaiter(s, w, p) {
      ReceiveIs(s, addr, size, w);
      forall v | FirstWaiter(s, v, p) ensures v == w {
        assert WaitsFor(s, v, p) && WaitsFor(s, w, p);
      }
      assert BlockedSend(s.procs[w]);
      hide Deliveries;
      if s.procs[w].sendSize > size {
        RefusedProcs(a, w, p);
        hide Connect;
      } else {
        Receives(s, a, p, w, addr, size);
        hide Connect;
      }
    } else {
      ReceiveIsListen(s, addr, size);
    }
  }

  lemma Listens(s: Sys, addr: nat, size: nat)
    requires Shaped(s) && s.procs[s.last].state == Runnable && s.last in s.queues[s.procs[s.last].prio]
    ensures var a := Listen(s, addr, size); IsListening(s, a, s.last, addr, size) && OthersSame(s, a, s.last, s.last)
  {
    hide ChangeState;
    var b := Put(s, s.last, s.procs[s.last].(recvAddr := addr, recvSize := size));
    LeavingQueue(b, s.last, ListeningCh);
  }

  lemma ReceiveIsListen(s: Sys, addr: nat, size: nat)
    requires Shaped(s) && s.procs[s.last].state == Runnable && forall w :: !FirstWaiter(s, w, s.last)
    ensures ReceiveSys(s, addr, size) == Listen(s, addr, size)
  {
    hide Listen;
    hide FindSender;
    hide Connect;
    var a := Listen(s, addr, size);
    ListenKeepsWaiters(s, addr, size);
    var i := FindSender(a, s.last, 0);
    assert FirstWaiter(a, i, s.last) <==> i < MAX_PROC;
  }

  lemma Receives(s: Sys, a: Sys, p: int, w: int, addr: nat, size: nat)
    requires Shaped(s) && Shaped(a) && Pid(p) && WaitsFor(s, w, p) && BlockedSend(s.procs[w]) && s.procs[p].state == Runnable
    requires IsListening(s, a, p, addr, size) && OthersSame(s, a, p, p) && s.procs[w].sendSize <= size
    ensures HasReceived(s, Connect(a, w, p), p, w, addr, size)
  {
    hide ChangeState;
    var b := Meet(a, w, p);
    var c := ChangeState(b, w, SendingCh);
    WaiterIsNotQueued(b, w);
    JoinsFront(c, p);
    var m := s.(queues := a.queues);
    assert HasLeft(s, m, p);
    ConnectedProcs(a, w, p);
    assert Connect(a, w, p) == ChangeState(c, p, Runnable);
    hide Connect;
    hide Meet;
    hide HasLeft;
    assert HasJoined(m, ChangeState(c, p, Runnable), p);
  }

  lemma WaiterIsNotQueued(b: Sys, w: int)
    requires Shaped(b) && Pid(w) && b.procs[w].state == WaitListener
    ensures ChangeState(b, w, SendingCh).queues == b.queues
  {
  }

  // ---------- acknowledge ----------

  // p is told that there is nothing to acknowledge.
  ghost predicate NothingToAcknowledge(s: Sys, t: Sys, p: int, call: Call)
    requires Shaped(s) && Shaped(t) && Pid(p) && call.AckCall?
  {
    && t.procs[p] == s.procs[p].(returnCode := call.code, err := Err(SOURCE_ALREADY_ACKNOWLEDGED, s.procs[p].err.data), reg0 := -1)
    && OthersSame(s, t, p, p) && t.queues == s.queues && t.rings == s.rings && SameHistory(s, t)
  }

  // q can run with p's code and, at the address it gave, as much of p's bytes as it asked for.
  ghost predicate HasAnswered(s: Sys, t: Sys, p: int, q: int, call: Call)
    requires Shaped(s) && Shaped(t) && Pid(p) && Pid(q) && call.AckCall?
  {
    && t.procs[p] == s.procs[p].(returnCode := call.code, reg0 := 0, owes := false)
    && t.procs[q] == s.procs[q].(state := Runnable, reg0 := call.code, pending := t.procs[q].pending)
    && OthersSame(s, t, p, q) && HasJoined(s, t, q) && t.rings == s.rings && SameHistory(s, t)
    && var given := Taken(call.addr, call.bytes, call.size);
       t.procs[q].pending == Delivery(s.procs[q].ackAddr, given[..Min(s.procs[q].ackSize, |given|)], FromServer(p))
  }

  // What an acknowledge does, unless it trips the assertion about its source.
  lemma AckCases(s: Sys, call: Call)
    requires Inv(s) && RingsOk(s) && Trapped(s, call) && call.AckCall? && !AckPanics(s, s.last, call)
    ensures var p := s.last; var q := s.procs[p].source; var t := Serve(s, call);
      if call.size > 1024 then Refused(s, t, p, SEND_DATA_TOO_LARGE)
      else if s.procs[q].state != SendingCh then NothingToAcknowledge(s, t, p, call)
      else s.procs[q].target == p && HasAnswered(s, t, p, q, call)
  {
    hide Roles;
    hide Queues;
    hide Rendezvous;
    hide Waiters;
    hide History;
    hide Children;
    hide ChangeState;
    hide HasAnswered;
    var p, q := s.last, s.procs[s.last].source;
    assert s.procs[q].state == SendingCh ==> !s.procs[q].acknowledged;
    hide Deliveries;
    hide Answer;
    if call.size <= BUFF_SIZE && s.procs[q].state == SendingCh {
      AnswersTo(s, p, q, call);
    }
  }

  lemma AnswersTo(s: Sys, p: int, q: int, call: Call)
    requires Shaped(s) && Pid(p) && Pid(q) && p != q && call.AckCall? && s.procs[q].state == SendingCh
    requires s.procs[p].out == Taken(call.addr, call.bytes, call.size)
    ensures var a := Put(s, p, s.procs[p].(returnCode := call.code));
      HasAnswered(s, ChangeState(Answer(a, p, q), q, Runnable), p, q, call)
  {
    hide ChangeState;
    var a := Put(s, p, s.procs[p].(returnCode := call.code));
    JoinsFront(Answer(a, p, q), q);
  }
}
