/**
 sys_state: descriptors with fixed buffers and link fields, changed in place by every
 system call, each proved to do what the process-table model does.
 */
module KernelTable {
  import opened Bytes
  import opened Sampling
  import opened Ring
  import opened ProcModel
  import opened ProcInvariants
  import opened ProcQueues
  import opened ProcFamily
  import opened ProcChannels
  import opened ProcRuns
  import opened KernelRings

  // proc_descriptor without its link fields.
  datatype Desc = Desc(
    parent: int, prio: int, state: ProcState, initialized: bool, reg0: int, err: Err,
    buff: seq<Byte>, used: nat, writeAddr: int,
    target: int, sendSize: nat, ackAddr: nat, ackSize: nat, acknowledged: bool,
    source: int, recvSize: nat, recvAddr: nat, returnCode: int)

  ghost predicate SameFields(d: Desc, x: Proc) {
    && d.parent == x.parent && d.prio == x.prio && d.state == x.state && d.initialized == x.initialized
    && d.reg0 == x.reg0 && d.err == x.err
    && d.target == x.target && d.sendSize == x.sendSize && d.ackAddr == x.ackAddr && d.ackSize == x.ackSize
    && d.acknowledged == x.acknowledged && d.source == x.source && d.recvSize == x.recvSize && d.recvAddr == x.recvAddr
    && d.returnCode == x.returnCode
  }

  // The buffer holds the message that the model has in flight.
  ghost predicate Buffered(d: Desc, x: Proc) {
    && |d.buff| == BUFF_SIZE
    && (x.pending == Nothing ==> d.writeAddr == 0)
    && (x.pending.Delivery? ==>
          d.writeAddr == x.pending.addr && d.used == |x.pending.bytes| <= BUFF_SIZE && d.buff[..d.used] == x.pending.bytes)
    && (x.state == WaitListener ==> d.used == |x.out| <= BUFF_SIZE && d.buff[..d.used] == x.out)
  }

  ghost predicate Holds(d: Desc, x: Proc) {
    SameFields(d, x) && Buffered(d, x)
  }

  ghost predicate AllHold(ds: seq<Desc>, xs: seq<Proc>) {
    |ds| == MAX_PROC && |xs| == MAX_PROC && forall p | 0 <= p < MAX_PROC :: Holds(ds[p], xs[p])
  }

  lemma PutHolds(ds: seq<Desc>, xs: seq<Proc>, p: int, d: Desc, x: Proc)
    requires AllHold(ds, xs) && Pid(p) && Holds(d, x)
    ensures AllHold(ds[p := d], xs[p := x])
  {
    hide Holds;
  }

  // memmove of n bytes to the start of a buffer.
  function Overwrite(buff: seq<Byte>, bytes: seq<Byte>, n: nat): (r: seq<Byte>)
    requires n <= |bytes| && n <= |buff|
    ensures |r| == |buff| && r[..n] == bytes[..n]
  {
    bytes[..n] + buff[n..]
  }

  function BlankDesc(): Desc {
    Desc(0, 0, Free, false, 0, Err(0, 0), seq(BUFF_SIZE, i => 0), 0, 0, 0, 0, 0, 0, false, 0, 0, 0, 0)
  }

  function BlankQueues(): QueueLinks {
    QueueLinks(seq(MAX_PROC, p => NULL), seq(MAX_PROC, p => NULL), seq(MAX_PRIO + 1, p => NULL), seq(MAX_PRIO + 1, p => 0), 0)
  }

  ghost function Blank(): (s: Sys)
    ensures Shaped(s)
  {
    Sys(seq(MAX_PROC, p => BlankProc()), seq(MAX_PRIO + 1, p => []), seq(MAX_PROC, p => []), KERNEL_PID, KERNEL_PID,
        seq(MAX_PROC, p => 0), seq(MAX_PROC, p => 0), seq(MAX_PROC, p => Err(0, 0)))
  }

  lemma BlankLinked(m: Sys, k: QueueLinks, b: SiblingLinks, heads: set<int>)
    requires m == Blank() && k == BlankQueues()
    requires |b.next| == MAX_PROC && |b.prev| == MAX_PROC && |b.child| == MAX_PROC
    requires forall q | 0 <= q < MAX_PROC :: b.child[q] == NULL
    requires forall q | q in heads :: 0 <= q < MAX_PROC
    ensures Queues(m) && QueuesLinked(m, k) && SiblingsLinked(m.rings, heads, {}, b)
  {
    SumOfZeros(k.count, |k.count|);
    assert k.count[..|k.count|] == k.count;
  }

  lemma CurrKeepsLinks(m: Sys, k: QueueLinks, c: int)
    requires Shaped(m) && QueuesLinked(m, k) && Pid(c)
    ensures Shaped(m.(curr := c)) && QueuesLinked(m.(curr := c), k)
  {}

  // What new_proc_descriptor makes for init, and that with initialized set.
  function InitDesc(): Desc {
    BlankDesc().(parent := INIT_PID, prio := MAX_PRIO, acknowledged := true)
  }

  function InitProcess(): Proc {
    NewProc(INIT_PID, MAX_PRIO, Err(0, 0)).(initialized := false)
  }

  lemma BlankIsHeld()
    ensures Holds(BlankDesc(), BlankProc()) && Holds(InitDesc(), InitProcess())
    ensures Holds(InitDesc().(state := Runnable, initialized := true), InitProcess().(state := Runnable, initialized := true))
  {}

  lemma BlankHolds(ds: seq<Desc>)
    requires ds == seq(MAX_PROC, p => BlankDesc())
    ensures AllHold(ds, Blank().procs)
  {
    BlankIsHeld();
    hide Holds;
  }

  // What init_proc makes of the blank table.
  lemma BootIs(m: Sys)
    requires var a := ProcModel.ChangeState(Blank(), KERNEL_PID, Kernel);
             var b := ProcModel.ChangeState(Put(a, INIT_PID, InitProcess()), INIT_PID, Runnable);
             m == Put(b, INIT_PID, InitProcess().(state := Runnable, initialized := true)).(curr := INIT_PID)
    ensures m == Boot()
  {
    assert forall p | 0 <= p < MAX_PROC :: m.procs[p] == BootProc(p);
    assert m.procs == Boot().procs;
    assert forall prio | 0 <= prio <= MAX_PRIO :: m.queues[prio] == Boot().queues[prio];
    assert m.queues == Boot().queues;
  }

  // The processes whose child pointer heads their ring, and the orphans.
  ghost predicate HeadsOk(m: Sys, heads: set<int>, orphans: set<int>)
    requires Shaped(m)
  {
    && (forall q | 0 <= q < MAX_PROC && !Gone(m.procs[q].state) :: q in heads)
    && (forall c :: c in orphans <==> 2 <= c < MAX_PROC && m.procs[c].state != Free && m.procs[c].orphan)
  }

  // Channels move neither.
  lemma MoveKeepsHeads(s: Sys, t: Sys, heads: set<int>, orphans: set<int>)
    requires Shaped(s) && Shaped(t) && ActiveMove(s, t) && HeadsOk(s, heads, orphans)
    ensures HeadsOk(t, heads, orphans)
  {
  }

  // The slot that a fork fills, if it does.
  ghost function Spawned(s: Sys, priority: int): set<int>
    requires Shaped(s)
  {
    var c := FindFree(s, 2);
    if c < MAX_PROC && priority <= s.procs[s.last].prio then {c} else {}
  }

  lemma ForkHeads(s: Sys, priority: int, heads: set<int>, orphans: set<int>)
    requires Shaped(s) && HeadsOk(s, heads, orphans) && priority >= 0 && s.procs[s.last].state == Runnable
    ensures HeadsOk(ForkSys(s, priority), heads + Spawned(s, priority), orphans)
    ensures ForkSys(s, priority).curr == s.curr && ForkSys(s, priority).last == s.last
  {
    hide ProcModel.ChangeState;
    hide FindFree;
    hide Spawn;
    var c := FindFree(s, 2);
    if c < MAX_PROC && priority <= s.procs[s.last].prio {
      SpawnedProcs(s, s.last, c, priority);
    }
  }

  // The child that wait reaps, if any.
  ghost function Reaped(s: Sys): set<int>
    requires Shaped(s) && RingsOk(s)
  {
    var ring := s.rings[s.last];
    if ring != [] && FirstZombie(s, ring) < |ring| then {ring[FirstZombie(s, ring)]} else {}
  }

  lemma WaitHeads(s: Sys, heads: set<int>, orphans: set<int>)
    requires Inv(s) && RingsOk(s) && HeadsOk(s, heads, orphans) && s.procs[s.last].state == Runnable
    ensures HeadsOk(WaitSys(s), heads, orphans - Reaped(s)) && s.last in heads
    ensures WaitSys(s).curr == s.curr && WaitSys(s).last == s.last
  {
    hide Roles;
    hide Queues;
    hide Waiters;
    hide Rendezvous;
    hide Deliveries;
    hide History;
    hide Reap;
    hide ProcModel.ChangeState;
    hide FirstZombie;
    var p := s.last;
    if s.rings[p] != [] && FirstZombie(s, s.rings[p]) < |s.rings[p]| {
      var c := s.rings[p][FirstZombie(s, s.rings[p])];
      assert c in s.rings[p] <==> IsChild(s, p, c);
      hide Children;
      ReapedSets(s, p, c);
    }
  }

  class Table {
    var procs: seq<Desc>
    var queues: QueueLinks        // *_same_prio, prio_proc, prio_proc_n, n_runnable_procs
    var siblings: SiblingLinks    // child, *_sibling
    var curr: int
    var last: int
    ghost var model: Sys
    ghost var heads: set<int>     // processes whose child pointer heads their ring
    ghost var orphans: set<int>

    ghost predicate Rep()
      reads this
    {
      && Shaped(model) && Queues(model) && curr == model.curr && last == model.last
      && AllHold(procs, model.procs)
      && QueuesLinked(model, queues)
      && SiblingsLinked(model.rings, heads, orphans, siblings)
    }

    // Between system calls the ghost sets are those of the model.
    ghost predicate Settled()
      reads this
    {
      Rep() && Inv(model) && HeadsOk(model, heads, orphans)
    }

    // A table of zeros.
    constructor ()
      ensures Rep() && IsBlank()
    {
      procs := seq(MAX_PROC, p => BlankDesc());
      queues := BlankQueues();
      siblings := SiblingLinks(seq(MAX_PROC, p => NULL), seq(MAX_PROC, p => NULL), seq(MAX_PROC, p => NULL));
      curr, last := KERNEL_PID, KERNEL_PID;
      model := Blank();
      heads := set p | 0 <= p < MAX_PROC && Pid(p);
      orphans := {};
      new;
      BlankLinked(model, queues, siblings, heads);
      BlankHolds(procs);
      hide QueuesLinked;
      hide SiblingsLinked;
      hide Queues;
      hide AllHold;
    }

    ghost predicate IsBlank()
      reads this
    {
      model == Blank() && heads == (set p | 0 <= p < MAX_PROC && Pid(p)) && orphans == {} && procs == seq(MAX_PROC, p => BlankDesc())
    }

    // init_proc, and the first dispatch of init: the state every run starts from.
    method InitProc()
      requires Rep() && IsBlank()
      modifies this
      ensures UserMode() && model == Boot()
    {
      hide QueuesLinked;
      hide SiblingsLinked;
      hide Queues;
      hide ProcModel.ChangeState;
      hide AllHold;
      hide Boot;
      hide InitProcess;
      ChangeState(KERNEL_PID, Kernel);
      assert model.procs[INIT_PID] == BlankProc();
      hide Blank;
      MakeInit();
      BootIs(model.(curr := INIT_PID));
      StartInit();
    }

    // Slot 1: new_proc_descriptor, change_state, and initialized.
    method MakeInit()
      requires Rep() && model.procs[INIT_PID] == BlankProc()
      modifies this`procs, this`queues, this`model
      ensures Rep() && procs[INIT_PID].used == 0
      ensures var b := ProcModel.ChangeState(Put(old(model), INIT_PID, InitProcess()), INIT_PID, Runnable);
        model == Put(b, INIT_PID, InitProcess().(state := Runnable, initialized := true))
    {
      hide QueuesLinked;
      hide SiblingsLinked;
      hide Queues;
      hide ProcModel.ChangeState;
      BlankIsHeld();
      assert |procs| == MAX_PROC;
      hide Holds;
      hide AllHold;
      Update(INIT_PID, InitDesc(), InitProcess());
      ChangeState(INIT_PID, Runnable);
      Update(INIT_PID, procs[INIT_PID].(initialized := true), InitProcess().(state := Runnable, initialized := true));
    }

    method StartInit()
      requires Rep() && heads == (set p | 0 <= p < MAX_PROC && Pid(p)) && orphans == {} && procs[INIT_PID].used == 0
      requires model.(curr := INIT_PID) == Boot()
      modifies this`curr, this`model
      ensures UserMode() && model == Boot()
    {
      hide QueuesLinked;
      hide SiblingsLinked;
      hide AllHold;
      CurrKeepsLinks(model, queues, INIT_PID);
      curr := INIT_PID;
      model := model.(curr := INIT_PID);
      BootKeeps();
    }

    // The two branches of change_state on the links.
    method LeaveQueue(p: int, prio: int)
      requires 0 <= p < |queues.next| == |queues.prev| && 0 <= prio < |queues.head| == |queues.count| && queues.count[prio] > 0
      requires 0 <= queues.next[p] < |queues.prev| && 0 <= queues.prev[p] < |queues.next|
      modifies this`queues
      ensures queues == Leave(old(queues), p, prio)
    {
      var n, b := queues.next[p], queues.prev[p];
      if queues.head[prio] == p {
        queues := queues.(head := queues.head[prio := if n == p then NULL else n]);
      }
      queues := queues.(next := queues.next[b := n]);
      queues := queues.(prev := queues.prev[n := b]);
      queues := queues.(total := queues.total - 1);
      queues := queues.(count := queues.count[prio := queues.count[prio] - 1]);
    }

    method JoinQueue(p: int, prio: int)
      requires 0 <= p < |queues.next| == |queues.prev| && 0 <= prio < |queues.head| == |queues.count|
      requires var h := queues.head[prio];
        h == NULL || (0 <= h < |queues.prev| && h != p && 0 <= queues.prev[h] < |queues.next|)
      modifies this`queues
      ensures queues == Join(old(queues), p, prio)
    {
      var h := queues.head[prio];
      if h == NULL {
        queues := queues.(next := queues.next[p := p]);
        queues := queues.(prev := queues.prev[p := p]);
      } else {
        queues := queues.(next := queues.next[p := h]);
        queues := queues.(prev := queues.prev[p := queues.prev[h]]);
        queues := queues.(prev := queues.prev[h := p]);
        queues := queues.(next := queues.next[queues.prev[p] := p]);
      }
      queues := queues.(head := queues.head[prio := p]);
      queues := queues.(total := queues.total + 1);
      queues := queues.(count := queues.count[prio := queues.count[prio] + 1]);
    }

    method RelinkQueue(p: int, st: ProcState)
      requires Shaped(model) && Queues(model) && QueuesLinked(model, queues) && Pid(p)
      requires |procs| == MAX_PROC && procs[p].prio == model.procs[p].prio && procs[p].state == model.procs[p].state
      modifies this`queues
      ensures QueuesLinked(ProcModel.ChangeState(model, p, st), queues)
    {
      hide QueuesLinked;
      hide Queues;
      hide Leave;
      hide Join;
      var prio := procs[p].prio;
      LinkBounds(model, queues);
      if procs[p].state == Runnable && st != Runnable {
        LeaveKeeps(model, queues, p, st);
        LeaveQueue(p, prio);
      } else if procs[p].state != Runnable && st == Runnable {
        JoinKeeps(model, queues, p);
        HeadIsRunnable(model, queues, p);
        JoinQueue(p, prio);
      } else {
        StateOnly(model, queues, p, st);
      }
    }

    method ChangeState(p: int, st: ProcState)
      requires Rep() && Pid(p)
      requires st == WaitListener ==> procs[p].used == |model.procs[p].out| <= BUFF_SIZE && procs[p].buff[..procs[p].used] == model.procs[p].out
      modifies this`procs, this`queues, this`model
      ensures Rep() && model == ProcModel.ChangeState(old(model), p, st)
      ensures procs == old(procs)[p := old(procs)[p].(state := st)]
    {
      hide QueuesLinked;
      hide SiblingsLinked;
      hide Queues;
      hide ProcModel.ChangeState;
      assert Holds(procs[p], model.procs[p]);
      PutHolds(procs, model.procs, p, procs[p].(state := st), model.procs[p].(state := st));
      hide AllHold;
      RelinkQueue(p, st);
      procs := procs[p := procs[p].(state := st)];
      ChangeStateKeepsQueues(model, p, st);
      model := ProcModel.ChangeState(model, p, st);
    }

    // A write to the fields of descriptor p that the queues do not look at.
    method Update(p: int, d: Desc, ghost x: Proc)
      requires Rep() && Pid(p) && Holds(d, x) && Pid(x.parent) && Pid(x.source) && 0 <= x.prio <= MAX_PRIO
      requires x.state == model.procs[p].state && (x.state == Runnable ==> x.prio == model.procs[p].prio)
      modifies this`procs, this`model
      ensures Rep() && model == Put(old(model), p, x) && procs == old(procs)[p := d]
    {
      hide SiblingsLinked;
      hide Queues;
      PutHolds(procs, model.procs, p, d, x);
      PutKeepsQueues(model, p, x);
      PutQueuesLinked(model, queues, p, x);
      hide QueuesLinked;
      hide AllHold;
      procs := procs[p := d];
      model := Put(model, p, x);
    }

    method Fail(p: int, no: int)
      requires Rep() && Pid(p)
      modifies this`procs, this`model
      ensures Rep() && model == ProcModel.Fail(old(model), p, no)
    {
      hide SiblingsLinked;
      hide QueuesLinked;
      hide Queues;
      ghost var x := model.procs[p];
      assert Holds(procs[p], x);
      Update(p, procs[p].(err := Err(no, procs[p].err.data), reg0 := -1), x.(err := Err(no, x.err.data), reg0 := -1));
    }

    // ---------- fork ----------

    method FindFreeProc() returns (c: int)
      requires Rep()
      ensures c == FindFree(model, 2)
    {
      hide QueuesLinked;
      hide SiblingsLinked;
      hide Queues;
      c := 2;
      while c < MAX_PROC && procs[c].state != Free
        invariant 2 <= c <= MAX_PROC && FindFree(model, 2) == FindFree(model, c)
      {
        assert Holds(procs[c], model.procs[c]);
        c := c + 1;
      }
      if c < MAX_PROC {
        assert Holds(procs[c], model.procs[c]);
      }
    }

    // new_proc_descriptor zeroes the links of the slot.
    method ClearLinks(c: int)
      requires Rep() && Pid(c) && model.procs[c].state != Runnable && model.rings[c] == []
      requires c !in orphans && forall q | 0 <= q < MAX_PROC :: c !in model.rings[q]
      modifies this`queues, this`siblings, this`heads
      ensures Rep() && heads == old(heads) + {c}
    {
      hide AllHold;
      QueueSlot(model, queues, c);
      SiblingSlot(model.rings, heads, orphans, siblings, c);
      hide SiblingsLinked;
      hide QueuesLinked;
      hide Queues;
      queues := queues.(next := queues.next[c := NULL], prev := queues.prev[c := NULL]);
      siblings := SiblingLinks(siblings.next[c := NULL], siblings.prev[c := NULL], siblings.child[c := NULL]);
      heads := heads + {c};
    }

    // add_child.
    method LinkChild(p: int, c: int)
      requires Rep() && p in heads && Pid(c)
      requires c !in orphans && forall q | 0 <= q < MAX_PROC :: c !in model.rings[q]
      modifies this`siblings, this`model
      ensures Rep() && Pid(p) && model == old(model).(rings := old(model).rings[p := [c] + old(model).rings[p]])
    {
      hide AllHold;
      SiblingBounds(model.rings, heads, orphans, siblings);
      AddChildKeeps(model.rings, heads, orphans, siblings, p, c);
      NotOwnHead(model.rings, heads, orphans, siblings, p, c);
      hide SiblingsLinked;
      var h := siblings.child[p];
      if h == NULL {
        siblings := siblings.(next := siblings.next[c := c]);
        siblings := siblings.(prev := siblings.prev[c := c]);
      } else {
        siblings := siblings.(next := siblings.next[c := h]);
        siblings := siblings.(prev := siblings.prev[c := siblings.prev[h]]);
        siblings := siblings.(prev := siblings.prev[h := c]);
        siblings := siblings.(next := siblings.next[siblings.prev[c] := c]);
      }
      siblings := siblings.(child := siblings.child[p := c]);
      ghost var m := model.(rings := model.rings[p := [c] + model.rings[p]]);
      RingsOnly(model, m, queues);
      hide QueuesLinked;
      hide Queues;
      model := m;
    }

    // make_child_proc_descriptor and add_child.
    method SpawnChild(p: int, c: int, priority: int)
      requires Rep() && p in heads && Pid(p) && Pid(c) && p != c && 0 <= priority <= MAX_PRIO
      requires model.procs[c].state == Free && model.rings[c] == []
      requires c !in orphans && forall q | 0 <= q < MAX_PROC :: c !in model.rings[q]
      modifies this`procs, this`queues, this`siblings, this`model, this`heads
      ensures Rep() && model == Spawn(old(model), p, c, priority) && heads == old(heads) + {c}
    {
      hide SiblingsLinked;
      hide QueuesLinked;
      hide Queues;
      ghost var s := model;
      assert Holds(procs[p], s.procs[p]);
      Update(p, procs[p].(reg0 := c), s.procs[p].(reg0 := c));
      ClearLinks(c);
      var d := Desc(p, priority, Free, true, 0, procs[p].err, seq(BUFF_SIZE, i => 0 as Byte), 0, 0, 0, 0, 0, 0, true, 0, 0, 0, 0);
      Update(c, d, NewProc(p, priority, s.procs[p].err));
      LinkChild(p, c);
    }

    // The checks of syscall_fork and what follows them; the child's slot then heads a ring.
    method ForkProc(priority: int)
      requires Rep() && Children(model) && HeadsOk(model, heads, orphans) && Trapped(model, ForkCall(priority))
      modifies this`procs, this`queues, this`siblings, this`model, this`heads
      ensures Rep() && model == ForkSys(old(model), priority)
      ensures heads == old(heads) + Spawned(old(model), priority)
    {
      hide SiblingsLinked;
      hide QueuesLinked;
      hide Queues;
      hide Children;
      hide FindFree;
      hide Spawn;
      hide ProcModel.ChangeState;
      ghost var s := model;
      var p := last;
      var c := FindFreeProc();
      assert Holds(procs[p], s.procs[p]) && p in heads;
      hide AllHold;
      if c == MAX_PROC {
        Fail(p, MAX_PROC_REACHED);
      } else if priority > procs[p].prio {
        Fail(p, TOO_HIGH_CHILD_PRIORITY);
      } else {
        FreeSlot(s, c);
        SpawnChild(p, c, priority);
        ChangeState(c, Runnable);
      }
    }

    method SyscallFork(priority: int)
      requires Settled() && Trapped(model, ForkCall(priority))
      modifies this
      ensures Settled() && model == ForkSys(old(model), priority) && curr == old(curr) && last == old(last)
    {
      hide SiblingsLinked;
      hide QueuesLinked;
      hide Queues;
      hide Waiters;
      hide Rendezvous;
      hide Deliveries;
      hide History;
      hide Roles;
      hide Children;
      hide HeadsOk;
      hide AllHold;
      hide ForkSys;
      hide Spawned;
      RingsInRange(model);
      ServeKeeps(model, ForkCall(priority));
      ForkHeads(model, priority, heads, orphans);
      ForkProc(priority);
    }

    // ---------- wait and exit ----------

    // The link writes of remove_child.
    method RelinkSiblings(p: int, c: int)
      requires 0 <= p < |siblings.child| && 0 <= c < |siblings.next| == |siblings.prev|
      requires 0 <= siblings.next[c] < |siblings.prev| && 0 <= siblings.prev[c] < |siblings.next|
      requires siblings.prev[c] == c <==> siblings.next[c] == c
      modifies this`siblings
      ensures siblings == RemoveChild(old(siblings), p, c)
    {
      siblings := siblings.(next := siblings.next[siblings.prev[c] := siblings.next[c]]);
      siblings := siblings.(prev := siblings.prev[siblings.next[c] := siblings.prev[c]]);
      if siblings.child[p] == c {
        siblings := siblings.(child := siblings.child[p := if c == siblings.next[c] then NULL else siblings.next[c]]);
      }
    }

    // remove_child; an orphan is in the ring of its siblings, not in that of init.
    method UnlinkChild(p: int, c: int)
      requires Rep() && p in heads && Pid(p) && (c in model.rings[p] || c in orphans)
      modifies this`siblings, this`model, this`orphans
      ensures Rep() && model == old(model).(rings := old(model).rings[p := Remove(old(model).rings[p], c)])
      ensures orphans == old(orphans) - {c}
    {
      hide AllHold;
      hide QueuesLinked;
      hide Queues;
      hide Remove;
      ghost var rings := model.rings;
      ghost var m := model.(rings := rings[p := Remove(rings[p], c)]);
      RingsOnly(model, m, queues);
      SiblingBounds(rings, heads, orphans, siblings);
      UnlinkOne(rings, heads, orphans, siblings, p, c);
      hide SiblingsLinked;
      RelinkSiblings(p, c);
      model := m;
      orphans := orphans - {c};
    }

    // The pid and, where the parent asked for it, the error of the child.
    method HandOver(p: int, c: int)
      requires Rep() && Pid(p) && Pid(c) && model.procs[p].state != WaitListener
      modifies this`procs, this`model
      ensures Rep()
      ensures var x := old(model).procs[p];
        model == Put(old(model), p, x.(reg0 := c,
          pending := if x.reg0 != 0 then Delivery(x.reg0, ErrBytes(old(model).procs[c].err), FromChild(c)) else x.pending))
    {
      hide SiblingsLinked;
      hide QueuesLinked;
      hide Queues;
      ghost var s := model;
      assert Holds(procs[p], s.procs[p]) && Holds(procs[c], s.procs[c]);
      var status := procs[p].reg0;
      var d := procs[p].(reg0 := c);
      if status != 0 {
        var bytes := ErrBytes(procs[c].err);
        d := d.(writeAddr := status, buff := Overwrite(d.buff, bytes, 16), used := 16);
        assert bytes[..16] == bytes;
      }
      hide AllHold;
      hide ErrBytes;
      ghost var x := s.procs[p].(reg0 := c,
        pending := if status != 0 then Delivery(status, ErrBytes(s.procs[c].err), FromChild(c)) else s.procs[p].pending);
      Update(p, d, x);
    }

    // The parent's side of handle_zombie_child.
    method CollectChild(p: int, c: int)
      requires Rep() && p in heads && Pid(p) && Pid(c) && (c in model.rings[p] || c in orphans)
      requires model.procs[p].state != WaitListener
      modifies this`procs, this`siblings, this`model, this`orphans
      ensures Rep() && model == Collect(old(model), p, c) && orphans == old(orphans) - {c}
    {
      hide SiblingsLinked;
      hide QueuesLinked;
      hide Queues;
      hide Remove;
      ghost var s := model;
      HandOver(p, c);
      UnlinkChild(p, c);
      ghost var m := model.(reaps := model.reaps[c := model.reaps[c] + 1]);
      RingsOnly(model, m, queues);
      model := m;
    }

    method HandleZombieChild(p: int, c: int)
      requires Rep() && p in heads && Pid(p) && Pid(c) && (c in model.rings[p] || c in orphans)
      requires model.procs[p].state != WaitListener
      modifies this`procs, this`queues, this`siblings, this`model, this`orphans
      ensures Rep() && model == Reap(old(model), p, c) && orphans == old(orphans) - {c}
    {
      hide Rep;
      hide Collect;
      hide ProcModel.ChangeState;
      CollectChild(p, c);
      ChangeState(c, Free);
      ChangeState(p, Runnable);
    }

    // The ring traversal of syscall_wait, from a head that is not a zombie.
    method NextZombie(p: int, ghost ring: seq<int>) returns (c: int)
      requires Rep() && p in heads && Pid(p) && RingsOk(model) && ring == model.rings[p] != []
      requires model.procs[ring[0]].state != Zombie
      ensures Pid(c)
      ensures var k := FirstZombie(model, ring);
        if k < |ring| then c == ring[k] else model.procs[c].state != Zombie
    {
      hide QueuesLinked;
      hide Queues;
      hide FirstZombie;
      SiblingBounds(model.rings, heads, orphans, siblings);
      RingSteps(model.rings, heads, orphans, siblings, p);
      hide SiblingsLinked;
      c := siblings.next[siblings.child[p]];
      ghost var i := After(0, |ring|);
      while procs[c].state != Zombie && siblings.next[c] != siblings.child[p]
        invariant 0 <= i < |ring| && c == ring[i] && forall j | 0 <= j < i :: model.procs[ring[j]].state != Zombie
        decreases |ring| - i
      {
        assert Holds(procs[c], model.procs[c]);
        c := siblings.next[c];
        i := i + 1;
      }
      assert Holds(procs[c], model.procs[c]);
    }

    // The zombie that syscall_wait settles on; found is false when no child is one.
    method FindZombie(p: int) returns (found: bool, c: int)
      requires Rep() && p in heads && Pid(p) && RingsOk(model) && model.rings[p] != []
      ensures Pid(c)
      ensures var k := FirstZombie(model, model.rings[p]);
        found == (k < |model.rings[p]|) && (found ==> c == model.rings[p][k])
    {
      hide QueuesLinked;
      hide Queues;
      hide FirstZombie;
      SiblingBounds(model.rings, heads, orphans, siblings);
      hide SiblingsLinked;
      c := siblings.child[p];
      assert Holds(procs[c], model.procs[c]);
      if procs[c].state == Zombie {
        found := true;
      } else {
        c := NextZombie(p, model.rings[p]);
        assert Holds(procs[c], model.procs[c]);
        found := procs[c].state == Zombie;
      }
    }

    // The search of syscall_wait and what it does with what it finds.
    method WaitForChild()
      requires Rep() && last in heads && RingsOk(model) && model.procs[last].state == Runnable
      modifies this`procs, this`queues, this`siblings, this`model, this`orphans
      ensures Rep() && model == WaitSys(old(model)) && orphans == old(orphans) - Reaped(old(model))
    {
      hide SiblingsLinked;
      hide QueuesLinked;
      hide Queues;
      hide FirstZombie;
      hide Reap;
      hide ProcModel.ChangeState;
      hide AllHold;
      ghost var s := model;
      var p := last;
      SiblingBounds(s.rings, heads, orphans, siblings);
      if siblings.child[p] == NULL {
        EmptyHead(s, s.rings[p]);
        Fail(p, NO_CHILD);
      } else {
        var found, c := FindZombie(p);
        if found {
          HandleZombieChild(p, c);
        } else {
          ChangeState(p, Waiting);
        }
      }
    }

    method SyscallWait(status: nat)
      requires Settled() && Trapped(model, WaitCall(status))
      modifies this
      ensures Settled() && model == WaitSys(old(model)) && curr == old(curr) && last == old(last)
    {
      hide SiblingsLinked;
      hide QueuesLinked;
      hide Queues;
      hide Roles;
      hide Children;
      hide Waiters;
      hide Rendezvous;
      hide Deliveries;
      hide History;
      hide AllHold;
      hide WaitSys;
      hide Reaped;
      RingsInRange(model);
      ServeKeeps(model, WaitCall(status));
      WaitHeads(model, heads, orphans);
      hide HeadsOk;
      WaitForChild();
    }

    // The do-while loop of syscall_exit over the ring.
    method ReparentChildren(p: int, ghost ring: seq<int>)
      requires Rep() && p in heads && Pid(p) && RingsOk(model) && ring == model.rings[p]
      modifies this`procs
      ensures Reparented(old(procs), procs, ring, |ring|)
    {
      hide QueuesLinked;
      hide Queues;
      SiblingBounds(model.rings, heads, orphans, siblings);
      var c := siblings.child[p];
      if c == NULL {
        EmptyHead(model, ring);
      } else {
        RingSteps(model.rings, heads, orphans, siblings, p);
        hide SiblingsLinked;
        hide AllHold;
        hide RingsOk;
        hide Shaped;
        hide Reparented;
        ReparentedNone(procs, ring);
        ReparentedOne(procs, procs, ring, 0);
        procs := procs[c := procs[c].(parent := INIT_PID)];
        c := siblings.next[c];
        ghost var i := 1;
        while c != siblings.child[p]
          invariant 1 <= i <= |ring| && c == (if i == |ring| then ring[0] else ring[i])
          invariant Reparented(old(procs), procs, ring, i)
          invariant |procs| == MAX_PROC
          decreases |ring| - i
        {
          ReparentedOne(old(procs), procs, ring, i);
          procs := procs[c := procs[c].(parent := INIT_PID)];
          c := siblings.next[c];
          i := i + 1;
        }
      }
    }

    // The first half of syscall_exit.
    method DepartProc(p: int, no: int, data: int)
      requires Rep() && p == last && p in heads && Pid(p) && RingsOk(model)
      modifies this`procs, this`model, this`heads, this`orphans
      ensures Rep() && model == Depart(old(model), Err(no, data))
      ensures heads == old(heads) - {p} && orphans == old(orphans) + (set c | c in old(model).rings[p])
    {
      hide SiblingsLinked;
      hide QueuesLinked;
      hide Queues;
      hide Reparent;
      ghost var s := model;
      ghost var e := Err(no, data);
      assert Holds(procs[p], s.procs[p]);
      Update(p, procs[p].(err := Err(no, data)), s.procs[p].(err := e));
      ghost var a := model;
      ReparentChildren(p, s.rings[p]);
      ReparentedHold(old(procs)[p := old(procs)[p].(err := e)], procs, a.procs, s.rings[p]);
      DepartQueues(s, e);
      AbandonKeeps(s.rings, heads, orphans, siblings, p);
      model := Depart(s, e);
      DepartLinks(s, e, queues);
      heads := heads - {p};
      orphans := orphans + (set c | c in s.rings[p]);
    }

    // The second half.
    method EndProc(p: int)
      requires Rep() && Pid(p)
      requires var q := model.procs[p].parent;
        model.procs[q].state == Waiting ==> q in heads && (p in model.rings[q] || p in orphans)
      modifies this`procs, this`queues, this`siblings, this`model, this`orphans
      ensures Rep()
      ensures var q := old(model).procs[p].parent;
        if old(model).procs[q].state == Waiting then model == Reap(old(model), q, p) && orphans == old(orphans) - {p}
        else model == ProcModel.ChangeState(old(model), p, Zombie) && orphans == old(orphans)
    {
      hide SiblingsLinked;
      hide QueuesLinked;
      hide Queues;
      hide Reap;
      hide ProcModel.ChangeState;
      assert Holds(procs[p], model.procs[p]);
      var q := procs[p].parent;
      assert Holds(procs[q], model.procs[q]);
      hide AllHold;
      if procs[q].state == Waiting {
        HandleZombieChild(q, p);
      } else {
        ChangeState(p, Zombie);
      }
    }

    method SyscallExit(no: int, data: int)
      requires Settled() && Trapped(model, ExitCall(no, data))
      modifies this
      ensures Settled() && model == ExitSys(old(model), no, data) && curr == old(curr) && last == old(last)
    {
      hide SiblingsLinked;
      hide QueuesLinked;
      hide Queues;
      hide Waiters;
      hide Rendezvous;
      hide Deliveries;
      hide History;
      hide Roles;
      hide Children;
      hide Reap;
      hide ProcModel.ChangeState;
      hide Depart;
      hide AllHold;
      ghost var s := model;
      RingsInRange(s);
      ServeKeeps(s, ExitCall(no, data));
      var p := last;
      ghost var e := Err(no, data);
      ExitSets(s, e, heads, orphans);
      DepartProc(p, no, data);
      ghost var t := model;
      ReapedSets(t, t.procs[p].parent, p);
      EndProc(p);
    }

    // ---------- channels ----------

    // The buffer of process p holds the bytes it captured at its trap.
    ghost predicate Captures(p: int)
      reads this
      requires |procs| == MAX_PROC && Shaped(model) && Pid(p)
    {
      var d, x := procs[p], model.procs[p];
      |d.buff| == BUFF_SIZE && d.used == |x.out| <= BUFF_SIZE && d.buff[..d.used] == x.out
    }

    // The message moves from the sender's buffer to the receiver's.
    method MoveMessage(sender: int, receiver: int)
      requires Rep() && Pid(sender) && Pid(receiver) && sender != receiver && Captures(sender)
      requires model.procs[sender].pending == Nothing && model.procs[receiver].state == ListeningCh
      modifies this`procs, this`model
      ensures Rep() && model == Meet(old(model), sender, receiver)
    {
      hide SiblingsLinked;
      hide QueuesLinked;
      hide Queues;
      ghost var s := model;
      assert Holds(procs[sender], s.procs[sender]) && Holds(procs[receiver], s.procs[receiver]);
      var n, bytes := procs[sender].used, procs[sender].buff;
      Update(sender, procs[sender].(acknowledged := false), s.procs[sender].(acknowledged := false));
      var d := procs[receiver].(used := n, writeAddr := procs[receiver].recvAddr, source := sender, reg0 := sender,
                                buff := Overwrite(procs[receiver].buff, bytes, n));
      ghost var y := s.procs[receiver];
      Update(receiver, d, y.(pending := Delivery(y.recvAddr, s.procs[sender].out, FromSender(sender)),
                             source := sender, reg0 := sender, owes := true));
    }

    // handle_channel_connection; the assertions of the source hold.
    method HandleChannelConnection(sender: int, receiver: int)
      requires Rep() && Pid(sender) && Pid(receiver) && sender != receiver && Captures(sender)
      requires model.procs[sender].pending == Nothing && BlockedSend(model.procs[sender])
      requires model.procs[receiver].state == ListeningCh
      modifies this`procs, this`queues, this`model
      ensures Rep() && model == Connect(old(model), sender, receiver)
    {
      hide SiblingsLinked;
      hide QueuesLinked;
      hide Queues;
      hide ProcModel.ChangeState;
      ghost var s := model;
      assert Holds(procs[sender], s.procs[sender]) && Holds(procs[receiver], s.procs[receiver]);
      if procs[receiver].recvSize < procs[sender].sendSize {
        Fail(sender, SEND_DATA_TOO_LARGE);
      } else {
        assert procs[sender].used <= BUFF_SIZE;
        assert procs[sender].used <= procs[receiver].recvSize;
        MoveMessage(sender, receiver);
        ChangeState(sender, SendingCh);
        EmptyBuffer(sender);
        ChangeState(receiver, Runnable);
      }
    }

    method EmptyBuffer(p: int)
      requires Rep() && Pid(p) && model.procs[p].state == SendingCh && model.procs[p].pending == Nothing
      modifies this`procs
      ensures Rep()
    {
      hide SiblingsLinked;
      hide QueuesLinked;
      hide Queues;
      assert Holds(procs[p], model.procs[p]);
      PutHolds(procs, model.procs, p, procs[p].(used := 0), model.procs[p]);
      assert model.procs[p := model.procs[p]] == model.procs;
      procs := procs[p := procs[p].(used := 0)];
    }

    // What back_up_buff_svc left in the caller's buffer.
    ghost predicate BackedUp(call: Call)
      reads this
      requires |procs| == MAX_PROC && Pid(last)
    {
      var d := procs[last];
      && |d.buff| == BUFF_SIZE
      && (call.SendCall? || call.AckCall? ==>
            if call.addr != 0 && call.size > 0 then d.used == call.size && d.buff[..Min(call.size, BUFF_SIZE)] == call.bytes
            else d.used == 0)
    }

    // The part of syscall_send after its checks.
    method PostMessage(call: Call)
      requires Rep() && call.SendCall? && Trapped(model, call) && BackedUp(call) && Pid(call.target) && call.size <= BUFF_SIZE
      modifies this`procs, this`queues, this`model
      ensures Rep()
      ensures var s := old(model); var p := s.last;
        var a := Put(s, p, s.procs[p].(target := call.target, sendSize := call.size, ackAddr := call.ackAddr, ackSize := call.ackSize));
        model == if s.procs[call.target].state == ListeningCh then Connect(a, p, call.target) else ProcModel.ChangeState(a, p, WaitListener)
    {
      hide SiblingsLinked;
      hide QueuesLinked;
      hide Queues;
      hide Connect;
      hide ProcModel.ChangeState;
      ghost var s := model;
      var p, q := last, call.target;
      assert Holds(procs[q], s.procs[q]) && Holds(procs[p], s.procs[p]);
      hide AllHold;
      var listening := procs[q].state == ListeningCh;
      var d := procs[p].(target := q, sendSize := call.size, ackAddr := call.ackAddr, ackSize := call.ackSize);
      Update(p, d, s.procs[p].(target := q, sendSize := call.size, ackAddr := call.ackAddr, ackSize := call.ackSize));
      if listening {
        HandleChannelConnection(p, q);
      } else {
        ChangeState(p, WaitListener);
      }
    }

    method SendMessage(call: Call)
      requires Rep() && call.SendCall? && Trapped(model, call) && BackedUp(call)
      modifies this`procs, this`queues, this`model
      ensures Rep() && model == SendSys(old(model), call)
    {
      hide SiblingsLinked;
      hide QueuesLinked;
      hide Queues;
      hide Connect;
      hide ProcModel.ChangeState;
      var p, q := last, call.target;
      if !(0 <= q < MAX_PROC) {
        Fail(p, INVALID_PID);
        return;
      }
      assert Holds(procs[q], model.procs[q]);
      hide AllHold;
      if procs[q].state != ListeningCh && !call.wait {
        Fail(p, TARGET_NOT_LISTENING);
      } else if call.size > BUFF_SIZE {
        Fail(p, SEND_DATA_TOO_LARGE);
      } else {
        PostMessage(call);
      }
    }

    method SyscallSend(call: Call)
      requires Settled() && call.SendCall? && Trapped(model, call) && BackedUp(call)
      modifies this
      ensures Settled() && model == SendSys(old(model), call) && curr == old(curr) && last == old(last)
    {
      hide SiblingsLinked;
      hide QueuesLinked;
      hide Queues;
      hide Roles;
      hide Children;
      hide Waiters;
      hide Rendezvous;
      hide Deliveries;
      hide History;
      hide SendSys;
      hide AllHold;
      RingsInRange(model);
      ServeKeeps(model, call);
      SendMoves(model, call);
      SendMessage(call);
    }

    method FindWaitingSender(l: int) returns (i: int)
      requires Rep()
      ensures i == FindSender(model, l, 0)
    {
      hide QueuesLinked;
      hide SiblingsLinked;
      hide Queues;
      i := 0;
      while i < MAX_PROC && !(procs[i].state == WaitListener && procs[i].target == l)
        invariant 0 <= i <= MAX_PROC && FindSender(model, l, 0) == FindSender(model, l, i)
      {
        assert Holds(procs[i], model.procs[i]);
        i := i + 1;
      }
      if i < MAX_PROC {
        assert Holds(procs[i], model.procs[i]);
      }
    }

    method StartListening(p: int, addr: nat, size: nat)
      requires Rep() && p == last && model.procs[p].state == Runnable && model.procs[p].pending == Nothing
      modifies this`procs, this`queues, this`model
      ensures Rep() && model == Listen(old(model), addr, size)
    {
      hide SiblingsLinked;
      hide QueuesLinked;
      hide Queues;
      hide ProcModel.ChangeState;
      ghost var s := model;
      assert Holds(procs[p], s.procs[p]);
      Update(p, procs[p].(recvAddr := addr, recvSize := size), s.procs[p].(recvAddr := addr, recvSize := size));
      ChangeState(p, ListeningCh);
    }

    method SyscallReceive(addr: nat, size: nat)
      requires Settled() && Trapped(model, ReceiveCall(addr, size))
      modifies this
      ensures Settled() && model == ReceiveSys(old(model), addr, size) && curr == old(curr) && last == old(last)
    {
      hide SiblingsLinked;
      hide QueuesLinked;
      hide Queues;
      hide Roles;
      hide Children;
      hide Waiters;
      hide Rendezvous;
      hide Deliveries;
      hide History;
      hide ReceiveSys;
      hide HeadsOk;
      hide AllHold;
      RingsInRange(model);
      ServeKeeps(model, ReceiveCall(addr, size));
      ReceiveMoves(model, addr, size);
      MoveKeepsHeads(model, ReceiveSys(model, addr, size), heads, orphans);
      ReceiveMessage(addr, size);
    }

    // The scan of the process table and the meeting it may find.
    method ReceiveMessage(addr: nat, size: nat)
      requires Rep() && Rendezvous(model) && Deliveries(model) && Trapped(model, ReceiveCall(addr, size))
      modifies this`procs, this`queues, this`model
      ensures Rep() && model == ReceiveSys(old(model), addr, size)
    {
      hide SiblingsLinked;
      hide QueuesLinked;
      hide Queues;
      hide Rendezvous;
      hide Deliveries;
      hide Connect;
      hide Listen;
      hide FindSender;
      hide AllHold;
      ListenChannels(model, addr, size);
      var p := last;
      StartListening(p, addr, size);
      var i := FindWaitingSender(p);
      if i < MAX_PROC {
        FoundSender(model, p, i);
        SenderCaptures(i);
        HandleChannelConnection(i, p);
      }
    }

    lemma SenderCaptures(i: int)
      requires Rep() && Pid(i) && model.procs[i].state == WaitListener
      ensures |procs| == MAX_PROC && Captures(i)
    {
      hide SiblingsLinked;
      hide QueuesLinked;
      hide Queues;
      assert Holds(procs[i], model.procs[i]);
    }

    // handle_channel_ack when there is something to acknowledge; its assertions hold.
    method AnswerSender(p: int, q: int)
      requires Rep() && Pid(p) && Pid(q) && p != q && Captures(p)
      requires model.procs[p].state == Runnable && model.procs[p].pending == Nothing
      requires model.procs[q].state == SendingCh && model.procs[q].target == p
      modifies this`procs, this`queues, this`model
      ensures Rep() && model == ProcModel.ChangeState(Answer(old(model), p, q), q, Runnable)
    {
      hide SiblingsLinked;
      hide QueuesLinked;
      hide Queues;
      hide ProcModel.ChangeState;
      ghost var s := model;
      assert Holds(procs[p], s.procs[p]) && Holds(procs[q], s.procs[q]);
      assert procs[q].target == p;
      assert procs[p].used <= BUFF_SIZE;
      var n := Min(procs[q].ackSize, procs[p].used);
      var bytes := procs[p].buff;
      Update(p, procs[p].(reg0 := 0, used := 0), s.procs[p].(reg0 := 0, owes := false));
      ghost var x := s.procs[q];
      assert bytes[..n] == s.procs[p].out[..n];
      Update(q, procs[q].(used := n, buff := Overwrite(procs[q].buff, bytes, n), writeAddr := procs[q].ackAddr, reg0 := procs[p].returnCode),
             x.(pending := Delivery(x.ackAddr, s.procs[p].out[..n], FromServer(p)), reg0 := s.procs[p].returnCode));
      ChangeState(q, Runnable);
    }

    method AcknowledgeMessage(call: Call) returns (ok: bool)
      requires Rep() && call.AckCall? && Trapped(model, call) && BackedUp(call)
      modifies this`procs, this`queues, this`model
      ensures ok <==> !AckPanics(old(model), last, call)
      ensures ok ==> Rep() && model == AckSys(old(model), call)
    {
      hide SiblingsLinked;
      hide QueuesLinked;
      hide Queues;
      hide Answer;
      hide ProcModel.ChangeState;
      var p := last;
      ok := true;
      if call.size > BUFF_SIZE {
        Fail(p, SEND_DATA_TOO_LARGE);
        return;
      }
      ghost var s := model;
      assert Holds(procs[p], s.procs[p]);
      Update(p, procs[p].(returnCode := call.code), s.procs[p].(returnCode := call.code));
      var q := procs[p].source;
      assert Holds(procs[q], model.procs[q]);
      hide AllHold;
      if procs[q].acknowledged || procs[q].state != SendingCh {
        Fail(p, SOURCE_ALREADY_ACKNOWLEDGED);
      } else if procs[q].target != p {
        ok := false;
      } else {
        AnswerSender(p, q);
      }
    }

    // syscall_acknowledge; false stands for the assertion on the sender's target.
    method SyscallAcknowledge(call: Call) returns (ok: bool)
      requires Settled() && call.AckCall? && Trapped(model, call) && BackedUp(call)
      modifies this
      ensures ok <==> !AckPanics(old(model), old(last), call)
      ensures ok ==> Settled() && model == AckSys(old(model), call) && curr == old(curr) && last == old(last)
    {
      hide SiblingsLinked;
      hide QueuesLinked;
      hide Queues;
      hide Roles;
      hide Children;
      hide Waiters;
      hide Rendezvous;
      hide Deliveries;
      hide History;
      hide AckSys;
      hide AllHold;
      hide HeadsOk;
      RingsInRange(model);
      if !AckPanics(model, last, call) {
        ServeKeeps(model, call);
        AckMoves(model, call);
        MoveKeepsHeads(model, AckSys(model, call), heads, orphans);
      }
      ok := AcknowledgeMessage(call);
    }

    // ---------- traps and dispatch ----------

    // A process runs, with an empty buffer.
    ghost predicate UserMode()
      reads this
    {
      Settled() && Running(model) && procs[curr].used == 0
    }

    // save_context and back_up_buff_svc.
    method SaveContext(call: Call, e: Err)
      requires UserMode() && WellFormed(call)
      modifies this
      ensures Settled() && Trapped(model, call) && BackedUp(call)
      ensures model == Trap(old(model), call, e) && last == old(curr) && curr == KERNEL_PID
    {
      hide SiblingsLinked;
      hide QueuesLinked;
      hide Queues;
      hide Roles;
      hide Children;
      hide Waiters;
      hide Rendezvous;
      hide Deliveries;
      hide History;
      ghost var s := model;
      TrapKeeps(s, call, e);
      assert Holds(procs[curr], s.procs[curr]);
      var d := procs[curr].(reg0 := Reg0(call), err := e);
      if (call.SendCall? || call.AckCall?) && call.addr != 0 && call.size > 0 {
        d := d.(used := call.size, buff := Overwrite(d.buff, call.bytes, Min(call.size, BUFF_SIZE)));
      }
      Update(curr, d, s.procs[curr].(reg0 := Reg0(call), err := e, out := Captured(call), call := call));
      hide AllHold;
      ghost var m := Trap(s, call, e);
      RingsOnly(model, m, queues);
      last := curr;
      curr := KERNEL_PID;
      model := m;
    }

    // run_process and write_buff_svc: what is written for the process, at a non-zero address.
    method RunProcess(p: int) returns (addr: int, bytes: seq<Byte>)
      requires Settled() && 0 < p < MAX_PROC && model.procs[p].state == Runnable
      modifies this
      ensures UserMode() && curr == p && last == old(last) && model == Resume(old(model), p)
      ensures var d := old(model).procs[p].pending;
        if d == Nothing then addr == 0 else addr == d.addr && (addr != 0 ==> bytes == d.bytes)
    {
      hide SiblingsLinked;
      hide QueuesLinked;
      hide Queues;
      hide Roles;
      hide Children;
      hide Waiters;
      hide Rendezvous;
      hide Deliveries;
      hide History;
      ghost var s := model;
      ResumeKeeps(s, p);
      assert Holds(procs[p], s.procs[p]);
      assert procs[p].state == Runnable;
      addr, bytes := procs[p].writeAddr, [];
      if procs[p].writeAddr != 0 {
        bytes := procs[p].buff[..procs[p].used];
      }
      Update(p, procs[p].(writeAddr := 0, used := 0), s.procs[p].(pending := Nothing, out := []));
      hide AllHold;
      ghost var m := Resume(s, p);
      RingsOnly(model, m, queues);
      curr := p;
      model := m;
    }

    method RunPriority(prio: int) returns (addr: int, bytes: seq<Byte>)
      requires Settled() && 0 <= prio <= MAX_PRIO && model.queues[prio] != []
      requires var p := model.queues[prio][0]; 0 < p < MAX_PROC && model.procs[p].state == Runnable
      modifies this
      ensures UserMode() && curr == old(model).queues[prio][0] && model == ProcModel.RunPriority(old(model), prio)
      ensures var d := old(model).procs[old(model).queues[prio][0]].pending;
        if d == Nothing then addr == 0 else addr == d.addr && (addr != 0 ==> bytes == d.bytes)
    {
      hide SiblingsLinked;
      hide QueuesLinked;
      hide Queues;
      hide Roles;
      hide Children;
      hide Waiters;
      hide Rendezvous;
      hide Deliveries;
      hide History;
      hide AllHold;
      ghost var s := model;
      LinkBounds(s, queues);
      RotateLinked(s, queues, prio);
      ProcRuns.RotateKeeps(s, prio);
      var p := queues.head[prio];
      queues := queues.(head := queues.head[prio := queues.next[p]]);
      model := s.(queues := s.queues[prio := s.queues[prio][1..] + [s.queues[prio][0]]]);
      addr, bytes := RunProcess(p);
    }

    // The weights of schedule.
    method ComputeWeights() returns (w: seq<nat>)
      requires Rep()
      ensures w == Weights(model)
    {
      w := [0];
      for i := 1 to MAX_PRIO
        invariant |w| == i && w[0] == 0
        invariant forall j | 1 <= j < i :: w[j] == if |model.queues[j]| > 0 then j * j + |model.queues[j]| else 0
      {
        w := w + [if queues.count[i] > 0 then i * i + queues.count[i] else 0];
      }
    }

    // The queue that schedule picks; there is a runnable process.
    method PickPriority(clock: nat) returns (prio: int)
      requires Settled() && !Halted(model)
      ensures Picks(model, clock, prio)
    {
      LinkCounts(model, queues);
      if queues.count[MAX_PRIO] > 0 {
        prio := MAX_PRIO;
      } else if queues.total == queues.count[0] {
        prio := 0;
      } else {
        DrawPossible(model);
        var w := ComputeWeights();
        prio := RandomLaw(w, clock);
      }
    }

    // schedule: halts when no process is runnable, and otherwise dispatches one.
    method Schedule(clock: nat) returns (halted: bool, addr: int, bytes: seq<Byte>)
      requires Settled()
      modifies this
      ensures halted == Halted(old(model))
      ensures halted ==> Settled() && model == old(model)
      ensures !halted ==> UserMode() && exists prio :: Runs(old(model), clock, prio, model)
      ensures !halted ==> var d := old(model).procs[curr].pending;
        if d == Nothing then addr == 0 else addr == d.addr && (addr != 0 ==> bytes == d.bytes)
    {
      hide SiblingsLinked;
      hide QueuesLinked;
      hide Queues;
      hide Roles;
      hide Children;
      hide Waiters;
      hide Rendezvous;
      hide Deliveries;
      hide History;
      hide AllHold;
      LinkCounts(model, queues);
      if queues.total == 0 {
        halted, addr, bytes := true, 0, [];
      } else {
        ghost var s := model;
        var prio := PickPriority(clock);
        DispatchSafe(s, clock, prio);
        addr, bytes := RunPriority(prio);
        halted := false;
        assert Runs(s, clock, prio, model);
      }
    }

    // c_el1_svc_aarch64_handler: the system call of a trap.
    method ServeCall(call: Call) returns (ok: bool)
      requires Settled() && Trapped(model, call) && BackedUp(call)
      modifies this
      ensures ok <==> !AckPanics(old(model), old(last), call)
      ensures ok ==> Settled() && RingsOk(old(model)) && model == Serve(old(model), call) && last == old(last)
    {
      hide Rep;
      hide ForkSys;
      hide ExitSys;
      hide WaitSys;
      hide SendSys;
      hide ReceiveSys;
      hide AckSys;
      RingsInRange(model);
      ok := true;
      match call
      case ForkCall(priority) => SyscallFork(priority);
      case ExitCall(no, data) => SyscallExit(no, data);
      case WaitCall(status) => SyscallWait(status);
      case SendCall(_, _, _, _, _, _, _) => SyscallSend(call);
      case ReceiveCall(addr, size) => SyscallReceive(addr, size);
      case AckCall(_, _, _, _) => ok := SyscallAcknowledge(call);
      case TestCall(_) =>
    }
  }

  lemma LinkBounds(m: Sys, k: QueueLinks)
    requires Shaped(m) && QueuesLinked(m, k)
    ensures |k.next| == MAX_PROC && |k.prev| == MAX_PROC && |k.head| == MAX_PRIO + 1 && |k.count| == MAX_PRIO + 1
  {
  }

  lemma HeadIsRunnable(m: Sys, k: QueueLinks, p: int)
    requires Shaped(m) && Queues(m) && QueuesLinked(m, k) && Pid(p) && m.procs[p].state != Runnable
    ensures |k.head| == MAX_PRIO + 1 && k.head[m.procs[p].prio] != p
  {
    var prio := m.procs[p].prio;
    var q := m.queues[prio];
    if q != [] {
      assert q[0] in q;
      assert Queued(m, prio, q[0]);
    }
  }

  lemma StateOnly(m: Sys, k: QueueLinks, p: int, st: ProcState)
    requires Shaped(m) && QueuesLinked(m, k) && Pid(p) && (m.procs[p].state == Runnable <==> st == Runnable)
    ensures QueuesLinked(ProcModel.ChangeState(m, p, st), k)
  {
  }

  lemma PutQueuesLinked(m: Sys, k: QueueLinks, p: int, x: Proc)
    requires Shaped(m) && QueuesLinked(m, k) && Pid(p) && 0 <= x.prio <= MAX_PRIO && Pid(x.parent) && Pid(x.source)
    ensures QueuesLinked(Put(m, p, x), k)
  {
  }

  lemma RingsOnly(m: Sys, m': Sys, k: QueueLinks)
    requires Shaped(m) && Queues(m) && QueuesLinked(m, k) && Shaped(m') && m'.procs == m.procs && m'.queues == m.queues
    ensures Queues(m') && QueuesLinked(m', k)
  {
    SameQueues(m, m');
  }

  lemma QueueSlot(m: Sys, k: QueueLinks, c: int)
    requires Shaped(m) && Queues(m) && QueuesLinked(m, k) && Pid(c) && m.procs[c].state != Runnable
    ensures |k.next| == MAX_PROC && |k.prev| == MAX_PROC
    ensures QueuesLinked(m, k.(next := k.next[c := NULL], prev := k.prev[c := NULL]))
  {
    hide IsRing;
    forall prio | 0 <= prio <= MAX_PRIO ensures IsRing(m.queues[prio], k.next[c := NULL], k.prev[c := NULL]) {
      assert !Queued(m, prio, c);
      Untouched(m.queues[prio], k.next, k.prev, k.next[c := NULL], k.prev[c := NULL]);
    }
  }

  lemma SiblingBounds(rings: seq<seq<int>>, heads: set<int>, orphans: set<int>, k: SiblingLinks)
    requires SiblingsLinked(rings, heads, orphans, k)
    ensures |rings| == MAX_PROC && |k.next| == MAX_PROC && |k.prev| == MAX_PROC && |k.child| == MAX_PROC
    ensures forall q | q in heads :: 0 <= q < MAX_PROC && k.child[q] == Head(rings[q])
  {
  }

  lemma NotOwnHead(rings: seq<seq<int>>, heads: set<int>, orphans: set<int>, k: SiblingLinks, p: int, c: int)
    requires SiblingsLinked(rings, heads, orphans, k) && p in heads && Pid(c) && forall q | 0 <= q < MAX_PROC :: c !in rings[q]
    ensures k.child[p] != c
  {
    if rings[p] != [] { assert rings[p][0] in rings[p]; }
  }

  lemma SiblingSlot(rings: seq<seq<int>>, heads: set<int>, orphans: set<int>, k: SiblingLinks, c: int)
    requires SiblingsLinked(rings, heads, orphans, k) && Pid(c) && rings[c] == []
    requires c !in orphans && forall q | 0 <= q < MAX_PROC :: c !in rings[q]
    ensures |k.next| == MAX_PROC && |k.prev| == MAX_PROC && |k.child| == MAX_PROC
    ensures SiblingsLinked(rings, heads + {c}, orphans, SiblingLinks(k.next[c := NULL], k.prev[c := NULL], k.child[c := NULL]))
  {
    hide IsRing;
    hide OrphansLinked;
    var k' := SiblingLinks(k.next[c := NULL], k.prev[c := NULL], k.child[c := NULL]);
    forall q | 0 <= q < MAX_PROC ensures IsRing(rings[q], k'.next, k'.prev) {
      Untouched(rings[q], k.next, k.prev, k'.next, k'.prev);
    }
    OrphansUntouched(orphans, k, k');
  }

  lemma FreeSlot(s: Sys, c: int)
    requires Shaped(s) && Children(s) && 2 <= c < MAX_PROC && s.procs[c].state == Free
    ensures s.rings[c] == [] && forall q | 0 <= q < MAX_PROC :: c !in s.rings[q]
  {
    forall q | 0 <= q < MAX_PROC ensures c !in s.rings[q] {
      assert !IsChild(s, q, c);
    }
  }

  lemma SpawnedProcs(s: Sys, p: int, c: int, priority: int)
    requires Shaped(s) && Pid(p) && Pid(c) && p != c && 0 <= priority <= MAX_PRIO
    ensures var t := ProcModel.ChangeState(Spawn(s, p, c, priority), c, Runnable);
      && t.procs[c].state == Runnable && !t.procs[c].orphan && t.curr == s.curr && t.last == s.last
      && forall x | 0 <= x < MAX_PROC && x != c :: t.procs[x].state == s.procs[x].state && t.procs[x].orphan == s.procs[x].orphan
  {
    hide ProcModel.ChangeState;
  }

  lemma UnlinkOne(rings: seq<seq<int>>, heads: set<int>, orphans: set<int>, k: SiblingLinks, p: int, c: int)
    requires SiblingsLinked(rings, heads, orphans, k) && p in heads && (c in rings[p] || c in orphans)
    ensures Pid(c) && 0 <= k.next[c] < MAX_PROC && 0 <= k.prev[c] < MAX_PROC && (k.prev[c] == c <==> k.next[c] == c)
    ensures SiblingsLinked(rings[p := Remove(rings[p], c)], heads, orphans - {c}, RemoveChild(k, p, c))
  {
    if c in rings[p] {
      RemoveChildKeeps(rings, heads, orphans, k, p, c);
      SingleLinks(rings[p], k.next, k.prev, c);
      assert orphans - {c} == orphans;
    } else {
      assert OrphanLinked(orphans, k, c);
      RemoveOrphanKeeps(rings, heads, orphans, k, p, c);
      RingDistinct(rings[p], k.next, k.prev);
      RemoveKeeps(rings[p], c);
      assert rings[p := rings[p]] == rings;
    }
  }

  // Following the links of a headed ring walks its sequence.
  lemma RingSteps(rings: seq<seq<int>>, heads: set<int>, orphans: set<int>, k: SiblingLinks, p: int)
    requires SiblingsLinked(rings, heads, orphans, k) && p in heads && rings[p] != []
    ensures k.child[p] == rings[p][0]
    ensures forall i | 0 <= i < |rings[p]| :: 0 <= rings[p][i] < MAX_PROC && k.next[rings[p][i]] == rings[p][After(i, |rings[p]|)]
    ensures forall i | 0 < i < |rings[p]| :: rings[p][i] != rings[p][0]
  {
    assert IsRing(rings[p], k.next, k.prev);
  }

  lemma EmptyHead(s: Sys, ring: seq<int>)
    requires Head(ring) == NULL && forall i | 0 <= i < |ring| :: 0 <= ring[i] < MAX_PROC
    ensures ring == []
  {
  }

  lemma ReapedSets(s: Sys, p: int, c: int)
    requires Shaped(s) && Pid(p) && Pid(c)
    ensures var t := Reap(s, p, c);
      && t.procs[c].state == (if p == c then Runnable else Free) && t.procs[p].state == Runnable
      && t.curr == s.curr && t.last == s.last
      && forall x | 0 <= x < MAX_PROC ::
           && t.procs[x].orphan == s.procs[x].orphan
           && (x != p && x != c ==> t.procs[x].state == s.procs[x].state)
  {
    hide ProcModel.ChangeState;
  }

  // ds' is ds with the first n members of a ring reparented to init.
  ghost predicate Reparented(ds: seq<Desc>, ds': seq<Desc>, ring: seq<int>, n: nat) {
    && |ds'| == |ds| && n <= |ring|
    && forall x | 0 <= x < |ds| :: ds'[x] == if x in ring[..n] then ds[x].(parent := INIT_PID) else ds[x]
  }

  lemma ReparentedNone(ds: seq<Desc>, ring: seq<int>)
    ensures Reparented(ds, ds, ring, 0)
  {}

  lemma ReparentedOne(ds: seq<Desc>, ds': seq<Desc>, ring: seq<int>, i: nat)
    requires Reparented(ds, ds', ring, i) && i < |ring| && 0 <= ring[i] < |ds'|
    ensures Reparented(ds, ds'[ring[i] := ds'[ring[i]].(parent := INIT_PID)], ring, i + 1)
  {
    assert ring[..i + 1] == ring[..i] + [ring[i]];
  }

  lemma ReparentedHold(ds: seq<Desc>, ds': seq<Desc>, xs: seq<Proc>, ring: seq<int>)
    requires AllHold(ds, xs) && Reparented(ds, ds', ring, |ring|) && forall i | 0 <= i < |ring| :: 0 <= ring[i] < MAX_PROC
    ensures AllHold(ds', Reparent(xs, ring))
  {
    hide Reparent;
    assert ring[..|ring|] == ring;
    forall p | 0 <= p < MAX_PROC ensures Holds(ds'[p], Reparent(xs, ring)[p]) {
      assert Holds(ds[p], xs[p]);
    }
  }

  lemma DepartLinks(s: Sys, e: Err, k: QueueLinks)
    requires Shaped(s) && RingsOk(s) && QueuesLinked(s, k)
    ensures QueuesLinked(Depart(s, e), k)
  {
    hide Reparent;
  }

  // After the departure: the ghost sets are those of the model but for p, and p is where its
  // parent will look for it.
  lemma ExitSets(s: Sys, e: Err, heads: set<int>, orphans: set<int>)
    requires Inv(s) && RingsOk(s) && s.last > 0 && s.procs[s.last].state == Runnable
    requires forall q | 0 <= q < MAX_PROC && !Gone(s.procs[q].state) :: q in heads
    requires forall c :: c in orphans <==> 2 <= c < MAX_PROC && s.procs[c].state != Free && s.procs[c].orphan
    ensures var t := Depart(s, e); var p := s.last; var all := orphans + (set c | c in s.rings[p]);
      && (forall q | 0 <= q < MAX_PROC && q != p && !Gone(t.procs[q].state) :: q in heads - {p})
      && (forall c :: c in all <==> 2 <= c < MAX_PROC && t.procs[c].state != Free && t.procs[c].orphan)
      && (t.procs[t.procs[p].parent].state == Waiting ==>
            t.procs[p].parent != p && t.procs[p].parent in heads - {p} && (p in t.rings[t.procs[p].parent] || p in all))
      && t.procs[p].state == Runnable
  {
    hide Queues;
    hide Rendezvous;
    hide Deliveries;
    hide History;
    hide Waiters;
    hide Depart;
    var t, p := Depart(s, e), s.last;
    DepartIs(s, e);
    DepartedChildren(s, t, p, e);
    DepartedParent(s, t, p, e);
    var all := orphans + (set c | c in s.rings[p]);
    forall c ensures c in all <==> 2 <= c < MAX_PROC && t.procs[c].state != Free && t.procs[c].orphan {
      assert c in s.rings[p] <==> IsChild(s, p, c);
    }
    var q := t.procs[p].parent;
    assert p in t.rings[q] <==> IsChild(t, q, p);
  }

  lemma LinkCounts(m: Sys, k: QueueLinks)
    requires Shaped(m) && QueuesLinked(m, k)
    ensures |k.count| == MAX_PRIO + 1 && k.total == RunnableCount(m)
    ensures forall prio | 0 <= prio <= MAX_PRIO :: k.count[prio] == |m.queues[prio]|
  {
    assert k.count == Lengths(m);
  }

  lemma RotateLinked(m: Sys, k: QueueLinks, prio: int)
    requires Shaped(m) && QueuesLinked(m, k) && 0 <= prio <= MAX_PRIO && m.queues[prio] != []
    ensures var q := m.queues[prio]; var r := q[1..] + [q[0]];
      && k.head[prio] == q[0] && 0 <= q[0] < |k.next|
      && QueuesLinked(m.(queues := m.queues[prio := r]), k.(head := k.head[prio := k.next[q[0]]]))
  {
    hide IsRing;
    LinksAt(m.queues[prio], k.next, k.prev, 0);
    Ring.RotateKeeps(m.queues[prio], k.next, k.prev);
  }
}
