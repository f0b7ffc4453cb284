/**
 Rings, waiting and zombies: no exit of a child is lost, and each is reaped at most once.
 */
module ProcFamily {
  import opened ProcModel
  import opened ProcErrors
  import opened ProcInvariants
  import opened ProcQueues

  ghost predicate Family(s: Sys)
    requires Shaped(s)
  {
    Roles(s) && Children(s) && Waiters(s) && History(s)
  }

  // States that only channels and dispatch distinguish.
  ghost predicate Active(st: ProcState) {
    st == Runnable || st == SendingCh || st == ListeningCh || st == WaitListener
  }

  // t differs from s in what channels do only.
  ghost predicate ActiveMove(s: Sys, t: Sys)
    requires Shaped(s) && Shaped(t)
  {
    && t.rings == s.rings && t.exits == s.exits && t.reaps == s.reaps && t.exitErr == s.exitErr
    && (forall p | 0 <= p < MAX_PROC ::
          && t.procs[p].parent == s.procs[p].parent && t.procs[p].orphan == s.procs[p].orphan
          && t.procs[p].initialized == s.procs[p].initialized
          && (t.procs[p].state == s.procs[p].state || (Active(s.procs[p].state) && Active(t.procs[p].state)))
          && (s.procs[p].state == Zombie ==> t.procs[p].err == s.procs[p].err))
  }

  lemma ActiveMoveChildren(s: Sys, t: Sys)
    requires Shaped(s) && Children(s) && Shaped(t) && ActiveMove(s, t)
    ensures Children(t)
  {
    forall q, c | 0 <= q < MAX_PROC ensures c in t.rings[q] <==> IsChild(t, q, c) {
      assert c in s.rings[q] <==> IsChild(s, q, c);
    }
  }

  lemma ActiveMoveWaiters(s: Sys, t: Sys)
    requires Shaped(s) && Waiters(s) && Shaped(t) && ActiveMove(s, t)
    ensures Waiters(t)
  {
    forall q, c | 0 <= q < MAX_PROC && t.procs[q].state == Waiting && IsChild(t, q, c) ensures t.procs[c].state != Zombie {
      assert IsChild(s, q, c);
    }
  }

  lemma ActiveMoveRoles(s: Sys, t: Sys)
    requires Shaped(s) && Roles(s) && Shaped(t) && ActiveMove(s, t)
    ensures Roles(t)
  {
  }

  lemma ActiveMoveHistory(s: Sys, t: Sys)
    requires Shaped(s) && History(s) && Shaped(t) && ActiveMove(s, t)
    ensures History(t)
  {
  }

  lemma ActiveMoveKeeps(s: Sys, t: Sys)
    requires Shaped(s) && Family(s) && Shaped(t) && ActiveMove(s, t)
    ensures Family(t)
  {
    hide Roles;
    hide Children;
    hide Waiters;
    hide History;
    hide ActiveMove;
    ActiveMoveRoles(s, t);
    ActiveMoveChildren(s, t);
    ActiveMoveWaiters(s, t);
    ActiveMoveHistory(s, t);
  }

  // ---------- fork ----------

  // t is s with a new child c at the head of p's ring.
  ghost predicate Born(s: Sys, t: Sys, p: int, c: int)
    requires Shaped(s) && Shaped(t) && Pid(p)
  {
    && 2 <= c < MAX_PROC && p != c && s.procs[c].state == Free && s.procs[p].state == Runnable
    && t.rings == s.rings[p := [c] + s.rings[p]] && t.exits == s.exits && t.reaps == s.reaps && t.exitErr == s.exitErr
    && (forall x | 0 <= x < MAX_PROC && x != c ::
          && t.procs[x].state == s.procs[x].state && t.procs[x].parent == s.procs[x].parent && t.procs[x].err == s.procs[x].err
          && t.procs[x].orphan == s.procs[x].orphan && t.procs[x].initialized == s.procs[x].initialized)
    && t.procs[c].state == Runnable && t.procs[c].parent == p && !t.procs[c].orphan && t.procs[c].initialized
  }

  lemma SpawnBorn(s: Sys, p: int, c: int, priority: int)
    requires Shaped(s) && Pid(p) && 2 <= c < MAX_PROC && 0 <= priority <= MAX_PRIO
    requires s.procs[p].state == Runnable && s.procs[c].state == Free
    ensures Born(s, ChangeState(Spawn(s, p, c, priority), c, Runnable), p, c)
  {
    hide ChangeState;
    var a := Spawn(s, p, c, priority);
    var t := ChangeState(a, c, Runnable);
    assert t.procs[c] == NewProc(p, priority, s.procs[p].err).(state := Runnable);
    forall x | 0 <= x < MAX_PROC && x != c
      ensures t.procs[x] == if x == p then s.procs[p].(reg0 := c) else s.procs[x]
    {
    }
  }

  lemma BornChildren(s: Sys, t: Sys, p: int, c: int)
    requires Shaped(s) && Shaped(t) && Pid(p) && Children(s) && Born(s, t, p, c)
    ensures Children(t)
  {
    forall q, x | 0 <= q < MAX_PROC ensures x in t.rings[q] <==> IsChild(t, q, x) {
      assert x in s.rings[q] <==> IsChild(s, q, x);
    }
    assert c !in s.rings[p] by {
      assert !IsChild(s, p, c);
    }
  }

  lemma BornWaiters(s: Sys, t: Sys, p: int, c: int)
    requires Shaped(s) && Shaped(t) && Pid(p) && Waiters(s) && Born(s, t, p, c)
    ensures Waiters(t)
  {
    forall q, x | 0 <= q < MAX_PROC && t.procs[q].state == Waiting && IsChild(t, q, x)
      ensures t.procs[x].state != Zombie
    {
      assert x != c ==> IsChild(s, q, x);
    }
  }

  lemma BornRoles(s: Sys, t: Sys, p: int, c: int)
    requires Shaped(s) && Shaped(t) && Pid(p) && Roles(s) && Born(s, t, p, c)
    ensures Roles(t)
  {
  }

  lemma BornHistory(s: Sys, t: Sys, p: int, c: int)
    requires Shaped(s) && Shaped(t) && Pid(p) && History(s) && Born(s, t, p, c)
    ensures History(t)
  {
  }

  lemma FailFamily(s: Sys, p: int, no: int)
    requires Shaped(s) && Family(s) && Pid(p) && s.procs[p].state == Runnable
    ensures Family(Fail(s, p, no))
  {
    hide Family;
    ActiveMoveKeeps(s, Fail(s, p, no));
  }

  lemma ForkFamily(s: Sys, priority: int)
    requires Shaped(s) && Family(s) && priority >= 0 && s.last > 0 && s.procs[s.last].state == Runnable
    ensures Family(ForkSys(s, priority))
  {
    hide Roles;
    hide Children;
    hide Waiters;
    hide History;
    hide ChangeState;
    hide FindFree;
    hide Spawn;
    hide Fail;
    hide Born;
    var p := s.last;
    var c := FindFree(s, 2);
    if c == MAX_PROC {
      FailFamily(s, p, MAX_PROC_REACHED);
    } else if priority > s.procs[p].prio {
      FailFamily(s, p, TOO_HIGH_CHILD_PRIORITY);
    } else {
      var t := ChangeState(Spawn(s, p, c, priority), c, Runnable);
      SpawnBorn(s, p, c, priority);
      BornRoles(s, t, p, c);
      BornChildren(s, t, p, c);
      BornWaiters(s, t, p, c);
      BornHistory(s, t, p, c);
    }
  }

  // ---------- reaping ----------

  // s after the call that makes c ready to be reaped by q: in q's ring, or an orphan of init.
  ghost predicate Reapable(s: Sys, q: int, c: int)
    requires Shaped(s)
  {
    && 0 < q < MAX_PROC && 2 <= c < MAX_PROC && q != c
    && (s.procs[q].state == Runnable || s.procs[q].state == Waiting)
    && s.procs[c].parent == q && s.procs[c].state != Free && s.rings[c] == []
  }

  lemma ReapRings(s: Sys, q: int, c: int)
    requires Shaped(s) && Children(s) && Reapable(s, q, c)
    ensures Children(Reap(s, q, c))
  {
    hide ChangeState;
    var t := Reap(s, q, c);
    RemoveKeeps(s.rings[q], c);
    forall o, x | 0 <= o < MAX_PROC ensures x in t.rings[o] <==> IsChild(t, o, x) {
      assert x in s.rings[o] <==> IsChild(s, o, x);
    }
  }

  lemma ReapWaiters(s: Sys, q: int, c: int)
    requires Shaped(s) && Children(s) && Reapable(s, q, c)
    requires forall o | 0 <= o < MAX_PROC && o != q && s.procs[o].state == Waiting :: s.rings[o] != []
    requires forall o, x | 0 <= o < MAX_PROC && o != q && s.procs[o].state == Waiting && IsChild(s, o, x) :: s.procs[x].state != Zombie
    ensures Waiters(Reap(s, q, c))
  {
    hide ChangeState;
    var t := Reap(s, q, c);
    forall o, x | 0 <= o < MAX_PROC && t.procs[o].state == Waiting && IsChild(t, o, x)
      ensures t.procs[x].state != Zombie
    {
      assert IsChild(s, o, x);
    }
  }

  lemma ReapRoles(s: Sys, q: int, c: int)
    requires Shaped(s) && Roles(s) && Reapable(s, q, c)
    ensures Roles(Reap(s, q, c))
  {
    hide ChangeState;
  }

  lemma ReapHistory(s: Sys, q: int, c: int)
    requires Shaped(s) && Reapable(s, q, c)
    requires forall p | 0 <= p < MAX_PROC && p != c :: s.exits[p] == s.reaps[p] + if s.procs[p].state == Zombie then 1 else 0
    requires s.exits[c] == s.reaps[c] + 1
    requires forall p | 0 <= p < MAX_PROC && s.procs[p].state == Zombie :: s.procs[p].err == s.exitErr[p]
    ensures History(Reap(s, q, c))
  {
    hide ChangeState;
  }

  // wait reaps the first zombie of the ring.
  lemma WaitReaps(s: Sys)
    requires Shaped(s) && Family(s) && RingsOk(s) && s.last > 0 && s.procs[s.last].state == Runnable
    requires FirstZombie(s, s.rings[s.last]) < |s.rings[s.last]|
    ensures Family(WaitSys(s))
    ensures var c := s.rings[s.last][FirstZombie(s, s.rings[s.last])];
      Reapable(s, s.last, c) && WaitSys(s) == Reap(s, s.last, c)
  {
    hide Waiters;
    hide Reap;
    var p := s.last;
    var ring := s.rings[p];
    var c := ring[FirstZombie(s, ring)];
    assert c in ring;
    assert IsChild(s, p, c);
    ReapRings(s, p, c);
    NobodyMissesOut(s, p);
    ReapWaiters(s, p, c);
    ReapRoles(s, p, c);
    ReapHistory(s, p, c);
  }

  // wait hands over the error that its first zombie child gave to exit: all exits of that
  // child are now reaped, once each, and its slot is free.
  lemma WaitDelivers(s: Sys)
    requires Shaped(s) && Family(s) && RingsOk(s) && s.last > 0 && s.procs[s.last].state == Runnable
    requires FirstZombie(s, s.rings[s.last]) < |s.rings[s.last]|
    ensures var p := s.last; var t := WaitSys(s); var k := FirstZombie(s, s.rings[p]); var c := s.rings[p][k];
      && (forall i | 0 <= i < k :: s.procs[s.rings[p][i]].state != Zombie)
      && t.procs[p].state == Runnable && t.procs[p].reg0 == c
      && (s.procs[p].reg0 != 0 ==> ErrorPending(t.procs[p].pending, s.procs[p].reg0, s.exitErr[c], c))
      && t.procs[c].state == Free && s.exits[c] == s.reaps[c] + 1 && t.reaps[c] == t.exits[c] == s.exits[c]
  {
    hide ChangeState;
    hide Children;
    hide Waiters;
    hide ErrBytes;
    hide ReadsAs;
    WaitReaps(s);
    ErrorIsHeld(s.procs[s.rings[s.last][FirstZombie(s, s.rings[s.last])]].err);
  }

  // exit hands the error to a parent that waits, and otherwise keeps it with the zombie.
  lemma ExitDelivers(s: Sys, no: int, data: int)
    requires Shaped(s) && Family(s) && RingsOk(s) && s.last > 0 && s.procs[s.last].state == Runnable
    ensures var p := s.last; var t := ExitSys(s, no, data); var q := s.procs[p].parent;
      if s.procs[q].state == Waiting then
        && t.procs[p].state == Free && t.procs[q].state == Runnable && t.procs[q].reg0 == p
        && t.exits[p] == t.reaps[p] == s.exits[p] + 1
        && (s.procs[q].reg0 != 0 ==> ErrorPending(t.procs[q].pending, s.procs[q].reg0, Err(no, data), p))
      else
        && t.procs[p].state == Zombie && t.procs[p].err == Err(no, data) == t.exitErr[p]
        && t.exits[p] == t.reaps[p] + 1 && t.procs[q].pending == s.procs[q].pending
  {
    hide Depart;
    hide Reap;
    hide ChangeState;
    var p, q := s.last, s.procs[s.last].parent;
    ParentIsElsewhere(s);
    assert s.exits[p] == s.reaps[p];
    hide Family;
    DepartFacts(s, Err(no, data));
    var b := Depart(s, Err(no, data));
    ErrorIsHeld(Err(no, data));
    hide ReadsAs;
    if s.procs[q].state == Waiting {
      ReapFacts(b, q, p);
    }
  }

  lemma DepartFacts(s: Sys, e: Err)
    requires Shaped(s) && RingsOk(s) && s.last !in s.rings[s.last]
    ensures var p := s.last; var b := Depart(s, e); var q := s.procs[p].parent;
      && b.procs[p].parent == q && b.procs[p].err == e == b.exitErr[p] && b.procs[p].state == s.procs[p].state
      && b.procs[q].state == s.procs[q].state && b.procs[q].reg0 == s.procs[q].reg0 && b.procs[q].pending == s.procs[q].pending
      && b.exits[p] == s.exits[p] + 1 && b.reaps == s.reaps
  {}

  lemma ReapFacts(b: Sys, q: int, c: int)
    requires Shaped(b) && Pid(q) && Pid(c) && q != c
    ensures var t := Reap(b, q, c);
      && t.procs[c].state == Free && t.procs[q].state == Runnable && t.procs[q].reg0 == c
      && t.exits == b.exits && t.reaps[c] == b.reaps[c] + 1
      && (b.procs[q].reg0 != 0 ==> t.procs[q].pending == Delivery(b.procs[q].reg0, ErrBytes(b.procs[c].err), FromChild(c)))
  {
    hide ChangeState;
    hide ErrBytes;
  }

  // A process is not in its own ring.
  lemma ParentIsElsewhere(s: Sys)
    requires Shaped(s) && Family(s) && s.last > 0 && s.procs[s.last].state == Runnable
    ensures s.last !in s.rings[s.last]
  {
    assert s.last in s.rings[s.last] <==> IsChild(s, s.last, s.last);
  }

  lemma NobodyMissesOut(s: Sys, q: int)
    requires Shaped(s) && Waiters(s)
    ensures forall o | 0 <= o < MAX_PROC && o != q && s.procs[o].state == Waiting :: s.rings[o] != []
    ensures forall o, x | 0 <= o < MAX_PROC && o != q && s.procs[o].state == Waiting && IsChild(s, o, x) :: s.procs[x].state != Zombie
  {
  }

  lemma WaitFamily(s: Sys)
    requires Shaped(s) && Family(s) && RingsOk(s) && s.last > 0 && s.procs[s.last].state == Runnable
    ensures Family(WaitSys(s))
  {
    hide Family;
    var ring := s.rings[s.last];
    if ring == [] {
      ActiveMoveKeeps(s, WaitSys(s));
    } else if FirstZombie(s, ring) < |ring| {
      WaitReaps(s);
    } else {
      WaitBlocks(s);
    }
  }

  // Blocking in wait means that no child is a zombie.
  lemma WaitBlocks(s: Sys)
    requires Shaped(s) && Family(s) && RingsOk(s) && s.last > 0 && s.procs[s.last].state == Runnable
    requires s.rings[s.last] != [] && FirstZombie(s, s.rings[s.last]) == |s.rings[s.last]|
    ensures Family(ChangeState(s, s.last, Waiting))
  {
    hide ChangeState;
    var p := s.last;
    var ring := s.rings[p];
    var t := ChangeState(s, p, Waiting);
    forall q, c | 0 <= q < MAX_PROC ensures IsChild(t, q, c) <==> IsChild(s, q, c) {
    }
    forall c | IsChild(s, p, c) ensures s.procs[c].state != Zombie {
      assert c in ring;
      var i :| 0 <= i < |ring| && ring[i] == c;
    }
  }

  // ---------- exit ----------

  // t is s after p's children were orphaned and its exit was recorded.
  ghost predicate Departed(s: Sys, t: Sys, p: int, e: Err)
    requires Shaped(s) && Shaped(t) && Pid(p)
  {
    && t.rings == s.rings[p := []] && t.reaps == s.reaps
    && t.exits == s.exits[p := s.exits[p] + 1] && t.exitErr == s.exitErr[p := e]
    && (forall x | 0 <= x < MAX_PROC ::
          && t.procs[x].state == s.procs[x].state && t.procs[x].initialized == s.procs[x].initialized
          && t.procs[x].err == (if x == p then e else s.procs[x].err)
          && t.procs[x].parent == (if x in s.rings[p] then INIT_PID else s.procs[x].parent)
          && t.procs[x].orphan == (if x in s.rings[p] then true else s.procs[x].orphan))
  }

  lemma DepartIs(s: Sys, e: Err)
    requires Shaped(s) && RingsOk(s)
    ensures Departed(s, Depart(s, e), s.last, e)
  {
    hide Reparent;
    var t := Depart(s, e);
    var a := s.procs[s.last := s.procs[s.last].(err := e)];
    forall x | 0 <= x < MAX_PROC
      ensures t.procs[x] == if x in s.rings[s.last] then a[x].(parent := INIT_PID, orphan := true) else a[x]
    {
    }
  }

  lemma DepartedChildren(s: Sys, t: Sys, p: int, e: Err)
    requires Shaped(s) && Shaped(t) && Pid(p) && Children(s) && Departed(s, t, p, e)
    ensures Children(t)
    ensures forall o, x | 0 <= o < MAX_PROC && IsChild(t, o, x) :: o != p && IsChild(s, o, x)
  {
    forall o, x | 0 <= o < MAX_PROC
      ensures x in t.rings[o] <==> IsChild(t, o, x)
      ensures IsChild(t, o, x) ==> o != p && IsChild(s, o, x)
    {
      assert x in s.rings[o] <==> IsChild(s, o, x);
      assert x in s.rings[p] <==> IsChild(s, p, x);
    }
    forall x | x in s.rings[p] ensures 2 <= x < MAX_PROC {
      assert IsChild(s, p, x);
    }
  }

  // The exiting process, and the parent that it names.
  lemma DepartedParent(s: Sys, t: Sys, p: int, e: Err)
    requires Shaped(s) && Shaped(t) && 0 < p < MAX_PROC && Roles(s) && Children(s) && Departed(s, t, p, e)
    requires s.procs[p].state == Runnable
    ensures Roles(t)
    ensures t.procs[p].parent == s.procs[p].parent
    ensures s.procs[s.procs[p].parent].state == Waiting ==> Reapable(t, s.procs[p].parent, p)
  {
    assert p in s.rings[p] <==> IsChild(s, p, p);
    assert INIT_PID in s.rings[p] <==> IsChild(s, p, INIT_PID);
    forall x | 0 <= x < MAX_PROC && x in s.rings[p] ensures 2 <= x {
      assert IsChild(s, p, x);
    }
  }

  // The waiting parent is handed the exit.
  lemma ExitReaped(s: Sys, t: Sys, p: int, e: Err)
    requires Shaped(s) && Shaped(t) && 0 < p < MAX_PROC && Family(s) && Departed(s, t, p, e) && s.procs[p].state == Runnable
    requires Children(t) && Roles(t) && Reapable(t, s.procs[p].parent, p)
    requires forall o, x | 0 <= o < MAX_PROC && IsChild(t, o, x) :: o != p && IsChild(s, o, x)
    ensures Family(Reap(t, s.procs[p].parent, p))
  {
    hide Children;
    hide Reap;
    var q := s.procs[p].parent;
    ReapRings(t, q, p);
    ReapRoles(t, q, p);
    ReapHistory(t, q, p);
    ReapWaiters(t, q, p);
  }

  // Nobody waits: the process becomes a zombie.
  lemma ExitZombie(s: Sys, t: Sys, p: int, e: Err)
    requires Shaped(s) && Shaped(t) && 0 < p < MAX_PROC && Family(s) && Departed(s, t, p, e) && s.procs[p].state == Runnable
    requires Children(t) && Roles(t) && t.procs[p].parent == s.procs[p].parent
    requires forall o, x | 0 <= o < MAX_PROC && IsChild(t, o, x) :: o != p && IsChild(s, o, x)
    requires s.procs[s.procs[p].parent].state != Waiting
    ensures Family(ChangeState(t, p, Zombie))
  {
    hide ChangeState;
    hide Children;
    ZombieChildren(t, p);
    ZombieWaiters(s, t, p, e);
    hide Waiters;
    var z := ChangeState(t, p, Zombie);
    assert forall x | 0 <= x < MAX_PROC && x != p :: z.procs[x] == t.procs[x];
  }

  lemma ZombieWaiters(s: Sys, t: Sys, p: int, e: Err)
    requires Shaped(s) && Shaped(t) && 0 < p < MAX_PROC && Waiters(s) && Departed(s, t, p, e) && s.procs[p].state == Runnable
    requires t.procs[p].parent == s.procs[p].parent && s.procs[s.procs[p].parent].state != Waiting
    requires forall o, x | 0 <= o < MAX_PROC && IsChild(t, o, x) :: o != p && IsChild(s, o, x)
    ensures Waiters(ChangeState(t, p, Zombie))
  {
    hide ChangeState;
    var z := ChangeState(t, p, Zombie);
    forall o, x | 0 <= o < MAX_PROC && z.procs[o].state == Waiting && IsChild(z, o, x)
      ensures z.procs[x].state != Zombie
    {
      assert IsChild(t, o, x);
    }
  }

  lemma ZombieChildren(t: Sys, p: int)
    requires Shaped(t) && Children(t) && 0 < p < MAX_PROC && t.procs[p].state == Runnable && t.rings[p] == []
    ensures Children(ChangeState(t, p, Zombie))
  {
    hide ChangeState;
    var z := ChangeState(t, p, Zombie);
    forall o, x | 0 <= o < MAX_PROC ensures x in z.rings[o] <==> IsChild(z, o, x) {
      assert x in t.rings[o] <==> IsChild(t, o, x);
    }
  }

  lemma ExitFamily(s: Sys, no: int, data: int)
    requires Shaped(s) && Family(s) && RingsOk(s) && s.last > 0 && s.procs[s.last].state == Runnable
    ensures Family(ExitSys(s, no, data))
  {
    hide Reap;
    hide ChangeState;
    hide Depart;
    hide Waiters;
    hide History;
    var p, e := s.last, Err(no, data);
    var t := Depart(s, e);
    DepartIs(s, e);
    DepartedChildren(s, t, p, e);
    DepartedParent(s, t, p, e);
    if s.procs[s.procs[p].parent].state == Waiting {
      ExitReaped(s, t, p, e);
    } else {
      ExitZombie(s, t, p, e);
    }
  }
}
