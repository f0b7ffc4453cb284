/**
 Runs from boot that lose something for good. A child exits before its parent, the parent exits
 without having waited: the exit of the child is lost. A server receives again without having
 acknowledged: its client is blocked for ever.
 */
module ProcWitness {
  import opened ProcModel
  import opened ProcInvariants
  import opened ProcQueues
  import opened ProcRuns
  import opened ProcStaleAck
  import opened ProcOrphans
  import opened ProcAck

  const EXIT: Event := Trapping(ExitCall(0, 0))

  // Nobody waits for the running process: it leaves its queue as a zombie, nobody else moves.
  lemma ExitFacts(s: Sys)
    requires Inv(s) && RingsOk(s) && Running(s) && s.procs[s.curr].prio == MAX_PRIO
    requires s.procs[s.procs[s.curr].parent].state != Waiting
    ensures var k := Served(s, EXIT);
      && k.queues[MAX_PRIO] == Remove(s.queues[MAX_PRIO], s.curr)
      && (forall p | 0 <= p < MAX_PROC :: k.procs[p].prio == s.procs[p].prio && (s.procs[p].parent == INIT_PID ==> k.procs[p].parent == INIT_PID))
      && (forall p | 0 <= p < MAX_PROC && p != s.curr :: k.procs[p].state == s.procs[p].state)
      && k.procs[s.curr].state == Zombie && k.procs[s.curr].parent == s.procs[s.curr].parent && k.procs[s.curr].orphan == s.procs[s.curr].orphan
  {
    hide Queues;
    hide Waiters;
    hide Rendezvous;
    hide Deliveries;
    hide History;
    hide Depart;
    hide ChangeState;
    hide Remove;
    var a := Trap(s, EXIT.call, EXIT.err);
    var p, e := s.curr, Err(0, 0);
    var b := Depart(a, e);
    TrapKeeps(s, EXIT.call, EXIT.err);
    DepartedFrom(a, e);
    assert Served(s, EXIT) == ChangeState(b, p, Zombie);
    hide Served;
    LeavesQueue(b, p, Zombie);
    Elsewhere(b, p, Zombie);
  }

  lemma DepartedFrom(a: Sys, e: Err)
    requires Inv(a) && RingsOk(a) && a.last > 0 && a.procs[a.last].state == Runnable
    ensures var b := Depart(a, e);
      && b.queues == a.queues
      && (forall p | 0 <= p < MAX_PROC :: b.procs[p].prio == a.procs[p].prio && b.procs[p].state == a.procs[p].state
            && (a.procs[p].parent == INIT_PID ==> b.procs[p].parent == INIT_PID))
      && b.procs[a.last].parent == a.procs[a.last].parent && b.procs[a.last].orphan == a.procs[a.last].orphan
  {
    hide Queues;
    hide Waiters;
    hide Rendezvous;
    hide Deliveries;
    hide History;
    hide Reparent;
    assert a.last !in a.rings[a.last] by {
      assert a.last in a.rings[a.last] <==> IsChild(a, a.last, a.last);
    }
  }

  lemma ChildExits(s: Sys) returns (t: Sys)
    requires Scene(s, 3, [1, 2, 3], Runnable, Runnable, Runnable) && s.procs[2].parent == 1 && s.procs[3].parent == 2 && !s.procs[3].orphan
    ensures Step(s, EXIT, t) && Scene(t, 1, [2, 1], Runnable, Runnable, Zombie) && t.procs[2].parent == 1 && t.procs[3].parent == 2 && !t.procs[3].orphan
  {
    hide Roles;
    hide Queues;
    hide Children;
    hide Waiters;
    hide Rendezvous;
    hide Deliveries;
    hide History;
    hide Served;
    ExitFacts(s);
    var k := Served(s, EXIT);
    assert k.queues[MAX_PRIO] == [1] + [2];
    t := RunsHead(s, EXIT, 1, [2]);
  }

  // A call that fails gives the parent its turn.
  lemma InitYields(s: Sys) returns (t: Sys)
    requires Scene(s, 1, [2, 1], Runnable, Runnable, Zombie) && s.procs[2].parent == 1 && s.procs[3].parent == 2 && !s.procs[3].orphan
    ensures Step(s, SendTo(-1), t) && Scene(t, 2, [1, 2], Runnable, Runnable, Zombie) && t.procs[2].parent == 1 && t.procs[3].parent == 2 && !t.procs[3].orphan
  {
    hide Roles;
    hide Queues;
    hide Children;
    hide Waiters;
    hide Rendezvous;
    hide Deliveries;
    hide History;
    var k := Served(s, SendTo(-1));
    assert k.queues[MAX_PRIO] == [2] + [1];
    t := RunsHead(s, SendTo(-1), 2, [1]);
  }

  lemma ParentExits(s: Sys) returns (t: Sys)
    requires Scene(s, 2, [1, 2], Runnable, Runnable, Zombie) && s.procs[2].parent == 1 && s.procs[3].parent == 2 && !s.procs[3].orphan
    ensures Step(s, EXIT, t) && Shaped(t) && Lost(t, 3)
  {
    hide Roles;
    hide Queues;
    hide Waiters;
    hide Rendezvous;
    hide Deliveries;
    hide History;
    hide Served;
    assert 3 in s.rings[2] <==> IsChild(s, 2, 3);
    hide Children;
    ExitFacts(s);
    var k := Served(s, EXIT);
    assert k.queues[MAX_PRIO] == [1] + [];
    t := RunsHead(s, EXIT, 1, []);
    hide Step;
    StepLosesIff(s, EXIT, t, 3);
  }

  // From boot: fork, fork, exit of the grandchild, a turn of init, exit of the child; the
  // grandchild is lost.
  lemma ExitLosesChild() returns (states: seq<Sys>, events: seq<Event>)
    ensures Run(states, events) && states[0] == Boot()
    ensures var s := states[|states| - 1]; Shaped(s) && Lost(s, 3)
  {
    hide Inv;
    hide Step;
    var s0 := Boot();
    BootScene();
    var s1 := InitForks(s0);
    var s2 := ClientForks(s1);
    var s3 := ChildExits(s2);
    var s4 := InitYields(s3);
    var s5 := ParentExits(s4);
    states := [s0, s1, s2, s3, s4, s5];
    events := [FORK, FORK, EXIT, SendTo(-1), EXIT];
  }

  // From boot: two forks, receives of the grandchild and of init, a send of the child to init,
  // and a second receive of init; the child is stranded.
  lemma ReceiveStrandsClient() returns (states: seq<Sys>, events: seq<Event>)
    ensures Run(states, events) && states[0] == Boot()
    ensures var s := states[|states| - 1]; Shaped(s) && Stranded(s, 2)
  {
    hide Inv;
    hide Step;
    var s0 := Boot();
    BootScene();
    var s1 := InitForks(s0);
    var s2 := ClientForks(s1);
    var s3 := ServerListens(s2);
    var s4 := InitListens(s3);
    var s5 := ClientSends(s4);
    var s6 := Progress(s5, RECEIVE);
    StepStrandsIff(s5, RECEIVE, s6, 2);
    states := [s0, s1, s2, s3, s4, s5, s6];
    events := [FORK, FORK, RECEIVE, RECEIVE, SendTo(1), RECEIVE];
  }
}
