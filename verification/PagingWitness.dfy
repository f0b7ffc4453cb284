/**
 Runs from boot on which the bookkeeping of frames goes wrong: a write fault that costs a frame
 for good, and a wrapped counter that lets one process read what another wrote.
 */
module PagingWitness {
  import opened Bytes
  import opened PagingModel
  import opened PagingSafety
  import opened PagingFork
  import opened PagingRuns
  import opened PagingCounters
  import opened PagingBoot

  // The first n frames after boot are RAM.
  lemma BootFrames(id: nat, mem: seq<Content>, n: nat)
    requires id + 4 + n < TIMER_PAGE && |mem| == N_FRAMES
    ensures FramesLeft(Boot(id, mem), n)
    ensures forall i | 0 <= i < n :: Boot(id, mem).free[i] == id + 4 + i
  {
    var s := Boot(id, mem);
    forall i | 0 <= i < n ensures s.free[i] == id + 4 + i {
      assert s.free[i] == InitialFree(id)[i + 4] == InitialFrame(id, i + 4);
    }
  }

  // init touches a page of its heap.
  lemma FirstPage(id: nat, mem: seq<Content>, page: nat, n: nat) returns (s: State)
    requires id + 5 + n < TIMER_PAGE && |mem| == N_FRAMES && page < TIMER_PAGE && n > 0
    ensures RunsTo(Boot(id, mem), [HeapFault(1, page, true)], s)
    ensures Inv(s) && Exact(s, {}) && s.live == {0, 1} && HasStack(s, 1)
    ensures forall pid | 2 <= pid < N_PROC :: s.tables[pid] == map[]
    ensures s.tables[1] == BootTable(id, 1)[page := Pte(id + 4, UserPage)] && s.counter[id + 4] == 1
    ensures FramesLeft(s, n) && s.free[0] == id + 5
  {
    var b := Boot(id, mem);
    BootKeeps(id, mem);
    BootFrames(id, mem, n + 1);
    var op := HeapFault(1, page, true);
    assert Enabled(b, op);
    s := Step(b, op);
    assert s.free == b.free[1..] && s.tables[1] == BootTable(id, 1)[page := Pte(id + 4, UserPage)] && s.counter[id + 4] == 1;
    hide Inv;
    hide Exact;
    FramesShift(b, s, n);
    StepKeeps(b, op);
    StepExact(b, op, {});
    BootStep(b, op);
  }

  lemma FramesShift(b: State, s: State, n: nat)
    requires FramesLeft(b, n + 1) && s.free == b.free[1..]
    ensures FramesLeft(s, n)
  {
    assert forall i | 0 <= i < n :: s.free[i] == b.free[i + 1];
  }

  lemma BootStep(b: State, op: Op)
    requires Shaped(b) && Enabled(b, op) && NoWrap(b, op)
    ensures RunsTo(b, [op], Step(b, op))
  {
    hide Step;
    hide Enabled;
    hide NoWrap;
    assert RunsTo(b, [], b);
    OneMore(b, [], b, op);
    assert [] + [op] == [op];
  }

  // ---------- a write fault leaks a frame ----------

  // After the fork the page is shared and its counter is 2.
  lemma SharedPage(s: State, page: nat, f: nat)
    requires Inv(s) && ForkEnabled(s, 1, 2) && Shares(s, 1, page, f) && f < N_FRAMES && s.counter[f] == 1
    ensures var t := Fork(s, 1, 2);
      && page in t.tables[1] && t.tables[1][page] == Pte(f, ForkedPage) && t.counter[f] == 2
      && t.free == s.free[2..] && t.live == s.live + {2}
  {
    ForkIs(s, 1, 2);
    NotFresh(s, 1, 0);
    NotFresh(s, 1, 1);
  }

  // init forks, writes the page it now shares, and frees it: the frame of the copy has counter 2
  // for its one mapping, and counter 1 for none.
  lemma WriteFaultLeaks(id: nat, mem: seq<Content>, page: nat, b: Byte) returns (w: State, t: State, g: nat)
    requires id + 16 < TIMER_PAGE && |mem| == N_FRAMES && page < TIMER_PAGE
    ensures RunsTo(Boot(id, mem), [HeapFault(1, page, true), ForkOp(1, 2), WriteOp(1, page, 0, b, true)], w)
    ensures Inv(w) && g < N_FRAMES && w.counter[g] == 2 && Mappings(w, g) == {Slot(1, page)}
    ensures Enabled(w, FreeOp(1, page)) && t == Step(w, FreeOp(1, page)) && Inv(t) && Leaked(t, g)
  {
    hide Boot;
    hide Step;
    hide Enabled;
    hide NoWrap;
    hide Inv;
    hide RunsTo;
    hide Leaked;
    var s := FirstPage(id, mem, page, 8);
    ForkedOnce(s, page, id + 4);
    var fork, write := ForkOp(1, 2), WriteOp(1, page, 0, b, true);
    var k := Step(s, fork);
    w, t, g := WriteThenFree(k, page, b);
    OneMore(Boot(id, mem), [HeapFault(1, page, true)], s, fork);
    assert [HeapFault(1, page, true)] + [fork] == [HeapFault(1, page, true), fork];
    OneMore(Boot(id, mem), [HeapFault(1, page, true), fork], k, write);
    assert [HeapFault(1, page, true), fork] + [write] == [HeapFault(1, page, true), fork, write];
  }

  lemma ForkedOnce(s: State, page: nat, f: nat)
    requires Inv(s) && Exact(s, {}) && s.live == {0, 1} && HasStack(s, 1) && s.tables[2] == map[] && FramesLeft(s, 8)
    requires page in s.tables[1] && page < TIMER_PAGE && s.tables[1][page].frame == f && f < N_FRAMES && s.counter[f] == 1
    ensures var op := ForkOp(1, 2); Shaped(s) && Enabled(s, op) && NoWrap(s, op)
    ensures var k := Step(s, ForkOp(1, 2));
      && Inv(k) && 1 in k.live && page in k.tables[1] && FramesLeft(k, 1)
      && k.tables[1][page].perm == ForkedPage && k.counter[k.tables[1][page].frame] == 2
  {
    hide *;
    CanFork(s, page, f);
    SharedPage(s, page, f);
    ExactRoom(s, 1, {});
    ForkKeepsIff(s, 1, 2);
    StepIsFork(s, 1, 2);
    OneLeft(s, Fork(s, 1, 2));
  }

  lemma CanFork(s: State, page: nat, f: nat)
    requires Inv(s) && s.live == {0, 1} && HasStack(s, 1) && FramesLeft(s, 8)
    requires page in s.tables[1] && page < TIMER_PAGE && s.tables[1][page].frame == f
    ensures Shaped(s) && Shares(s, 1, page, f) && ForkEnabled(s, 1, 2) && 2 < N_PROC && 1 in s.live && |s.free| > 1
  {
  }

  lemma OneLeft(s: State, t: State)
    requires FramesLeft(s, 8) && t.free == s.free[2..]
    ensures FramesLeft(t, 1)
  {
    assert t.free[0] == s.free[2];
  }

  lemma StepIsFork(s: State, parent: nat, child: nat)
    requires Shaped(s) && ForkEnabled(s, parent, child)
    ensures Enabled(s, ForkOp(parent, child)) && Step(s, ForkOp(parent, child)) == Fork(s, parent, child)
    ensures NoWrap(s, ForkOp(parent, child)) <==> RoomToShare(s, parent)
  {
  }

  lemma WriteThenFree(k: State, page: nat, b: Byte) returns (w: State, t: State, g: nat)
    requires Inv(k) && 1 in k.live && page in k.tables[1] && page < TIMER_PAGE && FramesLeft(k, 1)
    requires k.tables[1][page].perm == ForkedPage && k.counter[k.tables[1][page].frame] == 2
    ensures var op := WriteOp(1, page, 0, b, true); Enabled(k, op) && NoWrap(k, op) && w == Step(k, op)
    ensures Inv(w) && g < N_FRAMES && w.counter[g] == 2 && Mappings(w, g) == {Slot(1, page)}
    ensures Enabled(w, FreeOp(1, page)) && t == Step(w, FreeOp(1, page)) && Inv(t) && Leaked(t, g)
  {
    var write := WriteOp(1, page, 0, b, true);
    g := k.free[0];
    StepKeeps(k, write);
    w := Step(k, write);
    FaultedFrame(k, write);
    t := Step(w, FreeOp(1, page));
    StepKeeps(w, FreeOp(1, page));
    LastMapping(w, page, g);
  }

  lemma FaultedFrame(k: State, op: Op)
    requires Inv(k) && Enabled(k, op) && Copies(k, op)
    ensures var w := Step(k, op); var g := k.free[0];
      w.tables[op.pid][op.page].frame == g && w.counter[g] == 2 && Mappings(w, g) == {Slot(op.pid, op.page)} && w.live == k.live
  {
    var g := k.free[0];
    var w := Step(k, op);
    MappedIsCounted(k, op.pid, op.page);
    MappingsAfterPut(k, w, op.pid, op.page, w.tables[op.pid][op.page], g);
    forall q, p ensures Slot(q, p) !in Mappings(k, g) {
      FreshIsUnmapped(k, q, p, g);
      MapsIffMapping(k, q, p, g);
    }
  }

  lemma LastMapping(w: State, page: nat, g: nat)
    requires Inv(w) && page in w.tables[1] && w.tables[1][page].frame == g && w.counter[g] == 2 && Mappings(w, g) == {Slot(1, page)}
    ensures Leaked(Release(w, 1, page), g)
  {
    assert UserEntry(w, 1, page);
    MappingsAfterRelease(w, 1, page, g);
  }

  // A run goes on by one step.
  lemma {:induction false} OneMore(s: State, ops: seq<Op>, t: State, a: Op)
    requires RunsTo(s, ops, t) && Enabled(t, a) && NoWrap(t, a)
    ensures RunsTo(s, ops + [a], Step(t, a))
    decreases |ops|
  {
    hide Step;
    hide Enabled;
    hide NoWrap;
    if ops == [] {
      assert t == s && RunsTo(Step(t, a), [], Step(t, a));
      OneStep(s, a, [], Step(t, a));
      assert [a] + [] == ops + [a];
    } else {
      assert Shaped(Step(s, ops[0]));
      OneMore(Step(s, ops[0]), ops[1..], t, a);
      OneStep(s, ops[0], ops[1..] + [a], Step(t, a));
      assert [ops[0]] + (ops[1..] + [a]) == ops + [a];
    }
  }

  // ---------- a wrapped counter lets a write through ----------

  // The counter of a page mapped once reaches its largest value after so many forks.
  function Rounds(): nat { 254 }

  // Operations that are possible, wraps included.
  ghost predicate Reaches(s: State, ops: seq<Op>, t: State)
    decreases |ops|
  {
    Shaped(s) && if ops == [] then t == s else Enabled(s, ops[0]) && Reaches(Step(s, ops[0]), ops[1..], t)
  }

  lemma {:induction false} RunReaches(s: State, ops: seq<Op>, t: State)
    requires RunsTo(s, ops, t)
    ensures Reaches(s, ops, t)
    decreases |ops|
  {
    hide Step;
    hide Enabled;
    hide NoWrap;
    if ops != [] {
      RunReaches(Step(s, ops[0]), ops[1..], t);
    }
  }

  lemma {:induction false} ReachesMore(s: State, ops: seq<Op>, t: State, more: seq<Op>, u: State)
    requires Reaches(s, ops, t) && Reaches(t, more, u)
    ensures Reaches(s, ops + more, u)
    decreases |ops|
  {
    hide Step;
    hide Enabled;
    if ops == [] {
      assert ops + more == more;
    } else {
      ReachesMore(Step(s, ops[0]), ops[1..], t, more, u);
      assert (ops + more)[0] == ops[0] && (ops + more)[1..] == ops[1..] + more;
    }
  }

  lemma ReachesOne(s: State, a: Op)
    requires Shaped(s) && Enabled(s, a)
    ensures Reaches(s, [a], Step(s, a))
  {
    hide Step;
    hide Enabled;
    assert [a][0] == a && [a][1..] == [];
    assert Reaches(Step(s, a), [], Step(s, a));
  }

  // What the fork that wraps leaves for the next one: four frames that the stack copies touch,
  // all different and none of them f.
  ghost predicate Wrapped(r: State, page: nat, f: nat) {
    && Shaped(r) && r.live == {0, 1, 2} && HasStack(r, 1) && FramesLeft(r, 2) && f < N_FRAMES && r.counter[f] == 0
    && page in r.tables[1] && r.tables[1][page] == Pte(f, ForkedPage) && !IsStack(page)
    && var a1, a2, g1, g2 := r.tables[1][STACK_PAGE_1].frame, r.tables[1][STACK_PAGE_2].frame, r.free[0], r.free[1];
    && a1 != a2 && a1 != g1 && a1 != g2 && a2 != g1 && a2 != g2 && g1 != g2
    && f != a1 && f != a2 && f != g1 && f != g2
  }

  lemma ForkWrapped(t: State, r: State, page: nat, f: nat)
    requires Inv(t) && ForkEnabled(t, 1, 2) && FramesLeft(t, 4) && t.live == {0, 1} && Shares(t, 1, page, f) && f < N_FRAMES
    requires ForkedTables(r, t, 1, 2) && r.counter[f] == 0
    ensures Wrapped(r, page, f)
  {
    StackFrames(t, 1, 2);
    NotFresh(t, 1, 2);
    NotFresh(t, 1, 3);
    assert r.free[0] == t.free[2] && r.free[1] == t.free[3];
    assert r.tables[1] == Demoted(t.tables[1]);
    assert t.free[2] != t.free[3];
  }

  // The next fork brings the counter to 1 under three mappings.
  lemma ForkAgain(r: State, page: nat, f: nat)
    requires Wrapped(r, page, f)
    ensures ForkEnabled(r, 1, 3)
    ensures var u := Fork(r, 1, 3);
      && u.live == {0, 1, 2, 3} && u.counter[f] == 1
      && page in u.tables[1] && u.tables[1][page] == Pte(f, ForkedPage)
      && page in u.tables[3] && u.tables[3][page] == Pte(f, ForkedPage)
  {
    hide Fork;
    hide Share;
    ForkTables(r, 1, 3);
    ForkCounterAt(r, 1, 3, f);
    ShareCounter(r, 1, 3, f);
    assert exists q :: q in r.tables[1] && r.tables[1][q].frame == f;
  }

  // The write of process 3 is served in place, and process 1 reads it.
  lemma WriteSeenByAnother(u: State, page: nat, f: nat, b: Byte, fill: Content)
    requires Shaped(u) && u.live == {0, 1, 2, 3} && f < N_FRAMES && u.counter[f] == 1 && u.mem[f][0] != b
    requires page in u.tables[1] && u.tables[1][page] == Pte(f, ForkedPage)
    requires page in u.tables[3] && u.tables[3][page] == Pte(f, ForkedPage)
    ensures var op := WriteOp(3, page, 0, b, true);
      && Enabled(u, op) && EagerEnabled(ViewOf(u), op)
      && var v, w := ViewOf(Step(u, op)), Eager(ViewOf(u), op, fill);
      && 1 in v && page in v[1] && |v[1][page]| > 0 && v[1][page][0] == b
      && 1 in w && page in w[1] && |w[1][page]| > 0 && w[1][page][0] == u.mem[f][0]
  {
    var op := WriteOp(3, page, 0, b, true);
    var w := Step(u, op);
    assert w.mem[f][0] == b && w.tables[1] == u.tables[1] && w.live == u.live;
    assert ViewOf(w)[1] == Space(w, 1) && ViewOf(u)[1] == Space(u, 1) && ViewOf(u)[3] == Space(u, 3);
  }

  // Without the room that NoWrap asks for the refinement fails: after 254 forks whose children
  // were never released, and two more, a write by one process shows up in the memory of another.
  lemma WrapBreaksRefinement(id: nat, mem: seq<Content>, page: nat, fill: Content) returns (ops: seq<Op>, u: State, b: Byte)
    requires id + 600 < TIMER_PAGE && |mem| == N_FRAMES && page < TIMER_PAGE
    ensures Reaches(Boot(id, mem), ops, u)
    ensures var op := WriteOp(3, page, 0, b, true);
      && Shaped(u) && Enabled(u, op) && EagerEnabled(ViewOf(u), op)
      && ViewOf(Step(u, op)) != Eager(ViewOf(u), op, fill)
  {
    ops, u := TwoForksLater(id, mem, page);
    b := OtherByte(u, id + 4);
    WriteSeenByAnother(u, page, id + 4, b, fill);
    hide *;
    DiffersAt(ViewOf(Step(u, WriteOp(3, page, 0, b, true))), Eager(ViewOf(u), WriteOp(3, page, 0, b, true), fill), page);
  }

  // Process 1 and process 3 map the frame, whose counter reads 1.
  lemma TwoForksLater(id: nat, mem: seq<Content>, page: nat) returns (ops: seq<Op>, u: State)
    requires id + 600 < TIMER_PAGE && |mem| == N_FRAMES && page < TIMER_PAGE
    ensures Reaches(Boot(id, mem), ops, u)
    ensures Shaped(u) && u.live == {0, 1, 2, 3} && u.counter[id + 4] == 1
    ensures page in u.tables[1] && u.tables[1][page] == Pte(id + 4, ForkedPage)
    ensures page in u.tables[3] && u.tables[3][page] == Pte(id + 4, ForkedPage)
  {
    var s, t := WrapsFromBoot(id, mem, page);
    var r;
    r, u := TwoMore(t, page, id + 4);
    ops := [HeapFault(1, page, true)] + AbandonedForks(1, 2, Rounds()) + [ForkOp(1, 2), ForkOp(1, 3)];
    hide *;
    ThreeRuns(Boot(id, mem), [HeapFault(1, page, true)], s, AbandonedForks(1, 2, Rounds()), t, [ForkOp(1, 2), ForkOp(1, 3)], u);
  }

  lemma ThreeRuns(a: State, one: seq<Op>, b: State, two: seq<Op>, c: State, three: seq<Op>, d: State)
    requires Reaches(a, one, b) && Reaches(b, two, c) && Reaches(c, three, d)
    ensures Reaches(a, one + two + three, d)
  {
    ReachesMore(a, one, b, two, c);
    ReachesMore(a, one + two, c, three, d);
  }

  lemma DiffersAt(v: View, w: View, page: nat)
    requires 1 in v && 1 in w && page in v[1] && page in w[1] && |v[1][page]| > 0 && |w[1][page]| > 0 && v[1][page][0] != w[1][page][0]
    ensures v != w
  {
  }

  lemma OtherByte(u: State, f: nat) returns (b: Byte)
    requires Shaped(u) && f < N_FRAMES
    ensures u.mem[f][0] != b
  {
    b := if u.mem[f][0] == 0 then 1 else 0;
  }

  lemma WrapsFromBoot(id: nat, mem: seq<Content>, page: nat) returns (s: State, t: State)
    requires id + 600 < TIMER_PAGE && |mem| == N_FRAMES && page < TIMER_PAGE
    ensures Reaches(Boot(id, mem), [HeapFault(1, page, true)], s) && Reaches(s, AbandonedForks(1, 2, Rounds()), t)
    ensures Inv(t) && ForkEnabled(t, 1, 2) && ForkWraps(t, 1, 2, page, id + 4)
    ensures FramesLeft(t, 4) && t.live == {0, 1} && Shares(t, 1, page, id + 4)
  {
    hide AbandonedForks;
    hide ForkWraps;
    hide RunsTo;
    hide Reaches;
    hide Boot;
    s := FirstPage(id, mem, page, 520);
    assert Shares(s, 1, page, id + 4) && ForkEnabled(s, 1, 2);
    assert Busiest(s, 1, id + 4);
    hide Busiest;
    RunReaches(Boot(id, mem), [HeapFault(1, page, true)], s);
    t := AbandonedForksWrap(s, 1, 2, page, id + 4, Rounds(), 1);
    RunReaches(s, AbandonedForks(1, 2, Rounds()), t);
  }

  lemma TwoMore(t: State, page: nat, f: nat) returns (r: State, u: State)
    requires Inv(t) && ForkEnabled(t, 1, 2) && FramesLeft(t, 4) && t.live == {0, 1} && Shares(t, 1, page, f) && f < N_FRAMES
    requires ForkWraps(t, 1, 2, page, f)
    ensures Reaches(t, [ForkOp(1, 2), ForkOp(1, 3)], u)
    ensures Shaped(u) && u.live == {0, 1, 2, 3} && u.counter[f] == 1
    ensures page in u.tables[1] && u.tables[1][page] == Pte(f, ForkedPage)
    ensures page in u.tables[3] && u.tables[3][page] == Pte(f, ForkedPage)
  {
    ForkShape(t, 1, 2);
    hide *;
    ThenWrapped(t, page, f);
    r := Fork(t, 1, 2);
    WrappedShape(r, page, f);
    ForkAgain(r, page, f);
    u := Fork(r, 1, 3);
    TwoForks(t, r, u);
  }

  lemma TwoForks(t: State, r: State, u: State)
    requires Shaped(t) && ForkEnabled(t, 1, 2) && HasStack(t, 1) && |t.free| > 1 && r == Fork(t, 1, 2)
    requires Shaped(r) && ForkEnabled(r, 1, 3) && HasStack(r, 1) && |r.free| > 1 && u == Fork(r, 1, 3)
    ensures Reaches(t, [ForkOp(1, 2), ForkOp(1, 3)], u)
  {
    hide *;
    StepIsFork(t, 1, 2);
    StepIsFork(r, 1, 3);
    ReachesOne(t, ForkOp(1, 2));
    ReachesOne(r, ForkOp(1, 3));
    ReachesMore(t, [ForkOp(1, 2)], r, [ForkOp(1, 3)], u);
    assert [ForkOp(1, 2)] + [ForkOp(1, 3)] == [ForkOp(1, 2), ForkOp(1, 3)];
  }

  lemma ForkShape(t: State, parent: nat, child: nat)
    requires Inv(t) && ForkEnabled(t, parent, child)
    ensures Shaped(t) && HasStack(t, parent) && |t.free| > 1 && parent < N_PROC && child < N_PROC
  {
  }

  lemma WrappedShape(r: State, page: nat, f: nat)
    requires Wrapped(r, page, f)
    ensures Shaped(r) && HasStack(r, 1) && |r.free| > 1 && 3 < N_PROC
  {
  }

  lemma ThenWrapped(t: State, page: nat, f: nat)
    requires Inv(t) && ForkEnabled(t, 1, 2) && FramesLeft(t, 4) && t.live == {0, 1} && Shares(t, 1, page, f) && f < N_FRAMES
    requires ForkWraps(t, 1, 2, page, f)
    ensures Wrapped(Fork(t, 1, 2), page, f)
  {
    hide Fork;
    ForkTables(t, 1, 2);
    ForkWrapped(t, Fork(t, 1, 2), page, f);
  }
}
