/**
 What bind counters count: the mappings of a frame, and one more for each frame that a write
 fault has handed out, as long as every process is released before its number is reused. What
 the one more costs, and how far counters drift otherwise.
 */
module PagingCounters {
  import opened PagingModel
  import opened PagingSafety
  import opened PagingFork
  import opened PagingRuns

  // A counter is the number of mappings, and one more for the frames in extra.
  ghost predicate Exact(s: State, extra: set<nat>)
    requires Shaped(s)
  {
    forall f {:trigger Mappings(s, f)} | 0 <= f < N_FRAMES && f !in PERIPHERALS ::
      s.counter[f] == |Mappings(s, f)| + if f in extra then 1 else 0
  }

  // The operation is a write fault that copies a page.
  ghost predicate Copies(s: State, op: Op)
    requires Shaped(s) && Enabled(s, op)
  {
    && op.WriteOp? && op.el0 && !El0Writable(s.tables[op.pid][op.page].perm)
    && s.counter[s.tables[op.pid][op.page].frame] > 1
  }

  // handle_shared_page_write binds the frame it hands out twice and unbinds it never.
  ghost function ExtraAfter(s: State, op: Op, extra: set<nat>): set<nat>
    requires Shaped(s) && Enabled(s, op)
  {
    if Copies(s, op) then extra + {s.free[0]} else extra
  }

  // A fork goes to a number whose table is empty, and exits release their tables.
  ghost predicate Disciplined(s: State, op: Op)
    requires Shaped(s) && Enabled(s, op)
  {
    !op.AbandonOp? && (op.ForkOp? ==> s.tables[op.child] == map[])
  }

  // ---------- counters of disciplined runs ----------

  lemma {:induction false} PidSlots(page: int, n: nat)
    ensures |set q | 0 <= q < n :: Slot(q, page)| <= n
  {
    if n > 0 {
      PidSlots(page, n - 1);
      assert (set q | 0 <= q < n :: Slot(q, page)) == (set q | 0 <= q < n - 1 :: Slot(q, page)) + {Slot(n - 1, page)};
    }
  }

  // A frame is mapped at one page, so by each process at most once.
  lemma MappingsBound(s: State, f: nat)
    requires Inv(s)
    ensures |Mappings(s, f)| <= N_PROC
  {
    if k :| k in Mappings(s, f) {
      forall k' | k' in Mappings(s, f) ensures k' in set q | 0 <= q < N_PROC :: Slot(q, k.page) {
        assert Maps(s, k.pid, k.page, f) && Maps(s, k'.pid, k'.page, f);
        assert k' == Slot(k'.pid, k.page);
      }
      SubsetSize(Mappings(s, f), set q | 0 <= q < N_PROC :: Slot(q, k.page));
      PidSlots(k.page, N_PROC);
    }
  }

  lemma ExactRoom(s: State, parent: nat, extra: set<nat>)
    requires Inv(s) && Exact(s, extra) && parent < N_PROC
    ensures RoomToShare(s, parent)
    ensures forall f | 0 <= f < N_FRAMES && f !in PERIPHERALS :: s.counter[f] <= N_PROC + 1
  {
    forall f | 0 <= f < N_FRAMES && f !in PERIPHERALS ensures s.counter[f] <= N_PROC + 1 {
      MappingsBound(s, f);
    }
    forall p, f | Shares(s, parent, p, f) && 0 <= f < N_FRAMES ensures s.counter[f] < 255 {
      assert UserEntry(s, parent, p);
    }
  }

  lemma NewPageExact(s: State, pid: nat, page: nat, perm: Perm, extra: set<nat>)
    requires Inv(s) && Exact(s, extra) && FramesLeft(s, 1) && pid < N_PROC && page !in s.tables[pid]
    ensures Exact(NewPage(s, pid, page, perm), extra)
  {
    var t := NewPage(s, pid, page, perm);
    forall f | 0 <= f < N_FRAMES && f !in PERIPHERALS ensures t.counter[f] == |Mappings(t, f)| + if f in extra then 1 else 0 {
      MappingsAfterPut(s, t, pid, page, Pte(s.free[0], perm), f);
      MapsIffMapping(s, pid, page, f);
    }
  }

  lemma ReleaseExact(s: State, pid: nat, page: nat, extra: set<nat>)
    requires Inv(s) && Exact(s, extra) && pid < N_PROC && page in s.tables[pid]
    ensures Exact(Release(s, pid, page), extra)
  {
    var t := Release(s, pid, page);
    MappedIsCounted(s, pid, page);
    forall f | 0 <= f < N_FRAMES && f !in PERIPHERALS ensures t.counter[f] == |Mappings(t, f)| + if f in extra then 1 else 0 {
      MappingsAfterRelease(s, pid, page, f);
      MapsIffMapping(s, pid, page, f);
    }
  }

  lemma PrivatiseExact(s: State, pid: nat, page: nat, extra: set<nat>)
    requires Inv(s) && Exact(s, extra) && pid < N_PROC && page in s.tables[pid]
    requires s.counter[s.tables[pid][page].frame] > 1 ==> FramesLeft(s, 1)
    ensures Exact(Privatise(s, pid, page), if s.counter[s.tables[pid][page].frame] > 1 then extra + {s.free[0]} else extra)
  {
    var t := Privatise(s, pid, page);
    var e := s.tables[pid][page];
    var shared := s.counter[e.frame] > 1;
    var extra' := if shared then extra + {s.free[0]} else extra;
    MappedIsCounted(s, pid, page);
    if shared {
      FreshIsUnmapped(s, pid, page, s.free[0]);
    }
    var e' := if shared then Pte(s.free[0], UserPage) else e.(perm := UserPage);
    forall f | 0 <= f < N_FRAMES && f !in PERIPHERALS ensures t.counter[f] == |Mappings(t, f)| + if f in extra' then 1 else 0 {
      MappingsAfterPut(s, t, pid, page, e', f);
      MapsIffMapping(s, pid, page, f);
    }
  }

  lemma SameMappingsExact(s: State, t: State, extra: set<nat>)
    requires Shaped(s) && Exact(s, extra) && Shaped(t) && t.tables == s.tables && t.counter == s.counter
    ensures Exact(t, extra)
  {
    forall f: nat ensures Mappings(t, f) == Mappings(s, f) {}
  }

  // A fork into an empty table loses no mapping.
  lemma ForkKeepsMappings(r: State, s: State, parent: nat, child: nat, f: nat)
    requires Shaped(s) && parent < N_PROC && child < N_PROC && |s.free| > 1 && s.tables[child] == map[]
    requires ForkedTables(r, s, parent, child)
    ensures Mappings(s, f) <= Mappings(r, f)
    ensures forall p | Shares(s, parent, p, f) :: Slot(child, p) in Mappings(r, f) && Slot(child, p) !in Mappings(s, f)
    ensures f == s.free[1] ==> Slot(child, STACK_PAGE_2) in Mappings(r, f)
    ensures f == s.free[0] ==> Slot(child, STACK_PAGE_1) in Mappings(r, f)
  {
    forall q, p | Slot(q, p) in Mappings(s, f) ensures Slot(q, p) in Mappings(r, f) {
      MapsIffMapping(s, q, p, f);
      MapsIffMapping(r, q, p, f);
    }
    forall p | Shares(s, parent, p, f) ensures Slot(child, p) in Mappings(r, f) && Slot(child, p) !in Mappings(s, f) {
      MapsIffMapping(r, child, p, f);
      MapsIffMapping(s, child, p, f);
    }
    MapsIffMapping(r, child, STACK_PAGE_1, f);
    MapsIffMapping(r, child, STACK_PAGE_2, f);
  }

  lemma ForkExactAt(r: State, s: State, parent: nat, child: nat, f: nat, extra: set<nat>)
    requires Inv(s) && Exact(s, extra) && ForkEnabled(s, parent, child) && s.tables[child] == map[]
    requires IsForkOf(r, s, parent, child) && f < N_FRAMES && f !in PERIPHERALS && RoomToShare(s, parent)
    ensures r.counter[f] == |Mappings(r, f)| + if f in extra then 1 else 0
  {
    assert Shaped(s);
    hide Inv;
    hide Exact;
    ExactAt(s, f, extra);
    ForkKeepsMappings(r, s, parent, child, f);
    var page := ForkMappings(r, s, parent, child, f);
    if f == s.free[0] || f == s.free[1] {
      FreeIsPlain(s, if f == s.free[0] then 0 else 1, extra);
      assert Mappings(r, f) == {Slot(child, if f == s.free[0] then STACK_PAGE_1 else STACK_PAGE_2)} by {
        FreeDiffer(s);
      }
    } else if p :| Shares(s, parent, p, f) {
      assert Slot(child, p) in Mappings(r, f);
      assert Mappings(r, f) == Mappings(s, f) + {Slot(child, p)};
    } else {
      assert Mappings(r, f) == Mappings(s, f);
    }
  }

  lemma ExactAt(s: State, f: nat, extra: set<nat>)
    requires Shaped(s) && Exact(s, extra) && f < N_FRAMES && f !in PERIPHERALS
    ensures s.counter[f] == |Mappings(s, f)| + if f in extra then 1 else 0
  {
  }

  lemma FreeDiffer(s: State)
    requires Inv(s) && |s.free| > 1
    ensures s.free[0] != s.free[1]
  {
  }

  // A frame on the stack is not one of extra.
  lemma FreeIsPlain(s: State, i: nat, extra: set<nat>)
    requires Inv(s) && Exact(s, extra) && i < |s.free| && s.free[i] !in PERIPHERALS
    ensures s.free[i] !in extra
  {
    ExactAt(s, s.free[i], extra);
  }

  lemma ForkExact(r: State, s: State, parent: nat, child: nat, extra: set<nat>)
    requires Inv(s) && Exact(s, extra) && ForkEnabled(s, parent, child) && s.tables[child] == map[]
    requires IsForkOf(r, s, parent, child) && RoomToShare(s, parent)
    ensures Exact(r, extra)
  {
    assert Shaped(s);
    hide Inv;
    forall f | 0 <= f < N_FRAMES && f !in PERIPHERALS ensures r.counter[f] == |Mappings(r, f)| + if f in extra then 1 else 0 {
      ForkExactAt(r, s, parent, child, f, extra);
    }
  }

  lemma {:induction false} ReleaseFromExact(s: State, pid: nat, page: nat, extra: set<nat>)
    requires Inv(s) && Exact(s, extra) && pid < N_PROC && pid !in s.live && page <= GPIO_PAGE
    ensures Exact(ReleaseFrom(s, pid, page), extra)
    decreases GPIO_PAGE - page
  {
    if page < GPIO_PAGE {
      if page in s.tables[pid] {
        ReleaseKeeps(s, pid, page);
        ReleaseExact(s, pid, page, extra);
        ReleaseFromExact(Release(s, pid, page), pid, page + 1, extra);
      } else {
        ReleaseFromExact(s, pid, page + 1, extra);
      }
    }
  }

  lemma WriteExact(s: State, op: Op, extra: set<nat>)
    requires Inv(s) && Exact(s, extra) && Enabled(s, op) && op.WriteOp?
    ensures Exact(Step(s, op), ExtraAfter(s, op, extra))
  {
    assert Shaped(s);
    hide Exact;
    hide Inv;
    var r := Writable(s, op.pid, op.page, op.el0);
    if op.el0 && !El0Writable(s.tables[op.pid][op.page].perm) {
      PrivatiseExact(s, op.pid, op.page, extra);
    }
    SameMappingsExact(r, Step(s, op), ExtraAfter(s, op, extra));
  }

  lemma ExitExact(s: State, pid: nat, extra: set<nat>)
    requires Inv(s) && Exact(s, extra) && pid < N_PROC
    ensures Exact(Exit(s, pid), extra)
  {
    hide Exact;
    var d := s.(live := s.live - {pid});
    DeadKeeps(s, pid);
    SameMappingsExact(s, d, extra);
    ReleaseFromExact(d, pid, 0, extra);
  }

  // One step of a disciplined run: no fork wraps, and every counter stays exact.
  lemma StepExact(s: State, op: Op, extra: set<nat>)
    requires Inv(s) && Exact(s, extra) && Enabled(s, op) && Disciplined(s, op)
    ensures NoWrap(s, op) && Exact(Step(s, op), ExtraAfter(s, op, extra))
  {
    assert Shaped(s);
    hide Exact;
    hide Inv;
    hide Fork;
    hide Exit;
    match op
    case ForkOp(parent, child) =>
      ExactRoom(s, parent, extra);
      ForkIs(s, parent, child);
      ForkExact(Fork(s, parent, child), s, parent, child, extra);
    case HeapFault(pid, page, el0) => NewPageExact(s, pid, page, if el0 then UserPage else KernelPage, extra);
    case WriteOp(_, _, _, _, _) => WriteExact(s, op, extra);
    case FreeOp(pid, page) => ReleaseExact(s, pid, page, extra);
    case ExitOp(pid) => ExitExact(s, pid, extra);
  }

  ghost predicate DisciplinedRun(s: State, ops: seq<Op>)
    requires Shaped(s)
    decreases |ops|
  {
    ops == [] || (Enabled(s, ops[0]) && Disciplined(s, ops[0]) && DisciplinedRun(Step(s, ops[0]), ops[1..]))
  }

  ghost function ExtraAfterRun(s: State, ops: seq<Op>, extra: set<nat>): set<nat>
    requires Shaped(s) && ValidRun(s, ops)
    decreases |ops|
  {
    if ops == [] then extra else ExtraAfterRun(Step(s, ops[0]), ops[1..], ExtraAfter(s, ops[0], extra))
  }

  // Disciplined runs never wrap a counter: no counter passes 33. At every point a counter is the
  // number of mappings, and one more exactly for the frames that write faults have handed out.
  lemma {:induction false} DisciplinedRunsExact(s: State, ops: seq<Op>, extra: set<nat>)
    requires Inv(s) && Exact(s, extra) && DisciplinedRun(s, ops)
    ensures ValidRun(s, ops)
    ensures Exact(Run(s, ops), ExtraAfterRun(s, ops, extra))
    ensures forall f | 0 <= f < N_FRAMES && f !in PERIPHERALS :: Run(s, ops).counter[f] <= N_PROC + 1
    decreases |ops|
  {
    hide Exact;
    if ops == [] {
      ExactRoom(s, 0, extra);
    } else {
      StepExact(s, ops[0], extra);
      StepKeeps(s, ops[0]);
      DisciplinedRunsExact(Step(s, ops[0]), ops[1..], ExtraAfter(s, ops[0], extra));
    }
  }

  // ---------- what the second bind costs ----------

  // The frame is mapped by nobody and counted nevertheless.
  ghost predicate Leaked(s: State, f: nat)
    requires Shaped(s)
  {
    f < N_FRAMES && f !in PERIPHERALS && s.counter[f] == 1 && Mappings(s, f) == {}
  }

  // A released frame goes back to the stack exactly when its last mapping went and it is none
  // of those that a write fault handed out; the last mapping of such a one leaks it.
  lemma ReleaseReturnsIff(s: State, pid: nat, page: nat, extra: set<nat>)
    requires Inv(s) && Exact(s, extra) && pid < N_PROC && page in s.tables[pid]
    ensures var f := s.tables[pid][page].frame; var t := Release(s, pid, page);
      && (f in t.free <==> |Mappings(s, f)| == 1 && f !in extra)
      && (|Mappings(s, f)| == 1 && f in extra ==> Leaked(t, f))
  {
    var f := s.tables[pid][page].frame;
    assert UserEntry(s, pid, page);
    MappedIsCounted(s, pid, page);
    MappingsAfterRelease(s, pid, page, f);
    MapsIffMapping(s, pid, page, f);
    assert |Mappings(s, f) - {Slot(pid, page)}| == |Mappings(s, f)| - 1;
  }

  lemma LeakedIsOff(s: State, f: nat)
    requires Inv(s) && Leaked(s, f)
    ensures f !in s.free && forall q, p :: !Maps(s, q, p, f)
  {
    forall q, p ensures !Maps(s, q, p, f) {
      MapsIffMapping(s, q, p, f);
    }
  }

  lemma NewPageLeaked(s: State, pid: nat, page: nat, perm: Perm, f: nat)
    requires Inv(s) && Leaked(s, f) && |s.free| > 0 && pid < N_PROC
    ensures Leaked(NewPage(s, pid, page, perm), f)
  {
    LeakedIsOff(s, f);
    MappingsAfterPut(s, NewPage(s, pid, page, perm), pid, page, Pte(s.free[0], perm), f);
  }

  lemma ReleaseLeaked(s: State, pid: nat, page: nat, f: nat)
    requires Inv(s) && Leaked(s, f) && pid < N_PROC && page in s.tables[pid]
    ensures Leaked(Release(s, pid, page), f)
  {
    LeakedIsOff(s, f);
    assert !Maps(s, pid, page, f);
    MappingsAfterRelease(s, pid, page, f);
  }

  lemma WriteLeaked(s: State, op: Op, f: nat)
    requires Inv(s) && Leaked(s, f) && Enabled(s, op) && op.WriteOp?
    ensures Leaked(Step(s, op), f)
  {
    var pid, page := op.pid, op.page;
    LeakedIsOff(s, f);
    assert !Maps(s, pid, page, f);
    var r := Writable(s, pid, page, op.el0);
    if op.el0 && !El0Writable(s.tables[pid][page].perm) {
      MappingsAfterPut(s, r, pid, page, r.tables[pid][page], f);
    }
    assert Mappings(Step(s, op), f) == Mappings(r, f);
  }

  lemma ForkLeaked(s: State, parent: nat, child: nat, f: nat)
    requires Inv(s) && Leaked(s, f) && ForkEnabled(s, parent, child)
    ensures Leaked(Fork(s, parent, child), f)
  {
    hide Fork;
    var r := Fork(s, parent, child);
    LeakedIsOff(s, f);
    ForkIs(s, parent, child);
    forall p ensures !Shares(s, parent, p, f) {
      assert !Maps(s, parent, p, f);
    }
    var page := ForkMappings(r, s, parent, child, f);
  }

  lemma {:induction false} ReleaseFromLeaked(s: State, pid: nat, page: nat, f: nat)
    requires Inv(s) && Leaked(s, f) && pid < N_PROC && pid !in s.live && page <= GPIO_PAGE
    ensures Leaked(ReleaseFrom(s, pid, page), f)
    decreases GPIO_PAGE - page
  {
    hide Leaked;
    if page < GPIO_PAGE {
      if page in s.tables[pid] {
        ReleaseKeeps(s, pid, page);
        ReleaseLeaked(s, pid, page, f);
        ReleaseFromLeaked(Release(s, pid, page), pid, page + 1, f);
      } else {
        ReleaseFromLeaked(s, pid, page + 1, f);
      }
    }
  }

  lemma SameLeaked(s: State, t: State, f: nat)
    requires Shaped(s) && Leaked(s, f) && Shaped(t) && t.tables == s.tables && t.counter == s.counter
    ensures Leaked(t, f)
  {
    assert Mappings(t, f) == Mappings(s, f);
  }

  lemma StepLeaked(s: State, op: Op, f: nat)
    requires Inv(s) && Leaked(s, f) && Enabled(s, op)
    ensures Leaked(Step(s, op), f)
  {
    hide Leaked;
    hide Fork;
    match op
    case ForkOp(parent, child) => ForkLeaked(s, parent, child, f);
    case HeapFault(pid, page, el0) => NewPageLeaked(s, pid, page, if el0 then UserPage else KernelPage, f);
    case WriteOp(_, _, _, _, _) => WriteLeaked(s, op, f);
    case FreeOp(pid, page) => ReleaseLeaked(s, pid, page, f);
    case ExitOp(pid) =>
      var d := s.(live := s.live - {pid});
      DeadKeeps(s, pid);
      SameLeaked(s, d, f);
      ReleaseFromLeaked(d, pid, 0, f);
    case AbandonOp(pid) => SameLeaked(s, s.(live := s.live - {pid}), f);
  }

  // A leaked frame is lost for the rest of every run, disciplined or not.
  lemma {:induction false} LeakedForever(s: State, ops: seq<Op>, f: nat)
    requires Inv(s) && Leaked(s, f) && ValidRun(s, ops)
    ensures Leaked(Run(s, ops), f) && f !in Run(s, ops).free
    decreases |ops|
  {
    hide Leaked;
    if ops == [] {
      LeakedIsOff(s, f);
    } else {
      StepLeaked(s, ops[0], f);
      StepKeeps(s, ops[0]);
      LeakedForever(Step(s, ops[0]), ops[1..], f);
    }
  }

  // ---------- fork then process_exit ----------

  // The state while process_exit of a just-forked child has released the pages below page:
  // its table and the free stack, and its counters.
  ghost predicate Releasing(x: State, s: State, parent: nat, child: nat, page: int)
    requires Shaped(s) && parent < N_PROC && child < N_PROC && |s.free| > 1
  {
    && Shaped(x) && x.live == s.live - {child}
    && x.free == (if page <= STACK_PAGE_2 then s.free[2..] else if page <= STACK_PAGE_1 then s.free[1..] else s.free)
    && ReleasingTable(x.tables[child], s, parent, page)
    && (forall f | 0 <= f < N_FRAMES :: x.counter[f] == ReleasingCounter(s, parent, page, f))
  }

  ghost predicate ReleasingTable(t: Table, s: State, parent: nat, page: int)
    requires Shaped(s) && parent < N_PROC && |s.free| > 1
  {
    && (forall p | p in t :: p >= page)
    && (forall p | p in t && !IsStack(p) :: Shares(s, parent, p, t[p].frame))
    && (forall p, f | Shares(s, parent, p, f) && p >= page :: p in t)
    && (page <= STACK_PAGE_1 <==> STACK_PAGE_1 in t)
    && (page <= STACK_PAGE_2 <==> STACK_PAGE_2 in t)
    && (STACK_PAGE_1 in t ==> t[STACK_PAGE_1].frame == s.free[0])
    && (STACK_PAGE_2 in t ==> t[STACK_PAGE_2].frame == s.free[1])
  }

  ghost function ReleasingCounter(s: State, parent: nat, page: int, f: nat): nat
    requires Shaped(s) && parent < N_PROC && |s.free| > 1 && f < N_FRAMES
  {
    if f == s.free[0] then (if page <= STACK_PAGE_1 then 1 else 0)
    else if f == s.free[1] then (if page <= STACK_PAGE_2 then 1 else 0)
    else if exists p :: p >= page && Shares(s, parent, p, f) then Inc(s.counter[f])
    else s.counter[f]
  }

  // The frame that process_exit releases at page, if any.
  ghost predicate Frees(s: State, parent: nat, page: int, f: nat)
    requires Shaped(s) && parent < N_PROC && |s.free| > 1
  {
    Shares(s, parent, page, f) || (page == STACK_PAGE_1 && f == s.free[0]) || (page == STACK_PAGE_2 && f == s.free[1])
  }

  lemma ReleasingCounterStep(s: State, parent: nat, child: nat, page: nat, f: nat)
    requires Inv(s) && ForkEnabled(s, parent, child) && RoomToShare(s, parent) && f < N_FRAMES && page < GPIO_PAGE
    ensures ReleasingCounter(s, parent, page + 1, f) ==
      if Frees(s, parent, page, f) then Dec(ReleasingCounter(s, parent, page, f)) else ReleasingCounter(s, parent, page, f)
    ensures Frees(s, parent, page, f) ==> (ReleasingCounter(s, parent, page + 1, f) == 0 <==> IsStack(page))
  {
    NotFresh(s, parent, 0);
    NotFresh(s, parent, 1);
    if Shares(s, parent, page, f) {
      MappedIsCounted(s, parent, page);
      assert Maps(s, parent, page, f);
      forall p | Shares(s, parent, p, f) ensures p == page {
        assert Maps(s, parent, p, f);
      }
    }
  }

  lemma ReleasingStep(x: State, s: State, parent: nat, child: nat, page: nat)
    requires Inv(s) && ForkEnabled(s, parent, child) && RoomToShare(s, parent) && page < GPIO_PAGE
    requires Releasing(x, s, parent, child, page)
    ensures Releasing(if page in x.tables[child] then Release(x, child, page) else x, s, parent, child, page + 1)
  {
    var y := if page in x.tables[child] then Release(x, child, page) else x;
    assert Shaped(s);
    hide Inv;
    hide RoomToShare;
    hide ReleasingCounter;
    if page in x.tables[child] {
      ReleasingCounterStep(s, parent, child, page, x.tables[child][page].frame);
    }
    forall f | 0 <= f < N_FRAMES
      ensures y.counter[f] == ReleasingCounter(s, parent, page + 1, f)
    {
      ReleasingCounterStep(s, parent, child, page, f);
      ReleasedFrame(x.tables[child], s, parent, page, f);
    }
    if page in x.tables[child] {
      ReleasedFrame(x.tables[child], s, parent, page, x.tables[child][page].frame);
    }
  }

  lemma ReleasedFrame(t: Table, s: State, parent: nat, page: nat, f: nat)
    requires Shaped(s) && parent < N_PROC && |s.free| > 1 && ReleasingTable(t, s, parent, page)
    ensures Frees(s, parent, page, f) <==> page in t && t[page].frame == f
  {
  }

  lemma {:induction false} ReleasingAll(x: State, s: State, parent: nat, child: nat, page: nat)
    requires Inv(s) && ForkEnabled(s, parent, child) && RoomToShare(s, parent) && page <= GPIO_PAGE
    requires Releasing(x, s, parent, child, page)
    ensures Releasing(ReleaseFrom(x, child, page), s, parent, child, GPIO_PAGE)
    decreases GPIO_PAGE - page
  {
    if page < GPIO_PAGE {
      ReleasingStep(x, s, parent, child, page);
      ReleasingAll(if page in x.tables[child] then Release(x, child, page) else x, s, parent, child, page + 1);
    }
  }

  lemma ReleasingStart(k: State, s: State, parent: nat, child: nat)
    requires Inv(s) && ForkEnabled(s, parent, child) && IsForkOf(k, s, parent, child)
    ensures Releasing(k.(live := k.live - {child}), s, parent, child, 0)
  {
    var x := k.(live := k.live - {child});
    forall p | p in s.tables[parent] ensures p >= 0 {
      assert UserEntry(s, parent, p);
    }
    forall f | 0 <= f < N_FRAMES
      ensures x.counter[f] == ReleasingCounter(s, parent, 0, f)
    {
      if p :| Shares(s, parent, p, f) { assert p >= 0; }
    }
  }

  lemma ReleasingEnd(x: State, s: State, parent: nat, child: nat)
    requires Inv(s) && ForkEnabled(s, parent, child) && Releasing(x, s, parent, child, GPIO_PAGE)
    ensures x.counter == s.counter && x.free == s.free && x.live == s.live && x.tables[child] == map[]
  {
    forall p, f | Shares(s, parent, p, f) ensures p < GPIO_PAGE {
      assert UserEntry(s, parent, p);
    }
    forall p ensures p !in x.tables[child] {
      NoneLeft(x.tables[child], s, parent, p);
    }
  }

  lemma NoneLeft(t: Table, s: State, parent: nat, p: int)
    requires Shaped(s) && parent < N_PROC && |s.free| > 1 && ReleasingTable(t, s, parent, GPIO_PAGE)
    requires forall p, f | Shares(s, parent, p, f) :: p < GPIO_PAGE
    ensures p !in t
  {
  }

  // Forking and then releasing the child restores every counter and the free stack, frame
  // by frame and in order.
  lemma ForkExitConserves(s: State, parent: nat, child: nat)
    requires Inv(s) && ForkEnabled(s, parent, child) && RoomToShare(s, parent)
    ensures var r := Exit(Fork(s, parent, child), child);
      r.counter == s.counter && r.free == s.free && r.live == s.live && r.tables[child] == map[]
  {
    var k := Fork(s, parent, child);
    ForkIs(s, parent, child);
    ReleasingStart(k, s, parent, child);
    ReleasingAll(k.(live := k.live - {child}), s, parent, child, 0);
    ReleasingEnd(Exit(k, child), s, parent, child);
  }

  // ---------- forks whose children are never released ----------

  // n times: fork, and let the child end without process_exit.
  function AbandonedForks(parent: nat, child: nat, n: nat): seq<Op>
    decreases n, 0
  {
    if n == 0 then [] else [ForkOp(parent, child)] + AfterFork(parent, child, n - 1)
  }

  function AfterFork(parent: nat, child: nat, n: nat): seq<Op>
    decreases n, 1
  {
    [AbandonOp(child)] + AbandonedForks(parent, child, n)
  }

  // No page that parent shares has a larger counter than frame f.
  ghost predicate Busiest(s: State, parent: nat, f: nat)
    requires Shaped(s) && parent < N_PROC && f < N_FRAMES
  {
    forall p, g | Shares(s, parent, p, g) && 0 <= g < N_FRAMES :: s.counter[g] <= s.counter[f]
  }

  lemma AbandonedForkStep(q: State, s: State, parent: nat, child: nat, k: nat)
    requires Inv(s) && ForkEnabled(s, parent, child) && parent != child && FramesLeft(s, 2 * k + 2) && k > 0
    requires Inv(q) && ForkedTables(q, s, parent, child)
    ensures var r := q.(live := s.live);
      Inv(r) && Enabled(q, AbandonOp(child)) && Step(q, AbandonOp(child)) == r && FramesLeft(r, 2 * k) && ForkEnabled(r, parent, child)
  {
    DeadKeeps(q, child);
    assert q.live - {child} == s.live;
    assert forall i | 0 <= i < 2 * k :: q.free[i] == s.free[i + 2];
  }

  lemma AbandonedForkCounters(q: State, s: State, parent: nat, child: nat, p: int, f: nat)
    requires Inv(s) && ForkEnabled(s, parent, child) && parent != child && IsForkOf(q, s, parent, child)
    requires Shares(s, parent, p, f) && f < N_FRAMES && Busiest(s, parent, f) && s.counter[f] < 255
    ensures q.counter[f] == s.counter[f] + 1 && Shares(q, parent, p, f) && Busiest(q, parent, f)
  {
    MappedIsCounted(s, parent, p);
    forall p', g | Shares(q, parent, p', g) && 0 <= g < N_FRAMES
      ensures q.counter[g] <= s.counter[f] + 1
    {
      assert Shares(s, parent, p', g);
    }
  }

  // A fork in t leaves two processes on frame f while its counter reads 0.
  ghost predicate ForkWraps(t: State, parent: nat, child: nat, p: int, f: nat)
    requires Inv(t) && ForkEnabled(t, parent, child) && f < N_FRAMES
  {
    var r := Fork(t, parent, child);
    r.counter[f] == 0 && Maps(r, parent, p, f) && Maps(r, child, p, f) && !Inv(r)
  }

  lemma ForkWrapsAt(s: State, parent: nat, child: nat, p: int, f: nat)
    requires Inv(s) && ForkEnabled(s, parent, child)
    requires Shares(s, parent, p, f) && f < N_FRAMES && s.counter[f] == 255
    ensures ForkWraps(s, parent, child, p, f)
  {
    ForkIs(s, parent, child);
    WrapBreaks(Fork(s, parent, child), s, parent, child, p, f);
  }

  // A fork of child that does not wrap, and the exit of child without process_exit.
  ghost predicate Round(s: State, r: State, parent: nat, child: nat) {
    && Shaped(s) && Enabled(s, ForkOp(parent, child)) && NoWrap(s, ForkOp(parent, child))
    && var q := Step(s, ForkOp(parent, child));
       Enabled(q, AbandonOp(child)) && Step(q, AbandonOp(child)) == r
  }

  // One round: the counter has grown by one and another round can follow.
  lemma AbandonedRound(s: State, parent: nat, child: nat, p: int, f: nat, k: nat) returns (r: State)
    requires Inv(s) && ForkEnabled(s, parent, child) && parent != child && FramesLeft(s, 2 * k + 2) && k > 0
    requires Shares(s, parent, p, f) && f < N_FRAMES && Busiest(s, parent, f) && s.counter[f] < 255
    ensures Round(s, r, parent, child)
    ensures Inv(r) && ForkEnabled(r, parent, child) && FramesLeft(r, 2 * k) && r.live == s.live
    ensures Shares(r, parent, p, f) && Busiest(r, parent, f) && r.counter[f] == s.counter[f] + 1
  {
    var q := Fork(s, parent, child);
    ForkIs(s, parent, child);
    ForkKeepsIff(s, parent, child);
    AbandonedForkStep(q, s, parent, child, k);
    AbandonedForkCounters(q, s, parent, child, p, f);
    r := q.(live := s.live);
    AbandonedSame(q, r, parent, p, f);
  }

  lemma AbandonedSame(q: State, r: State, parent: nat, p: int, f: nat)
    requires Shaped(q) && Shaped(r) && parent < N_PROC && f < N_FRAMES
    requires r.tables == q.tables && r.counter == q.counter && Shares(q, parent, p, f) && Busiest(q, parent, f)
    ensures Shares(r, parent, p, f) && Busiest(r, parent, f)
  {
    forall p', g | Shares(r, parent, p', g) && 0 <= g < N_FRAMES ensures r.counter[g] <= r.counter[f] {
      assert Shares(q, parent, p', g);
    }
  }

  ghost predicate RunsTo(s: State, ops: seq<Op>, t: State) {
    Shaped(s) && ValidRun(s, ops) && Run(s, ops) == t
  }

  lemma {:induction false} OneStep(s: State, a: Op, rest: seq<Op>, t: State)
    requires Shaped(s) && Enabled(s, a) && NoWrap(s, a) && RunsTo(Step(s, a), rest, t)
    ensures RunsTo(s, [a] + rest, t)
  {
    var ops := [a] + rest;
    assert ops[0] == a && ops[1..] == rest;
  }

  lemma {:induction false} OneRound(s: State, r: State, parent: nat, child: nat, n: nat, t: State)
    requires Round(s, r, parent, child) && RunsTo(r, AbandonedForks(parent, child, n), t)
    ensures RunsTo(s, AbandonedForks(parent, child, n + 1), t)
  {
    hide Step;
    hide Enabled;
    hide RunsTo;
    OneStep(Step(s, ForkOp(parent, child)), AbandonOp(child), AbandonedForks(parent, child, n), t);
    OneStep(s, ForkOp(parent, child), AfterFork(parent, child, n), t);
  }

  lemma NoForks(s: State, parent: nat, child: nat)
    requires Shaped(s)
    ensures RunsTo(s, AbandonedForks(parent, child, 0), s)
  {
  }

  // k more rounds are possible, and the busiest counter is at c.
  ghost predicate Ready(s: State, parent: nat, child: nat, p: int, f: nat, k: nat, c: nat) {
    && Inv(s) && ForkEnabled(s, parent, child) && parent != child && FramesLeft(s, 2 * k + 2)
    && Shares(s, parent, p, f) && f < N_FRAMES && Busiest(s, parent, f) && s.counter[f] == c
  }

  lemma ReadyRound(s: State, parent: nat, child: nat, p: int, f: nat, k: nat, c: nat) returns (r: State)
    requires Ready(s, parent, child, p, f, k, c) && k > 0 && c < 255
    ensures Round(s, r, parent, child) && Ready(r, parent, child, p, f, k - 1, c + 1) && r.live == s.live
  {
    hide Inv;
    hide ForkEnabled;
    hide FramesLeft;
    hide Shares;
    hide Busiest;
    hide Round;
    r := AbandonedRound(s, parent, child, p, f, k);
    assert 2 * (k - 1) + 2 == 2 * k;
  }

  lemma {:induction false} AbandonedRounds(s: State, parent: nat, child: nat, p: int, f: nat, n: nat, spare: nat, c: nat) returns (t: State)
    requires c + n <= 255 && Ready(s, parent, child, p, f, n + spare, c)
    ensures RunsTo(s, AbandonedForks(parent, child, n), t)
    ensures Ready(t, parent, child, p, f, spare, c + n) && t.live == s.live
    decreases n
  {
    hide *;
    if n == 0 {
      ReadyIsShaped(s, parent, child, p, f, spare, c);
      NoForks(s, parent, child);
      t := s;
    } else {
      var r := ReadyRound(s, parent, child, p, f, n + spare, c);
      t := AbandonedRounds(r, parent, child, p, f, n - 1, spare, c + 1);
      OneRound(s, r, parent, child, n - 1, t);
    }
  }

  lemma ReadyIsShaped(s: State, parent: nat, child: nat, p: int, f: nat, k: nat, c: nat)
    requires Ready(s, parent, child, p, f, k, c)
    ensures Shaped(s)
  {
  }

  // Without process_exit the counters of shared pages grow by one per fork, and 255 - c of
  // them lead to a fork that wraps. Frames that the forks do not need are left over.
  lemma AbandonedForksWrap(s: State, parent: nat, child: nat, p: int, f: nat, n: nat, spare: nat) returns (t: State)
    requires Inv(s) && ForkEnabled(s, parent, child) && parent != child && FramesLeft(s, 2 * (n + spare) + 2)
    requires Shares(s, parent, p, f) && f < N_FRAMES && Busiest(s, parent, f) && s.counter[f] + n == 255
    ensures RunsTo(s, AbandonedForks(parent, child, n), t)
    ensures Inv(t) && ForkEnabled(t, parent, child) && ForkWraps(t, parent, child, p, f)
    ensures FramesLeft(t, 2 * spare + 2) && t.live == s.live && Shares(t, parent, p, f)
  {
    var c := s.counter[f];
    assert Ready(s, parent, child, p, f, n + spare, c);
    hide Inv;
    hide ForkEnabled;
    hide FramesLeft;
    hide Shares;
    hide Busiest;
    hide RunsTo;
    hide AbandonedForks;
    hide ForkWraps;
    t := AbandonedRounds(s, parent, child, p, f, n, spare, c);
    ForkWrapsAt(t, parent, child, p, f);
  }
}
