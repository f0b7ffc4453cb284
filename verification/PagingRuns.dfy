/**
 Runs of the paging machine, and the machine they must be indistinguishable from: one
 that copies the whole address space at every fork.
 */
module PagingRuns {
  import opened Bytes
  import opened PagingModel
  import opened PagingSafety
  import opened PagingFork

  datatype Op =
    | ForkOp(parent: nat, child: nat)
    | HeapFault(pid: nat, page: nat, el0: bool)                        // translation_fault_handler
    | WriteOp(pid: nat, page: nat, offset: nat, value: Byte, el0: bool)  // a store, faulting first if it must
    | FreeOp(pid: nat, page: nat)                                      // mem_manager_free_virtual_page
    | ExitOp(pid: nat)                                                 // process_exit
    | AbandonOp(pid: nat)                                              // syscall_exit: the tables stay

  predicate El0Writable(perm: Perm) {
    perm == UserPage || perm == DataPage
  }

  // What the kernel's own checks and the hardware let happen.
  ghost predicate Enabled(s: State, op: Op)
    requires Shaped(s)
  {
    match op
    case ForkOp(parent, child) => ForkEnabled(s, parent, child)
    case HeapFault(pid, page, _) =>
      pid in s.live && pid < N_PROC && page !in s.tables[pid] && page < TIMER_PAGE && FramesLeft(s, 1)
    case WriteOp(pid, page, offset, _, el0) =>
      && pid in s.live && pid < N_PROC && page in s.tables[pid] && offset < GRANULE
      && (el0 && !El0Writable(s.tables[pid][page].perm) && s.counter[s.tables[pid][page].frame] > 1 ==> FramesLeft(s, 1))
      && (!el0 ==> s.tables[pid][page].perm != ForkedPage)
    case FreeOp(pid, page) => pid in s.live && pid < N_PROC && page in s.tables[pid] && page < TIMER_PAGE
    case ExitOp(pid) => pid in s.live && pid < N_PROC
    case AbandonOp(pid) => pid in s.live && pid < N_PROC
  }

  // The state in which the store of a WriteOp is retried.
  function Writable(s: State, pid: nat, page: nat, el0: bool): (r: State)
    requires Shaped(s) && pid < N_PROC && page in s.tables[pid]
    requires el0 && !El0Writable(s.tables[pid][page].perm) && s.counter[s.tables[pid][page].frame] > 1 ==> |s.free| > 0
    ensures Shaped(r) && page in r.tables[pid]
  {
    if el0 && !El0Writable(s.tables[pid][page].perm) then Privatise(s, pid, page) else s
  }

  ghost function Step(s: State, op: Op): (r: State)
    requires Shaped(s) && Enabled(s, op)
    ensures Shaped(r)
  {
    match op
    case ForkOp(parent, child) => Fork(s, parent, child)
    case HeapFault(pid, page, el0) => NewPage(s, pid, page, if el0 then UserPage else KernelPage)
    case WriteOp(pid, page, offset, value, el0) => Store(Writable(s, pid, page, el0), pid, page, offset, value)
    case FreeOp(pid, page) => Release(s, pid, page)
    case ExitOp(pid) => Exit(s, pid)
    case AbandonOp(pid) => s.(live := s.live - {pid})
  }

  // A fork finds no bind counter at 255.
  ghost predicate NoWrap(s: State, op: Op)
    requires Shaped(s) && Enabled(s, op)
  {
    op.ForkOp? ==> RoomToShare(s, op.parent)
  }

  // ---------- invariance ----------

  lemma WritableKeeps(s: State, pid: nat, page: nat, el0: bool)
    requires Inv(s) && Enabled(s, WriteOp(pid, page, 0, 0, el0))
    ensures Inv(Writable(s, pid, page, el0))
    ensures Writable(s, pid, page, el0).tables[pid][page].perm != ForkedPage
    ensures Writable(s, pid, page, el0).live == s.live
  {
    if el0 && !El0Writable(s.tables[pid][page].perm) {
      if s.counter[s.tables[pid][page].frame] > 1 {
        PrivatiseSharedKeeps(s, pid, page);
      } else {
        PrivatiseAloneKeeps(s, pid, page);
      }
    }
  }

  lemma {:induction false} ReleaseFromKeeps(s: State, pid: nat, page: nat)
    requires Inv(s) && pid < N_PROC && pid !in s.live && page <= GPIO_PAGE
    ensures Inv(ReleaseFrom(s, pid, page))
    ensures ReleaseFrom(s, pid, page).live == s.live
    decreases GPIO_PAGE - page
  {
    if page < GPIO_PAGE {
      if page in s.tables[pid] {
        ReleaseKeeps(s, pid, page);
        ReleaseFromKeeps(Release(s, pid, page), pid, page + 1);
      } else {
        ReleaseFromKeeps(s, pid, page + 1);
      }
    }
  }

  lemma DeadKeeps(s: State, pid: nat)
    requires Inv(s)
    ensures Inv(s.(live := s.live - {pid}))
  {
    var t := s.(live := s.live - {pid});
    forall f: nat ensures Mappings(t, f) == Mappings(s, f) {}
    CoherentAfterRemove(s, t);
    forall q, p | 0 <= q < N_PROC && p in t.tables[q]
      ensures UserEntry(t, q, p)
    {
      EntryKept(s, t, q, p);
    }
  }

  lemma StepKeeps(s: State, op: Op)
    requires Inv(s) && Enabled(s, op) && NoWrap(s, op)
    ensures Inv(Step(s, op))
  {
    match op
    case ForkOp(parent, child) => ForkKeepsIff(s, parent, child);
    case HeapFault(pid, page, el0) => NewPageKeeps(s, pid, page, if el0 then UserPage else KernelPage);
    case WriteOp(pid, page, offset, value, el0) =>
      WritableKeeps(s, pid, page, el0);
      StoreKeeps(Writable(s, pid, page, el0), pid, page, offset, value);
    case FreeOp(pid, page) => ReleaseKeeps(s, pid, page);
    case ExitOp(pid) =>
      DeadKeeps(s, pid);
      ReleaseFromKeeps(s.(live := s.live - {pid}), pid, 0);
    case AbandonOp(pid) => DeadKeeps(s, pid);
  }

  // ---------- eager copying ----------

  type AddressSpace = map<int, seq<Byte>>
  type View = map<int, AddressSpace>

  // What a process reads, page by page.
  ghost function Space(s: State, pid: nat): AddressSpace
    requires Shaped(s) && pid < N_PROC
  {
    map p | p in s.tables[pid] :: s.mem[s.tables[pid][p].frame]
  }

  ghost function ViewOf(s: State): View
    requires Shaped(s)
  {
    map pid: int | pid in s.live && 0 <= pid < N_PROC :: Space(s, pid)
  }

  ghost predicate EagerEnabled(v: View, op: Op) {
    match op
    case ForkOp(parent, child) => parent in v
    case WriteOp(pid, page, offset, _, _) => pid in v && page in v[pid] && offset < |v[pid][page]|
    case HeapFault(pid, _, _) => pid in v
    case FreeOp(pid, _) => pid in v
    case ExitOp(pid) => true
    case AbandonOp(pid) => true
  }

  // Every process owns its pages; a fork copies them all. A fresh heap page holds whatever
  // bytes its frame held.
  ghost function Eager(v: View, op: Op, fill: Content): View
    requires EagerEnabled(v, op)
  {
    match op
    case ForkOp(parent, child) => v[child := v[parent]]
    case HeapFault(pid, page, _) => v[pid := v[pid][page := fill]]
    case WriteOp(pid, page, offset, value, _) =>
      v[pid := v[pid][page := v[pid][page][offset := value]]]
    case FreeOp(pid, page) => v[pid := v[pid] - {page}]
    case ExitOp(pid) => v - {pid}
    case AbandonOp(pid) => v - {pid}
  }

  // ---------- refinement, one operation at a time ----------

  lemma SameSpace(s: State, q: nat, t: State, r: nat)
    requires Shaped(s) && Shaped(t) && q < N_PROC && r < N_PROC
    requires t.tables[r].Keys == s.tables[q].Keys
    requires forall p | p in s.tables[q] :: t.mem[t.tables[r][p].frame] == s.mem[s.tables[q][p].frame]
    ensures Space(t, r) == Space(s, q)
  {
    var a, b := Space(t, r), Space(s, q);
    assert a.Keys == b.Keys;
    assert forall p | p in a :: a[p] == b[p];
    assert a == b;
  }

  // The view changes at one process only.
  lemma ViewUpdated(s: State, t: State, pid: nat, space: AddressSpace)
    requires Shaped(s) && Shaped(t) && LiveOk(s) && pid < N_PROC
    requires t.live == s.live + {pid} && Space(t, pid) == space
    requires forall q | 0 <= q < N_PROC && q != pid :: Space(t, q) == Space(s, q)
    ensures ViewOf(t) == ViewOf(s)[pid := space]
  {
  }

  lemma ViewReduced(s: State, t: State, pid: nat)
    requires Shaped(s) && Shaped(t) && LiveOk(s)
    requires t.live == s.live - {pid}
    requires forall q | 0 <= q < N_PROC && q != pid :: Space(t, q) == Space(s, q)
    ensures ViewOf(t) == ViewOf(s) - {pid}
  {
  }

  lemma NotFresh(s: State, pid: nat, i: nat)
    requires Inv(s) && pid < N_PROC && i < |s.free|
    ensures forall p | p in s.tables[pid] :: s.tables[pid][p].frame != s.free[i]
  {
    forall p | p in s.tables[pid] ensures s.tables[pid][p].frame != s.free[i] {
      MappedIsCounted(s, pid, p);
    }
  }

  lemma HeapFaultRefines(s: State, pid: nat, page: nat, perm: Perm)
    requires Inv(s) && pid in s.live && pid < N_PROC && page !in s.tables[pid] && |s.free| > 0
    ensures ViewOf(NewPage(s, pid, page, perm)) == ViewOf(s)[pid := ViewOf(s)[pid][page := s.mem[s.free[0]]]]
  {
    var t := NewPage(s, pid, page, perm);
    assert Space(t, pid) == Space(s, pid)[page := s.mem[s.free[0]]];
    forall q | 0 <= q < N_PROC && q != pid ensures Space(t, q) == Space(s, q) {
      assert t.tables[q] == s.tables[q];
    }
    ViewUpdated(s, t, pid, Space(t, pid));
  }

  lemma PrivatiseSpace(s: State, pid: nat, page: nat, q: nat)
    requires Inv(s) && pid < N_PROC && page in s.tables[pid] && q < N_PROC
    requires s.counter[s.tables[pid][page].frame] > 1 ==> FramesLeft(s, 1)
    ensures Space(Privatise(s, pid, page), q) == Space(s, q)
  {
    if s.counter[s.tables[pid][page].frame] > 1 {
      NotFresh(s, q, 0);
    }
    SameSpace(s, q, Privatise(s, pid, page), q);
  }

  // Moving a page to a frame with the same bytes is invisible.
  lemma PrivatiseInvisible(s: State, pid: nat, page: nat)
    requires Inv(s) && pid in s.live && pid < N_PROC && page in s.tables[pid]
    requires s.counter[s.tables[pid][page].frame] > 1 ==> FramesLeft(s, 1)
    ensures ViewOf(Privatise(s, pid, page)) == ViewOf(s)
  {
    var t := Privatise(s, pid, page);
    assert t.live == s.live + {pid};
    forall q | 0 <= q < N_PROC ensures Space(t, q) == Space(s, q) {
      PrivatiseSpace(s, pid, page, q);
    }
    ViewUpdated(s, t, pid, Space(t, pid));
  }

  // A writable mapping is its frame's only one.
  lemma OnlyWriter(s: State, pid: nat, page: nat, q: nat, p: int)
    requires Inv(s) && pid < N_PROC && page in s.tables[pid] && s.tables[pid][page].perm != ForkedPage
    requires q < N_PROC && p in s.tables[q] && s.tables[q][p].frame == s.tables[pid][page].frame
    ensures q == pid && p == page
  {
    var f := s.tables[pid][page].frame;
    assert Maps(s, pid, page, f) && Maps(s, q, p, f);
  }

  // A store through a writable mapping reaches one page of one process.
  lemma StoreSpace(s: State, pid: nat, page: nat, offset: nat, value: Byte)
    requires Inv(s) && pid < N_PROC && page in s.tables[pid] && offset < GRANULE && s.tables[pid][page].perm != ForkedPage
    ensures Space(Store(s, pid, page, offset, value), pid) == Space(s, pid)[page := Space(s, pid)[page][offset := value]]
  {
    var t := Store(s, pid, page, offset, value);
    var a, b := Space(t, pid), Space(s, pid)[page := Space(s, pid)[page][offset := value]];
    assert a.Keys == b.Keys;
    forall p | p in a ensures a[p] == b[p] {
      if p != page && s.tables[pid][p].frame == s.tables[pid][page].frame {
        OnlyWriter(s, pid, page, pid, p);
      }
    }
    assert a == b;
  }

  lemma StoreElsewhere(s: State, pid: nat, page: nat, offset: nat, value: Byte, q: nat)
    requires Inv(s) && pid < N_PROC && page in s.tables[pid] && offset < GRANULE && s.tables[pid][page].perm != ForkedPage
    requires q < N_PROC && q != pid
    ensures Space(Store(s, pid, page, offset, value), q) == Space(s, q)
  {
    var t := Store(s, pid, page, offset, value);
    forall p | p in s.tables[q] ensures t.mem[t.tables[q][p].frame] == s.mem[s.tables[q][p].frame] {
      if s.tables[q][p].frame == s.tables[pid][page].frame {
        OnlyWriter(s, pid, page, q, p);
      }
    }
    SameSpace(s, q, t, q);
  }

  lemma StoreRefines(s: State, pid: nat, page: nat, offset: nat, value: Byte)
    requires Inv(s) && pid in s.live && pid < N_PROC && page in s.tables[pid] && offset < GRANULE
    requires s.tables[pid][page].perm != ForkedPage
    ensures ViewOf(Store(s, pid, page, offset, value)) ==
      ViewOf(s)[pid := ViewOf(s)[pid][page := ViewOf(s)[pid][page][offset := value]]]
  {
    assert Shaped(s) && LiveOk(s);
    hide Inv;
    var t := Store(s, pid, page, offset, value);
    assert t.live == s.live + {pid};
    assert ViewOf(s)[pid] == Space(s, pid);
    hide Space;
    hide Store;
    StoreSpace(s, pid, page, offset, value);
    forall q | 0 <= q < N_PROC && q != pid ensures Space(t, q) == Space(s, q) {
      StoreElsewhere(s, pid, page, offset, value, q);
    }
    hide ViewOf;
    ViewUpdated(s, t, pid, Space(t, pid));
  }

  lemma ReleaseSpaces(s: State, pid: nat, page: nat)
    requires Shaped(s) && pid < N_PROC && page in s.tables[pid]
    ensures Space(Release(s, pid, page), pid) == Space(s, pid) - {page}
    ensures forall q | 0 <= q < N_PROC && q != pid :: Space(Release(s, pid, page), q) == Space(s, q)
  {
    var t := Release(s, pid, page);
    forall q | 0 <= q < N_PROC && q != pid ensures Space(t, q) == Space(s, q) {
      assert t.tables[q] == s.tables[q];
    }
  }

  lemma ReleaseRefines(s: State, pid: nat, page: nat)
    requires Inv(s) && pid in s.live && pid < N_PROC && page in s.tables[pid]
    ensures ViewOf(Release(s, pid, page)) == ViewOf(s)[pid := ViewOf(s)[pid] - {page}]
  {
    var t := Release(s, pid, page);
    ReleaseSpaces(s, pid, page);
    assert t.live == s.live + {pid};
    ViewUpdated(s, t, pid, Space(t, pid));
  }

  lemma {:induction false} ReleaseFromOthers(s: State, pid: nat, page: nat, q: nat)
    requires Shaped(s) && pid < N_PROC && page <= GPIO_PAGE && q < N_PROC && q != pid
    ensures Space(ReleaseFrom(s, pid, page), q) == Space(s, q)
    ensures ReleaseFrom(s, pid, page).live == s.live
    decreases GPIO_PAGE - page
  {
    if page < GPIO_PAGE {
      if page in s.tables[pid] {
        ReleaseSpaces(s, pid, page);
        ReleaseFromOthers(Release(s, pid, page), pid, page + 1, q);
      } else {
        ReleaseFromOthers(s, pid, page + 1, q);
      }
    }
  }

  lemma ExitRefines(s: State, pid: nat)
    requires Shaped(s) && LiveOk(s) && pid < N_PROC
    ensures ViewOf(Exit(s, pid)) == ViewOf(s) - {pid}
  {
    var d := s.(live := s.live - {pid});
    var t := ReleaseFrom(d, pid, 0);
    forall q | 0 <= q < N_PROC && q != pid
      ensures Space(t, q) == Space(s, q) && t.live == s.live - {pid}
    {
      ReleaseFromOthers(d, pid, 0, q);
      SameSpace(s, q, d, q);
    }
    var other := if pid == 0 then 1 else 0;
    ReleaseFromOthers(d, pid, 0, other);
    ViewReduced(s, t, pid);
  }

  lemma ForkMem(s: State, parent: nat, child: nat)
    requires Inv(s) && ForkEnabled(s, parent, child)
    ensures Fork(s, parent, child).mem ==
      s.mem[s.free[0] := s.mem[s.tables[parent][STACK_PAGE_1].frame]][s.free[1] := s.mem[s.tables[parent][STACK_PAGE_2].frame]]
  {
    StackFrames(s, parent, child);
  }

  lemma ForkChildSpace(r: State, s: State, parent: nat, child: nat)
    requires Inv(s) && ForkEnabled(s, parent, child) && ForkedTables(r, s, parent, child)
    requires r.mem == s.mem[s.free[0] := s.mem[s.tables[parent][STACK_PAGE_1].frame]][s.free[1] := s.mem[s.tables[parent][STACK_PAGE_2].frame]]
    ensures Space(r, child) == Space(s, parent)
  {
    NotFresh(s, parent, 0);
    NotFresh(s, parent, 1);
    SameSpace(s, parent, r, child);
  }

  lemma ForkOtherSpace(r: State, s: State, parent: nat, child: nat, q: nat)
    requires Inv(s) && ForkEnabled(s, parent, child) && ForkedTables(r, s, parent, child) && q < N_PROC && q != child
    requires r.mem == s.mem[s.free[0] := s.mem[s.tables[parent][STACK_PAGE_1].frame]][s.free[1] := s.mem[s.tables[parent][STACK_PAGE_2].frame]]
    ensures Space(r, q) == Space(s, q)
  {
    NotFresh(s, q, 0);
    NotFresh(s, q, 1);
    SameSpace(s, q, r, q);
  }

  lemma ForkSpaces(r: State, s: State, parent: nat, child: nat)
    requires Inv(s) && ForkEnabled(s, parent, child) && ForkedTables(r, s, parent, child)
    requires r.mem == s.mem[s.free[0] := s.mem[s.tables[parent][STACK_PAGE_1].frame]][s.free[1] := s.mem[s.tables[parent][STACK_PAGE_2].frame]]
    ensures ViewOf(r) == ViewOf(s)[child := ViewOf(s)[parent]]
  {
    assert Shaped(s) && LiveOk(s);
    hide Inv;
    ForkChildSpace(r, s, parent, child);
    forall q | 0 <= q < N_PROC && q != child ensures Space(r, q) == Space(s, q) {
      ForkOtherSpace(r, s, parent, child, q);
    }
    assert ViewOf(s)[parent] == Space(s, parent);
    hide Space;
    hide ViewOf;
    ViewUpdated(s, r, child, Space(r, child));
  }

  // The child reads what the parent read, stack pages included.
  lemma ForkRefines(s: State, parent: nat, child: nat)
    requires Inv(s) && ForkEnabled(s, parent, child)
    ensures ViewOf(Fork(s, parent, child)) == ViewOf(s)[child := ViewOf(s)[parent]]
  {
    ForkMem(s, parent, child);
    ForkTables(s, parent, child);
    ForkSpaces(Fork(s, parent, child), s, parent, child);
  }

  lemma WriteRefines(s: State, pid: nat, page: nat, offset: nat, value: Byte, el0: bool)
    requires Inv(s) && Enabled(s, WriteOp(pid, page, offset, value, el0))
    ensures ViewOf(Store(Writable(s, pid, page, el0), pid, page, offset, value)) ==
      ViewOf(s)[pid := ViewOf(s)[pid][page := ViewOf(s)[pid][page][offset := value]]]
  {
    WritableKeeps(s, pid, page, el0);
    if el0 && !El0Writable(s.tables[pid][page].perm) {
      PrivatiseInvisible(s, pid, page);
    }
    StoreRefines(Writable(s, pid, page, el0), pid, page, offset, value);
  }

  lemma AbandonRefines(s: State, pid: nat)
    requires Inv(s)
    ensures ViewOf(s.(live := s.live - {pid})) == ViewOf(s) - {pid}
  {
    var t := s.(live := s.live - {pid});
    forall q | 0 <= q < N_PROC ensures Space(t, q) == Space(s, q) {
      SameSpace(s, q, t, q);
    }
    ViewReduced(s, t, pid);
  }

  // What a live process reads is part of the view.
  lemma InView(s: State, pid: nat)
    requires Inv(s) && pid in s.live && pid < N_PROC
    ensures pid in ViewOf(s) && ViewOf(s)[pid] == Space(s, pid)
    ensures forall p | p in s.tables[pid] :: p in ViewOf(s)[pid] && |ViewOf(s)[pid][p]| == GRANULE
  {
  }

  lemma OperationInView(s: State, op: Op)
    requires Inv(s) && Enabled(s, op)
    ensures EagerEnabled(ViewOf(s), op)
  {
    match op
    case ForkOp(parent, _) => InView(s, parent);
    case HeapFault(pid, _, _) => InView(s, pid);
    case WriteOp(pid, _, _, _, _) => InView(s, pid);
    case FreeOp(pid, _) => InView(s, pid);
    case ExitOp(_) =>
    case AbandonOp(_) =>
  }

  // One step of the machine is one step of eager copying.
  lemma StepRefines(s: State, op: Op, fill: Content)
    requires Inv(s) && Enabled(s, op)
    requires op.HeapFault? ==> fill == s.mem[s.free[0]]
    ensures EagerEnabled(ViewOf(s), op)
    ensures ViewOf(Step(s, op)) == Eager(ViewOf(s), op, fill)
  {
    assert Shaped(s) && LiveOk(s);
    hide Inv;
    hide ViewOf;
    hide EagerEnabled;
    hide Fork;
    hide NewPage;
    hide Release;
    hide Exit;
    hide Store;
    hide Writable;
    OperationInView(s, op);
    match op
    case ForkOp(parent, child) => ForkRefines(s, parent, child);
    case HeapFault(pid, page, el0) => HeapFaultRefines(s, pid, page, if el0 then UserPage else KernelPage);
    case WriteOp(pid, page, offset, value, el0) => WriteRefines(s, pid, page, offset, value, el0);
    case FreeOp(pid, page) => ReleaseRefines(s, pid, page);
    case ExitOp(pid) => ExitRefines(s, pid);
    case AbandonOp(pid) => AbandonRefines(s, pid);
  }

  // ---------- runs ----------

  ghost predicate ValidRun(s: State, ops: seq<Op>)
    requires Shaped(s)
    decreases |ops|
  {
    ops == [] || (Enabled(s, ops[0]) && NoWrap(s, ops[0]) && ValidRun(Step(s, ops[0]), ops[1..]))
  }

  ghost function Run(s: State, ops: seq<Op>): (r: State)
    requires Shaped(s) && ValidRun(s, ops)
    ensures Shaped(r)
    decreases |ops|
  {
    if ops == [] then s else Run(Step(s, ops[0]), ops[1..])
  }

  // The bytes found in the frames that the run hands out, one per operation.
  ghost function Fills(s: State, ops: seq<Op>): (fills: seq<Content>)
    requires Shaped(s) && ValidRun(s, ops)
    ensures |fills| == |ops|
    decreases |ops|
  {
    if ops == [] then []
    else [s.mem[if |s.free| > 0 then s.free[0] else 0]] + Fills(Step(s, ops[0]), ops[1..])
  }

  // Eager copying takes v to v' by the same operations.
  ghost predicate EagerRun(v: View, ops: seq<Op>, fills: seq<Content>, v': View)
    requires |fills| == |ops|
    decreases |ops|
  {
    if ops == [] then v == v'
    else EagerEnabled(v, ops[0]) && EagerRun(Eager(v, ops[0], fills[0]), ops[1..], fills[1..], v')
  }

  // Over every run the invariant holds and every process reads what it would read had each
  // fork copied the whole address space.
  lemma {:induction false} CopyOnWriteRefinesEagerCopy(s: State, ops: seq<Op>)
    requires Inv(s) && ValidRun(s, ops)
    ensures Inv(Run(s, ops))
    ensures EagerRun(ViewOf(s), ops, Fills(s, ops), ViewOf(Run(s, ops)))
    decreases |ops|
  {
    if ops != [] {
      StepKeeps(s, ops[0]);
      StepRefines(s, ops[0], Fills(s, ops)[0]);
      assert Fills(s, ops)[1..] == Fills(Step(s, ops[0]), ops[1..]);
      CopyOnWriteRefinesEagerCopy(Step(s, ops[0]), ops[1..]);
    }
  }
}
