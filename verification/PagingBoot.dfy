/**
 The frame stack and the tables that the kernel boots with.
 */
module PagingBoot {
  import opened PagingModel
  import opened PagingSafety
  import opened PagingRuns
  import opened PagingCounters

  // Entry k of the initial frame stack; id is the number of identity-mapped frames.
  function InitialFrame(id: nat, k: nat): nat {
    if id + k < TIMER_PAGE then id + k
    else if id + k + 1 < GPIO_PAGE then id + k + 1
    else if id + k + 2 < GPIO_PAGE + 0x15 then id + k + 2
    else id + k + 3
  }

  // init_physical_memory_map: a page found to be a peripheral is replaced by the next page.
  method InitPhysicalMemoryMap(id: nat) returns (m: seq<nat>)
    requires id < TIMER_PAGE
    ensures |m| == N_FRAMES - id - 3
    ensures forall k | 0 <= k < |m| :: m[k] == InitialFrame(id, k)
    ensures forall i, j | 0 <= i < j < |m| :: m[i] < m[j]
    ensures forall f :: f in m <==> id <= f < N_FRAMES && f != TIMER_PAGE && f != GPIO_PAGE && f != GPIO_PAGE + 0x15
  {
    m := [];
    var delta := 0;
    for i := 0 to N_FRAMES - id - 3
      invariant |m| == i && forall k | 0 <= k < i :: m[k] == InitialFrame(id, k)
      invariant delta == (if id + i <= TIMER_PAGE then 0 else if id + i + 1 <= GPIO_PAGE then 1
                          else if id + i + 2 <= GPIO_PAGE + 0x15 then 2 else 3)
    {
      var page := i + delta + id;
      if page == GPIO_PAGE || page == GPIO_PAGE + 0x1 || page == GPIO_PAGE + 0x15 || page == TIMER_PAGE {
        delta := delta + 1;
      }
      m := m + [i + delta + id];
    }
    forall f | id <= f < N_FRAMES && f != TIMER_PAGE && f != GPIO_PAGE && f != GPIO_PAGE + 0x15 ensures f in m {
      var k := FrameIndex(id, f);
      assert m[k] == f;
    }
  }

  lemma FrameIndex(id: nat, f: nat) returns (k: nat)
    requires id < TIMER_PAGE && id <= f < N_FRAMES && f != TIMER_PAGE && f != GPIO_PAGE && f != GPIO_PAGE + 0x15
    ensures k < N_FRAMES - id - 3 && InitialFrame(id, k) == f
  {
    k := if f < TIMER_PAGE then f - id else if f < GPIO_PAGE then f - id - 1 else if f < GPIO_PAGE + 0x15 then f - id - 2 else f - id - 3;
  }

  function InitialFree(id: nat): (m: seq<nat>)
    requires id < TIMER_PAGE
  {
    seq(N_FRAMES - id - 3, k requires 0 <= k => InitialFrame(id, k))
  }

  // The stack holds one peripheral, GPIO_BASE + 0x1000, and nothing but RAM before it.
  lemma OnePeripheralIsNotSkipped(id: nat, k: nat)
    requires id < TIMER_PAGE && k < |InitialFree(id)|
    ensures InitialFree(id)[k] in PERIPHERALS <==> InitialFree(id)[k] == GPIO_PAGE + 0x1
    ensures InitialFree(id)[k] == GPIO_PAGE + 0x1 <==> k == GPIO_PAGE - 1 - id
  {
  }

  // Boot: the kernel and init have two stack pages each.
  function BootTable(id: nat, pid: int): (t: Table)
    requires id + 4 < TIMER_PAGE
    ensures FramesOk(t)
    ensures forall p :: p in t <==> 0 <= pid <= 1 && IsStack(p)
    ensures forall p :: p in t ==> t[p] == if p == STACK_PAGE_1 then Pte(id + 2 * pid, DataPage) else Pte(id + 2 * pid + 1, KernelPage)
  {
    if 0 <= pid <= 1 then map[STACK_PAGE_1 := Pte(id + 2 * pid, DataPage), STACK_PAGE_2 := Pte(id + 2 * pid + 1, KernelPage)]
    else map[]
  }

  function BootTables(id: nat): (ts: seq<Table>)
    requires id + 4 < TIMER_PAGE
    ensures |ts| == N_PROC && forall pid :: 0 <= pid < N_PROC ==> ts[pid] == BootTable(id, pid)
  {
    seq(N_PROC, pid => BootTable(id, pid))
  }

  function Boot(id: nat, mem: seq<Content>): (s: State)
    requires id + 4 < TIMER_PAGE && |mem| == N_FRAMES
    ensures Shaped(s)
  {
    State(BootTables(id), seq(N_FRAMES, f => if id <= f < id + 4 then 1 else 0), InitialFree(id)[4..], mem, {0, 1})
  }

  // Before c_init_mmu hands out a page: empty tables, the whole stack of frames, counters at 0.
  function Empty(id: nat, mem: seq<Content>): (s: State)
    requires id + 4 < TIMER_PAGE && |mem| == N_FRAMES
    ensures Shaped(s)
  {
    State(seq(N_PROC, pid => map[]), seq(N_FRAMES, f => 0), InitialFree(id), mem, {0, 1})
  }

  // c_init_mmu of one process: two calls of get_new_page, for its stack.
  function WithStack(s: State, pid: nat): (r: State)
    requires Shaped(s) && pid < N_PROC && |s.free| > 1
    ensures Shaped(r) && |r.free| == |s.free| - 2
  {
    NewPage(NewPage(s, pid, STACK_PAGE_1, DataPage), pid, STACK_PAGE_2, KernelPage)
  }

  // The state after boot is what c_init_mmu of the kernel and of init make of the empty one.
  lemma BootIsFourPages(id: nat, mem: seq<Content>)
    requires id + 4 < TIMER_PAGE && |mem| == N_FRAMES
    ensures Boot(id, mem) == WithStack(WithStack(Empty(id, mem), 0), 1)
  {
    var e, b := Empty(id, mem), Boot(id, mem);
    var k := WithStack(e, 0);
    assert e.free[0] == id && e.free[1] == id + 1 && e.free[2] == id + 2 && e.free[3] == id + 3;
    assert k.free == e.free[2..] && k.tables[0] == BootTable(id, 0);
    var s := WithStack(k, 1);
    assert s.free == e.free[4..] && s.tables[1] == BootTable(id, 1);
    assert forall pid | 0 <= pid < N_PROC :: s.tables[pid] == b.tables[pid];
    assert forall f | 0 <= f < N_FRAMES :: s.counter[f] == b.counter[f];
    assert s.tables == b.tables && s.counter == b.counter;
  }

  lemma BootMappings(id: nat, mem: seq<Content>, f: nat)
    requires id + 4 < TIMER_PAGE && |mem| == N_FRAMES
    ensures |Mappings(Boot(id, mem), f)| == if id <= f < id + 4 then 1 else 0
  {
    var s := Boot(id, mem);
    forall pid, p | Slot(pid, p) in Mappings(s, f)
      ensures id <= f < id + 4 && pid == (f - id) / 2 && p == if (f - id) % 2 == 0 then STACK_PAGE_1 else STACK_PAGE_2
    {
      MapsIffMapping(s, pid, p, f);
    }
    if id <= f < id + 4 {
      var slot := Slot((f - id) / 2, if (f - id) % 2 == 0 then STACK_PAGE_1 else STACK_PAGE_2);
      MapsIffMapping(s, slot.pid, slot.page, f);
      assert Mappings(s, f) == {slot};
    } else {
      assert Mappings(s, f) == {};
    }
  }

  lemma BootMaps(id: nat, mem: seq<Content>, pid: int, p: int, f: int)
    requires id + 4 < TIMER_PAGE && |mem| == N_FRAMES && Maps(Boot(id, mem), pid, p, f)
    ensures 0 <= pid <= 1 && IsStack(p) && f == id + 2 * pid + if p == STACK_PAGE_1 then 0 else 1
  {
  }

  lemma BootTablesOk(id: nat, mem: seq<Content>)
    requires id + 4 < TIMER_PAGE && |mem| == N_FRAMES
    ensures Coherent(Boot(id, mem)) && UserEntries(Boot(id, mem)) && LiveOk(Boot(id, mem))
  {
    var s := Boot(id, mem);
    forall q, p, q', p', f | Maps(s, q, p, f) && Maps(s, q', p', f)
      ensures p == p' && q == q'
    {
      BootMaps(id, mem, q, p, f);
      BootMaps(id, mem, q', p', f);
    }
    forall q, p | 0 <= q < N_PROC && p in s.tables[q] ensures UserEntry(s, q, p) {
      BootMaps(id, mem, q, p, s.tables[q][p].frame);
    }
  }

  lemma BootFreeOk(id: nat, mem: seq<Content>)
    requires id + 4 < TIMER_PAGE && |mem| == N_FRAMES
    ensures FreeOk(Boot(id, mem))
  {
    var s := Boot(id, mem);
    assert forall i | 0 <= i < |s.free| :: s.free[i] == InitialFrame(id, i + 4) >= id + 4;
  }

  lemma BootKeeps(id: nat, mem: seq<Content>)
    requires id + 4 < TIMER_PAGE && |mem| == N_FRAMES
    ensures Inv(Boot(id, mem)) && Exact(Boot(id, mem), {})
  {
    hide Coherent;
    hide UserEntries;
    hide FreeOk;
    hide LiveOk;
    var s := Boot(id, mem);
    BootTablesOk(id, mem);
    BootFreeOk(id, mem);
    forall f | 0 <= f < N_FRAMES && f !in PERIPHERALS
      ensures |Mappings(s, f)| == s.counter[f]
    {
      BootMappings(id, mem, f);
    }
  }

  // Every run from boot: the invariant, and the view of eager copying.
  lemma EveryRunFromBoot(id: nat, mem: seq<Content>, ops: seq<Op>)
    requires id + 4 < TIMER_PAGE && |mem| == N_FRAMES && ValidRun(Boot(id, mem), ops)
    ensures Inv(Run(Boot(id, mem), ops))
    ensures EagerRun(ViewOf(Boot(id, mem)), ops, Fills(Boot(id, mem), ops), ViewOf(Run(Boot(id, mem), ops)))
  {
    BootKeeps(id, mem);
    CopyOnWriteRefinesEagerCopy(Boot(id, mem), ops);
  }
}
