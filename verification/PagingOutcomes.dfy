/**
 What a fork, a heap fault and a write leave in the tables: frames, permissions and the stack
 of free frames, page by page.
 */
module PagingOutcomes {
  import opened Bytes
  import opened PagingModel
  import opened PagingSafety
  import opened PagingFork
  import opened PagingRuns

  // One page after a fork: shared and read-only on both sides, or on the stack, where the
  // parent keeps its own and the child has a copy that it may write.
  ghost predicate PageForked(s: State, t: State, parent: nat, child: nat, p: int)
    requires Shaped(s) && Shaped(t) && parent < N_PROC && child < N_PROC && p in s.tables[parent]
    requires p in t.tables[parent] && p in t.tables[child]
  {
    var e := s.tables[parent][p];
    if p != STACK_PAGE_1 && p != STACK_PAGE_2 then
      t.tables[parent][p] == t.tables[child][p] == Pte(e.frame, ForkedPage)
    else
      && t.tables[parent][p] == e && El0Writable(t.tables[child][p].perm)
      && t.tables[child][p].frame != e.frame && t.mem[t.tables[child][p].frame] == s.mem[e.frame]
  }

  lemma ForkPages(s: State, parent: nat, child: nat)
    requires Inv(s) && Enabled(s, ForkOp(parent, child))
    ensures var t := Step(s, ForkOp(parent, child));
      && t.live == s.live + {child} && t.free == s.free[2..]
      && t.tables[parent].Keys == t.tables[child].Keys == s.tables[parent].Keys
      && (forall p | p in s.tables[parent] :: PageForked(s, t, parent, child, p))
      && (forall q | 0 <= q < N_PROC && q != parent && q != child :: t.tables[q] == s.tables[q])
  {
    hide Fork;
    hide Demoted;
    hide PageForked;
    assert Shaped(s);
    var t := Step(s, ForkOp(parent, child));
    ForkTables(s, parent, child);
    StackFrames(s, parent, child);
    ForkMem(s, parent, child);
    hide Inv;
    DemotedKeys(s.tables[parent]);
    forall p | p in s.tables[parent] ensures PageForked(s, t, parent, child, p) {
      ForkedAt(s, t, parent, child, p);
    }
  }

  lemma ForkedAt(s: State, t: State, parent: nat, child: nat, p: int)
    requires Shaped(s) && parent < N_PROC && child < N_PROC && parent != child && p in s.tables[parent] && |s.free| > 1
    requires HasStack(s, parent) && ForkedTables(t, s, parent, child) && s.free[0] != s.free[1]
    requires t.mem == s.mem[s.free[0] := s.mem[s.tables[parent][STACK_PAGE_1].frame]][s.free[1] := s.mem[s.tables[parent][STACK_PAGE_2].frame]]
    requires s.tables[parent][p].frame != s.free[0] && s.tables[parent][p].frame != s.free[1]
    ensures p in t.tables[parent] && p in t.tables[child] && PageForked(s, t, parent, child, p)
  {
    hide Demoted;
    DemotedAt(s.tables[parent], p);
  }

  lemma DemotedAt(t: Table, p: int)
    requires p in t
    ensures p in Demoted(t) && Demoted(t)[p] == if p == STACK_PAGE_1 || p == STACK_PAGE_2 then t[p] else Pte(t[p].frame, ForkedPage)
  {
  }

  lemma DemotedKeys(t: Table)
    ensures Demoted(t).Keys == t.Keys
  {
  }

  // A fault in the heap maps the first free frame, for the level that faulted.
  lemma FaultPage(s: State, pid: nat, page: nat, el0: bool)
    requires Inv(s) && Enabled(s, HeapFault(pid, page, el0))
    ensures var t := Step(s, HeapFault(pid, page, el0));
      && t.live == s.live && t.mem == s.mem && |s.free| > 0 && s.free == [s.free[0]] + t.free
      && page in t.tables[pid] && t.tables[pid][page].frame == s.free[0] && (El0Writable(t.tables[pid][page].perm) <==> el0)
      && t.tables[pid][page].perm != ForkedPage && t.tables[pid] - {page} == s.tables[pid]
      && (forall q | 0 <= q < N_PROC && q != pid :: t.tables[q] == s.tables[q])
  {
  }

  // After a write the byte is there and the page is one that its writer may write, so that the
  // retried store does not fault again; a page that already was is left where it is, and of a
  // page that was not, the writer keeps the frame if its counter was 1 and gets the first free one otherwise.
  lemma WritePage(s: State, op: Op)
    requires Inv(s) && op.WriteOp? && Enabled(s, op)
    ensures var t := Step(s, op); var e := s.tables[op.pid][op.page];
      && op.page in t.tables[op.pid] && t.tables[op.pid].Keys == s.tables[op.pid].Keys
      && (op.el0 ==> El0Writable(t.tables[op.pid][op.page].perm))
      && t.mem[t.tables[op.pid][op.page].frame] == s.mem[e.frame][op.offset := op.value]
      && (!op.el0 || El0Writable(e.perm) ==> t.tables == s.tables && t.counter == s.counter && t.free == s.free)
      && (op.el0 && !El0Writable(e.perm) ==>
            if s.counter[e.frame] > 1 then |s.free| > 0 && t.tables[op.pid][op.page].frame == s.free[0] && t.free == s.free[1..]
            else t.tables[op.pid][op.page].frame == e.frame && t.free == s.free && t.counter == s.counter)
  {
  }

  // An exit that releases its table leaves it empty, and every other table as it was.
  lemma ExitPages(s: State, pid: nat)
    requires Inv(s) && Enabled(s, ExitOp(pid))
    ensures var t := Step(s, ExitOp(pid));
      && t.live == s.live - {pid} && t.tables[pid] == map[] && t.mem == s.mem
      && (forall q | 0 <= q < N_PROC && q != pid :: t.tables[q] == s.tables[q])
  {
    var d := s.(live := s.live - {pid});
    ReleasedFrom(d, pid, 0);
    forall p | p in s.tables[pid] ensures 0 <= p < GPIO_PAGE {
      assert UserEntry(s, pid, p);
    }
    hide ReleaseFrom;
    assert forall p :: p !in Step(s, ExitOp(pid)).tables[pid];
  }

  lemma {:induction false} ReleasedFrom(s: State, pid: nat, page: nat)
    requires Shaped(s) && pid < N_PROC && page <= GPIO_PAGE
    ensures var t := ReleaseFrom(s, pid, page);
      && t.live == s.live && t.mem == s.mem
      && (forall p | p in t.tables[pid] :: p in s.tables[pid] && !(page <= p < GPIO_PAGE))
      && (forall q | 0 <= q < N_PROC && q != pid :: t.tables[q] == s.tables[q])
    decreases GPIO_PAGE - page
  {
    if page < GPIO_PAGE {
      var a := if page in s.tables[pid] then Release(s, pid, page) else s;
      ReleasedFrom(a, pid, page + 1);
    }
  }
}
