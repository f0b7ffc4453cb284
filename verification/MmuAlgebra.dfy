/**
 The detours that page copies take through reserved kernel pages cancel out.
 */
module MmuAlgebra {
  import opened PagingModel
  import opened PagingFork

  // bind_address of an identity-mapped frame, which has no counter.
  function BindUncounted(s: State, pid: nat, page: nat, e: Pte): (r: State)
    requires Shaped(s) && pid < N_PROC && e.frame < N_FRAMES
    ensures Shaped(r)
  {
    s.(tables := s.tables[pid := s.tables[pid][page := e]])
  }

  // set_invalid_page on the model.
  function Unmap(s: State, pid: nat, page: nat): (r: State)
    requires Shaped(s) && pid < N_PROC
    ensures Shaped(r)
  {
    s.(tables := s.tables[pid := s.tables[pid] - {page}])
  }

  function CopyFrame(s: State, dst: nat, src: nat): (r: State)
    requires Shaped(s) && dst < N_FRAMES && src < N_FRAMES
    ensures Shaped(r)
  {
    s.(mem := s.mem[dst := s.mem[src]])
  }

  // copy_forked_page for a page held by frame src: both frames are mapped in the kernel,
  // the bytes are copied, and both mappings are dropped again.
  function MapAndCopy(s: State, src: nat): (r: State)
    requires Shaped(s) && src < N_FRAMES && |s.free| > 0
    ensures Shaped(r)
  {
    var a := Bind(Unbind(s, src), 0, PAGE_RES_1, Pte(src, KernelPage));
    CopyFrame(NewPage(a, 0, PAGE_RES_2, KernelPage), s.free[0], src)
  }

  function DropBoth(s: State, src: nat, copy: nat): (r: State)
    requires Shaped(s) && src < N_FRAMES && copy < N_FRAMES
    ensures Shaped(r)
  {
    Unmap(Unmap(Unbind(Unbind(s, src), copy), 0, PAGE_RES_1), 0, PAGE_RES_2)
  }

  function ThroughKernel(s: State, src: nat): (r: State)
    requires Shaped(s) && src < N_FRAMES && |s.free| > 0
    ensures Shaped(r)
  {
    DropBoth(MapAndCopy(s, src), src, s.free[0])
  }

  lemma ThroughKernelCancels(s: State, src: nat)
    requires Shaped(s) && src < N_FRAMES && |s.free| > 0 && src != s.free[0]
    requires PAGE_RES_1 !in s.tables[0] && PAGE_RES_2 !in s.tables[0]
    ensures ThroughKernel(s, src) == CopyFrame(Unbind(s, src), s.free[0], src).(free := s.free[1..])
  {
    var r := ThroughKernel(s, src);
    assert r.tables[0] == s.tables[0];
    assert r.tables == s.tables;
    assert r.counter == Unbind(s, src).counter;
  }

  lemma CopyForked(s: State, child: nat, page: nat)
    requires Shaped(s) && child < N_PROC && page in s.tables[child] && |s.free| > 0
    requires s.tables[child][page].frame != s.free[0]
    requires PAGE_RES_1 !in s.tables[0] && PAGE_RES_2 !in s.tables[0]
    ensures Bind(ThroughKernel(s, s.tables[child][page].frame), child, page, Pte(s.free[0], UserPage)) == CopyStack(s, child, page)
  {
    ThroughKernelCancels(s, s.tables[child][page].frame);
  }

  // The steps of handle_shared_page_write on a shared page, before the last bind.
  function ThroughReserved(s: State, pid: nat, src: nat): (r: State)
    requires Shaped(s) && pid < N_PROC && src < N_FRAMES && |s.free| > 0
    ensures Shaped(r)
  {
    var a := NewPage(Unbind(s, src), pid, PAGE_RES_1, KernelPage);
    Unmap(CopyFrame(a, s.free[0], src), pid, PAGE_RES_1)
  }

  lemma WriteFault(s: State, pid: nat, page: nat)
    requires Shaped(s) && pid < N_PROC && page in s.tables[pid] && |s.free| > 0
    requires s.counter[s.tables[pid][page].frame] > 1
    requires s.tables[pid][page].frame != s.free[0] && PAGE_RES_1 !in s.tables[pid]
    ensures Bind(ThroughReserved(s, pid, s.tables[pid][page].frame), pid, page, Pte(s.free[0], UserPage)) == Privatise(s, pid, page)
  {
    var r := ThroughReserved(s, pid, s.tables[pid][page].frame);
    assert r.tables[pid] == s.tables[pid];
    assert r.tables == s.tables;
  }

  // process_exit passes over pages that are not mapped.
  lemma {:induction false} ReleaseSkips(s: State, pid: nat, page: nat, n: nat)
    requires Shaped(s) && pid < N_PROC && page + n <= GPIO_PAGE
    requires forall p | page <= p < page + n :: p !in s.tables[pid]
    ensures ReleaseFrom(s, pid, page) == ReleaseFrom(s, pid, page + n)
    decreases n
  {
    if n > 0 {
      ReleaseSkips(s, pid, page + 1, n - 1);
    }
  }

  // ---------- the sharing loops of a fork ----------

  predicate Uses(t: Table, p: int, f: nat) {
    p in t && t[p].frame == f
  }

  ghost predicate OnePageEach(t: Table) {
    forall p, q | p in t && q in t && t[p].frame == t[q].frame :: p == q
  }

  ghost function SharedCounter(s: State, parent: nat, n: int, f: nat): nat
    requires Shaped(s) && parent < N_PROC && f < N_FRAMES
  {
    if exists p :: p < n && Uses(s.tables[parent], p, f) then Inc(s.counter[f]) else s.counter[f]
  }

  // t is s with the parent's pages below n shared with the child.
  ghost predicate SharedUpTo(t: State, s: State, parent: nat, child: nat, n: int)
    requires Shaped(s) && parent < N_PROC && child < N_PROC
  {
    && Shaped(t) && t.free == s.free && t.mem == s.mem && t.live == s.live
    && (forall q | 0 <= q < N_PROC && q != parent && q != child :: t.tables[q] == s.tables[q])
    && HalfDemoted(t.tables[parent], s.tables[parent], n)
    && CopiedBelow(t.tables[child], s.tables[parent], n)
    && (forall f | 0 <= f < N_FRAMES :: t.counter[f] == SharedCounter(s, parent, n, f))
  }

  ghost predicate HalfDemoted(t: Table, s: Table, n: int) {
    && t.Keys == s.Keys
    && (forall p | p in s && p < n :: t[p] == Demote(p, s[p]))
    && (forall p | p in s && p >= n :: t[p] == s[p])
  }

  ghost predicate CopiedBelow(t: Table, s: Table, n: int) {
    && (forall p | p < n :: p in t <==> p in s)
    && (forall p | p < n && p in s && p in t :: t[p] == Demote(p, s[p]))
  }

  // The child's page is unmapped when the parent's is.
  lemma ShareNothing(t: State, t': State, s: State, parent: nat, child: nat, n: int)
    requires Shaped(s) && parent < N_PROC && child < N_PROC && parent != child
    requires SharedUpTo(t, s, parent, child, n) && n !in s.tables[parent]
    requires Shaped(t') && t' == t.(tables := t.tables[child := t'.tables[child]])
    requires t'.tables[child] == t.tables[child] - {n}
    ensures SharedUpTo(t', s, parent, child, n + 1)
  {
    assert forall f | 0 <= f < N_FRAMES :: SharedCounter(s, parent, n + 1, f) == SharedCounter(s, parent, n, f);
  }

  lemma ShareOne(t: State, t': State, s: State, parent: nat, child: nat, n: int)
    requires Shaped(s) && parent < N_PROC && child < N_PROC && parent != child && OnePageEach(s.tables[parent])
    requires SharedUpTo(t, s, parent, child, n) && n in s.tables[parent] && Shaped(t')
    requires var e := Demote(n, t.tables[parent][n]);
      t' == t.(tables := t.tables[parent := t.tables[parent][n := e]][child := t.tables[child][n := e]],
               counter := t.counter[e.frame := Inc(t.counter[e.frame])])
    ensures SharedUpTo(t', s, parent, child, n + 1)
  {
    forall f | 0 <= f < N_FRAMES
      ensures t'.counter[f] == SharedCounter(s, parent, n + 1, f)
    {
      if Uses(s.tables[parent], n, f) {
        assert !exists p :: p < n && Uses(s.tables[parent], p, f);
      }
    }
  }

  // A whole level-3 table that the parent does not have.
  lemma ShareNoTable(t: State, t': State, s: State, parent: nat, child: nat, n: int, n': int)
    requires Shaped(s) && parent < N_PROC && child < N_PROC && parent != child && n <= n'
    requires SharedUpTo(t, s, parent, child, n) && Shaped(t')
    requires forall p | n <= p < n' :: p !in s.tables[parent] && p !in t'.tables[child]
    requires t' == t.(tables := t.tables[child := t'.tables[child]])
    requires forall p | p < n :: (p in t'.tables[child] <==> p in t.tables[child]) && (p in t.tables[child] ==> t'.tables[child][p] == t.tables[child][p])
    ensures SharedUpTo(t', s, parent, child, n')
  {
    assert forall f | 0 <= f < N_FRAMES :: SharedCounter(s, parent, n', f) == SharedCounter(s, parent, n, f);
  }

  lemma SharedAllTables(t: Table, c: Table, s: Table)
    requires HalfDemoted(t, s, GPIO_PAGE) && CopiedBelow(c, s, GPIO_PAGE)
    requires forall p | p in s || p in c :: p < GPIO_PAGE
    ensures t == Demoted(s) && c == Demoted(s)
  {
    assert forall p | p in c :: p in s;
    assert forall p | p in s :: p in c;
    assert c.Keys == Demoted(s).Keys;
  }

  lemma SharedAllCounter(s: State, parent: nat, child: nat, f: nat)
    requires Shaped(s) && parent < N_PROC && child < N_PROC && f < N_FRAMES
    requires forall p | p in s.tables[parent] :: p < GPIO_PAGE
    ensures SharedCounter(s, parent, GPIO_PAGE, f) == Share(s, parent, child).counter[f]
  {
    ShareCounter(s, parent, child, f);
    if p :| p in s.tables[parent] && s.tables[parent][p].frame == f {
      assert Uses(s.tables[parent], p, f);
    }
  }

  lemma SharedAll(t: State, s: State, parent: nat, child: nat)
    requires Shaped(s) && parent < N_PROC && child < N_PROC && parent != child
    requires SharedUpTo(t, s, parent, child, GPIO_PAGE)
    requires forall p | p in s.tables[parent] || p in t.tables[child] :: p < GPIO_PAGE
    ensures t == Share(s, parent, child)
  {
    var r := Share(s, parent, child);
    SharedAllTables(t.tables[parent], t.tables[child], s.tables[parent]);
    assert t.tables == r.tables;
    forall f | 0 <= f < N_FRAMES ensures t.counter[f] == r.counter[f] {
      SharedAllCounter(s, parent, child, f);
    }
    assert t.counter == r.counter;
  }
}
