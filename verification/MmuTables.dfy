/**
 One process's two-level table as rows of entries, and the table of valid user mappings
 that the rows stand for.
 */
module MmuTables {
  import opened PagingModel

  const N_TABLE_ENTRIES: nat := 512
  const N_LVL3: nat := 511                      // level-3 tables that fit beside the level-2 table
  const N_PAGES: nat := N_LVL3 * N_TABLE_ENTRIES
  const N_AVAILABLE: nat := 505                 // GPIO_BASE / (GRANULE * N_TABLE_ENTRIES)

  // A level-3 entry; an invalid one keeps its other bits.
  datatype Entry = Entry(valid: bool, frame: nat, perm: Perm)

  // valid2[i] tells whether level-2 entry i is a table entry; entries is all of level 3.
  datatype Rows = Rows(valid2: seq<bool>, entries: seq<Entry>)

  predicate RowsOk(r: Rows) {
    && |r.valid2| == N_TABLE_ENTRIES
    && |r.entries| == N_PAGES
    && (forall p :: 0 <= p < N_PAGES ==> r.entries[p].frame < N_FRAMES)
  }

  // The pages whose mappings the model follows, above the identity-mapped kernel tables.
  predicate User(p: int, kernelTables: nat) {
    kernelTables * N_TABLE_ENTRIES <= p < GPIO_PAGE && p != TIMER_PAGE
  }

  predicate Mapped(r: Rows, p: int)
    requires RowsOk(r) && 0 <= p < N_PAGES
  {
    r.valid2[p / N_TABLE_ENTRIES] && r.entries[p].valid
  }

  function TableOf(r: Rows, k: nat): (t: Table)
    requires RowsOk(r)
    ensures FramesOk(t)
  {
    map p | 0 <= p < GPIO_PAGE && User(p, k) && Mapped(r, p) :: Pte(r.entries[p].frame, r.entries[p].perm)
  }

  lemma TableAfterSet(r: Rows, k: nat, p: int, e: Entry)
    requires RowsOk(r) && 0 <= p < N_PAGES && r.valid2[p / N_TABLE_ENTRIES] && e.frame < N_FRAMES
    ensures RowsOk(r.(entries := r.entries[p := e]))
    ensures User(p, k) && e.valid ==> TableOf(r.(entries := r.entries[p := e]), k) == TableOf(r, k)[p := Pte(e.frame, e.perm)]
    ensures !e.valid ==> TableOf(r.(entries := r.entries[p := e]), k) == TableOf(r, k) - {p}
    ensures !User(p, k) ==> TableOf(r.(entries := r.entries[p := e]), k) == TableOf(r, k)
  {
    var r' := r.(entries := r.entries[p := e]);
    assert forall q | 0 <= q < N_PAGES && q != p :: Mapped(r', q) == Mapped(r, q);
  }

  // r' is r with level-2 entry i made valid and its level-3 entries below n invalidated.
  ghost predicate Revalidated(r: Rows, r': Rows, i: nat, n: nat)
    requires RowsOk(r) && i < N_LVL3
  {
    && RowsOk(r') && r'.valid2 == r.valid2[i := true]
    && (forall p | 0 <= p < N_PAGES && (p < i * N_TABLE_ENTRIES || p >= i * N_TABLE_ENTRIES + n) :: r'.entries[p] == r.entries[p])
    && (forall p | i * N_TABLE_ENTRIES <= p < i * N_TABLE_ENTRIES + n && p < N_PAGES :: r'.entries[p] == r.entries[p].(valid := false))
  }

  // The rows after init_new_lvl3_table on level-2 entry i, after a bind and after an unbind.
  function InitRows(r: Rows, i: nat): (r': Rows)
    requires RowsOk(r) && i < N_LVL3
    ensures RowsOk(r')
  {
    Rows(r.valid2[i := true],
         seq(N_PAGES, p requires 0 <= p < N_PAGES => if p / N_TABLE_ENTRIES == i then r.entries[p].(valid := false) else r.entries[p]))
  }

  function BindRows(r: Rows, page: nat, e: Entry): (r': Rows)
    requires RowsOk(r) && page < N_PAGES && e.frame < N_FRAMES
    ensures RowsOk(r')
  {
    var i := page / N_TABLE_ENTRIES;
    var a := if r.valid2[i] then r else InitRows(r, i);
    a.(entries := a.entries[page := e])
  }

  function UnbindRows(r: Rows, page: nat): (r': Rows)
    requires RowsOk(r) && page < N_PAGES
    ensures RowsOk(r')
  {
    r.(entries := r.entries[page := r.entries[page].(valid := false)])
  }

  // The second entry of a bind finds its table valid.
  lemma BindAfterInit(r: Rows, page: nat, e: Entry)
    requires RowsOk(r) && page < N_PAGES && e.frame < N_FRAMES && !r.valid2[page / N_TABLE_ENTRIES]
    ensures var a := InitRows(r, page / N_TABLE_ENTRIES);
      a.valid2[page / N_TABLE_ENTRIES] && BindRows(a, page, e) == BindRows(r, page, e)
  {
  }

  lemma RevalidatedIs(r: Rows, r': Rows, i: nat)
    requires RowsOk(r) && i < N_LVL3 && Revalidated(r, r', i, N_TABLE_ENTRIES)
    ensures r' == InitRows(r, i)
  {
    forall p | 0 <= p < N_PAGES ensures r'.entries[p] == InitRows(r, i).entries[p] {
      if p / N_TABLE_ENTRIES == i {
        assert i * N_TABLE_ENTRIES <= p < i * N_TABLE_ENTRIES + N_TABLE_ENTRIES;
      } else {
        assert p < i * N_TABLE_ENTRIES || p >= i * N_TABLE_ENTRIES + N_TABLE_ENTRIES;
      }
    }
  }

  // Re-validating a table of stale entries this way makes no page valid.
  lemma RevalidatedSame(r: Rows, r': Rows, i: nat, k: nat)
    requires RowsOk(r) && i < N_LVL3 && !r.valid2[i] && Revalidated(r, r', i, N_TABLE_ENTRIES)
    ensures TableOf(r', k) == TableOf(r, k)
    ensures forall p | 0 <= p < N_PAGES && Mapped(r', p) :: Mapped(r, p) && r'.entries[p] == r.entries[p]
  {
    forall p | 0 <= p < N_PAGES ensures Mapped(r', p) == Mapped(r, p) && (Mapped(r, p) ==> r'.entries[p] == r.entries[p]) {
      if p / N_TABLE_ENTRIES == i {
        assert i * N_TABLE_ENTRIES <= p < i * N_TABLE_ENTRIES + N_TABLE_ENTRIES;
      } else {
        assert p < i * N_TABLE_ENTRIES || p >= i * N_TABLE_ENTRIES + N_TABLE_ENTRIES;
      }
    }
  }

  // Invalidating a level-2 entry none of whose pages is mapped changes nothing.
  lemma TableAfterUnlink(r: Rows, i: nat, k: nat)
    requires RowsOk(r) && i < N_LVL3
    requires forall p | i * N_TABLE_ENTRIES <= p < (i + 1) * N_TABLE_ENTRIES && User(p, k) :: !Mapped(r, p)
    ensures TableOf(r.(valid2 := r.valid2[i := false]), k) == TableOf(r, k)
  {
    var r' := r.(valid2 := r.valid2[i := false]);
    forall p | 0 <= p < GPIO_PAGE && User(p, k) ensures Mapped(r', p) == Mapped(r, p) {
      if p / N_TABLE_ENTRIES == i {
        assert i * N_TABLE_ENTRIES <= p < (i + 1) * N_TABLE_ENTRIES;
      }
    }
  }

  // Invalidating a level-2 entry unmaps its pages and no other.
  lemma TableAfterCut(r: Rows, i: nat, k: nat)
    requires RowsOk(r) && i < N_LVL3
    ensures var t := TableOf(r.(valid2 := r.valid2[i := false]), k);
      && (forall p | i * N_TABLE_ENTRIES <= p < (i + 1) * N_TABLE_ENTRIES :: p !in t)
      && (forall p | p < i * N_TABLE_ENTRIES :: p in t <==> p in TableOf(r, k))
      && (forall p | p < i * N_TABLE_ENTRIES && p in t :: t[p] == TableOf(r, k)[p])
  {
    var r' := r.(valid2 := r.valid2[i := false]);
    forall p | 0 <= p < N_PAGES ensures Mapped(r', p) == (Mapped(r, p) && p / N_TABLE_ENTRIES != i) {}
  }

  // User pages of every process but one are mapped above the identity-mapped zone.
  ghost predicate FramesAbove(rows: seq<Rows>, but: nat, k: nat) {
    && (forall pid :: 0 <= pid < |rows| ==> RowsOk(rows[pid]))
    && (forall pid, p :: 0 <= pid < |rows| && pid != but && 0 <= p < N_PAGES && User(p, k) && Mapped(rows[pid], p) ==>
          k * N_TABLE_ENTRIES <= rows[pid].entries[p].frame)
  }

  lemma FramesAbovePut(rows: seq<Rows>, but: nat, k: nat, pid: nat, page: nat, e: Entry)
    requires FramesAbove(rows, but, k) && pid < |rows| && page < N_PAGES
    requires e.frame < N_FRAMES && (pid != but ==> k * N_TABLE_ENTRIES <= e.frame)
    ensures FramesAbove(rows[pid := rows[pid].(entries := rows[pid].entries[page := e])], but, k)
  {
    var rows' := rows[pid := rows[pid].(entries := rows[pid].entries[page := e])];
    forall q, p | 0 <= q < |rows| && q != but && 0 <= p < N_PAGES && User(p, k) && Mapped(rows'[q], p)
      ensures k * N_TABLE_ENTRIES <= rows'[q].entries[p].frame
    {
      assert q != pid || p != page ==> Mapped(rows[q], p);
    }
  }

  lemma FramesAboveCut(rows: seq<Rows>, but: nat, k: nat, i: nat)
    requires FramesAbove(rows, but, k) && but < |rows| && i < N_LVL3
    ensures FramesAbove(rows[but := rows[but].(valid2 := rows[but].valid2[i := false])], but, k)
  {
  }
}
