/**
 The memory manager's operations on the tables, counters and frame stack they change in
 place, each proved equal to a function of the paging model.
 */
module MmuOperations {
  import opened Bytes
  import opened PagingModel
  import opened PagingSafety
  import opened PagingFork
  import opened PagingRuns
  import opened MmuTables
  import opened MmuAlgebra

  const KERNEL_PID: nat := 0

  class Mmu {
    const kernelTables: nat        // id_paging_size / (GRANULE * N_TABLE_ENTRIES)
    var rows: seq<Rows>            // one table per process
    var counter: seq<Count>        // physical_memory_map.bind_counter
    var frames: seq<nat>           // physical_memory_map.map
    var head: nat
    var mem: seq<Content>
    var active: nat                // the process whose table lvl2_table_address is
    ghost var live: set<nat>

    ghost predicate Shape()
      reads this
    {
      && kernelTables < 504 && active < N_PROC
      && |rows| == N_PROC && (forall pid :: 0 <= pid < N_PROC ==> RowsOk(rows[pid]))
      && |counter| == N_FRAMES && |mem| == N_FRAMES
      && head <= |frames|
      && (forall i :: 0 <= i < |frames| ==> kernelTables * N_TABLE_ENTRIES <= frames[i] < N_FRAMES)
    }

    // Moreover user pages are mapped above the identity-mapped zone.
    ghost predicate Valid()
      reads this
    {
      && Shape()
      && (forall pid, p :: 0 <= pid < N_PROC && 0 <= p < N_PAGES && User(p, kernelTables) && Mapped(rows[pid], p) ==>
            kernelTables * N_TABLE_ENTRIES <= rows[pid].entries[p].frame)
    }

    ghost function Tables(): (t: seq<Table>)
      reads this
      requires Shape()
      ensures |t| == N_PROC
      ensures forall pid :: 0 <= pid < N_PROC ==> t[pid] == TableOf(rows[pid], kernelTables) && FramesOk(t[pid])
    {
      seq(N_PROC, pid requires 0 <= pid < N_PROC reads this requires Shape() => TableOf(rows[pid], kernelTables))
    }

    // The state of the paging model that the fields stand for.
    ghost function Value(): (s: State)
      reads this
      requires Shape()
      ensures Shaped(s)
    {
      State(Tables(), counter, frames[head..], mem, live)
    }

    method InitNewLvl3Table(i: nat)
      requires Valid() && i < N_LVL3 && !rows[active].valid2[i]
      modifies this`rows
      ensures Valid() && Value() == old(Value())
      ensures rows == old(rows)[active := InitRows(old(rows[active]), i)]
    {
      ghost var r := rows[active];
      rows := rows[active := rows[active].(valid2 := rows[active].valid2[i := true])];
      for j := 0 to N_TABLE_ENTRIES
        invariant Shape() && Revalidated(r, rows[active], i, j)
        invariant forall pid | 0 <= pid < N_PROC && pid != active :: rows[pid] == old(rows[pid])
      {
        var p := i * N_TABLE_ENTRIES + j;
        var e := rows[active].entries[p];
        rows := rows[active := rows[active].(entries := rows[active].entries[p := e.(valid := false)])];
      }
      RevalidatedSame(r, rows[active], i, kernelTables);
      RevalidatedIs(r, rows[active], i);
      assert Tables() == old(Tables());
    }

    // bind_address: enters itself again once when the level-3 table is invalid.
    method BindAddress(page: nat, frame: nat, perm: Perm)
      requires Valid() && page < N_PAGES && User(page, kernelTables) && frame < N_FRAMES
      modifies this`rows, this`counter
      ensures Shape() && (frame >= kernelTables * N_TABLE_ENTRIES ==> Valid())
      ensures var e := Pte(frame, perm);
        Value() == if frame >= kernelTables * N_TABLE_ENTRIES then Bind(old(Value()), active, page, e)
                   else BindUncounted(old(Value()), active, page, e)
      ensures rows == old(rows)[active := BindRows(old(rows[active]), page, Entry(true, frame, perm))]
      decreases if rows[active].valid2[page / N_TABLE_ENTRIES] then 0 else 1
    {
      if !rows[active].valid2[page / N_TABLE_ENTRIES] {
        BindAfterInit(rows[active], page, Entry(true, frame, perm));
        InitNewLvl3Table(page / N_TABLE_ENTRIES);
        hide InitRows;
        BindAddress(page, frame, perm);
        return;
      }
      TableAfterSet(rows[active], kernelTables, page, Entry(true, frame, perm));
      rows := rows[active := rows[active].(entries := rows[active].entries[page := Entry(true, frame, perm)])];
      if frame >= kernelTables * N_TABLE_ENTRIES {
        counter := counter[frame := Inc(counter[frame])];
      }
      assert Tables() == old(Tables())[active := old(Tables())[active][page := Pte(frame, perm)]];
    }
  
    // set_invalid_page: the page's level-2 entry must be a table entry.
    method SetInvalidPage(page: nat)
      requires Valid() && page < N_PAGES && rows[active].valid2[page / N_TABLE_ENTRIES]
      modifies this`rows
      ensures Valid()
      ensures Value() == Unmap(old(Value()), active, page)
      ensures rows == old(rows)[active := UnbindRows(old(rows[active]), page)]
    {
      var e := rows[active].entries[page].(valid := false);
      TableAfterSet(rows[active], kernelTables, page, e);
      rows := rows[active := rows[active].(entries := rows[active].entries[page := e])];
      assert Tables() == old(Tables())[active := old(Tables())[active] - {page}];
    }

    method DecrementBindCounter(frame: nat)
      requires Valid() && frame < N_FRAMES
      modifies this`counter
      ensures Valid() && Value() == Unbind(old(Value()), frame)
    {
      counter := counter[frame := Dec(counter[frame])];
      assert Tables() == old(Tables());
    }

    // get_unbound_physical_page and bind_address.
    method GetNewPage(page: nat, perm: Perm)
      requires Valid() && page < N_PAGES && User(page, kernelTables) && head < |frames|
      modifies this`rows, this`counter, this`head
      ensures Valid()
      ensures Value() == NewPage(old(Value()), active, page, perm)
      ensures rows[active].valid2[page / N_TABLE_ENTRIES]
      ensures forall i | 0 <= i < N_TABLE_ENTRIES && old(rows[active].valid2[i]) :: rows[active].valid2[i]
    {
      var frame := frames[head];
      head := head + 1;
      assert Tables() == old(Tables());
      assert Value() == old(Value()).(free := old(Value()).free[1..]);
      BindAddress(page, frame, perm);
    }

    // The frame that a page of process pid translates to.
    function Translate(pid: nat, page: nat): (f: nat)
      reads this
      requires Valid() && pid < N_PROC && page in Value().tables[pid]
      ensures kernelTables * N_TABLE_ENTRIES <= f < N_FRAMES && f == Value().tables[pid][page].frame
    {
      rows[pid].entries[page].frame
    }

    // memmove of a whole page between two mapped pages of process pid.
    method CopyPage(pid: nat, dst: nat, src: nat)
      requires Valid() && pid < N_PROC && dst in Value().tables[pid] && src in Value().tables[pid]
      modifies this`mem
      ensures Valid()
      ensures var t := old(Value()).tables[pid];
        Value() == CopyFrame(old(Value()), t[dst].frame, t[src].frame)
    {
      mem := mem[Translate(pid, dst) := mem[Translate(pid, src)]];
      assert Tables() == old(Tables());
    }
  
    method SetActive(pid: nat)
      requires Valid() && pid < N_PROC
      modifies this`active
      ensures Valid() && active == pid && Value() == old(Value())
    {
      active := pid;
      assert Tables() == old(Tables());
    }

    method MapAndCopyPage(src: nat) returns (copy: nat)
      requires Valid() && active == KERNEL_PID && kernelTables * N_TABLE_ENTRIES <= src < N_FRAMES && head < |frames|
      modifies this`rows, this`counter, this`head, this`mem
      ensures Valid() && copy == old(frames[head])
      ensures Value() == MapAndCopy(old(Value()), src)
      ensures rows[KERNEL_PID].valid2[PAGE_RES_1 / N_TABLE_ENTRIES] && rows[KERNEL_PID].valid2[PAGE_RES_2 / N_TABLE_ENTRIES]
    {
      DecrementBindCounter(src);
      BindAddress(PAGE_RES_1, src, KernelPage);
      GetNewPage(PAGE_RES_2, KernelPage);
      copy := Translate(KERNEL_PID, PAGE_RES_2);
      CopyPage(KERNEL_PID, PAGE_RES_2, PAGE_RES_1);
    }

    method DropBothPages(src: nat, copy: nat)
      requires Valid() && active == KERNEL_PID && src < N_FRAMES && copy < N_FRAMES
      requires rows[KERNEL_PID].valid2[PAGE_RES_1 / N_TABLE_ENTRIES] && rows[KERNEL_PID].valid2[PAGE_RES_2 / N_TABLE_ENTRIES]
      modifies this`rows, this`counter
      ensures Valid() && Value() == DropBoth(old(Value()), src, copy)
    {
      DecrementBindCounter(src);
      DecrementBindCounter(copy);
      SetInvalidPage(PAGE_RES_1);
      SetInvalidPage(PAGE_RES_2);
    }

    // copy_forked_page, run with the child's table active.
    method CopyForkedPage(page: nat)
      requires Valid() && active != KERNEL_PID && page in Value().tables[active] && head < |frames|
      requires counter[Value().tables[active][page].frame] == 2       // asserted by the source
      requires Value().tables[active][page].frame != frames[head]
      requires PAGE_RES_1 !in Value().tables[KERNEL_PID] && PAGE_RES_2 !in Value().tables[KERNEL_PID]
      modifies this
      ensures Valid() && active == old(active)
      ensures Value() == CopyStack(old(Value()), active, page)
    {
      ghost var s := Value();
      var child := active;
      var src := Translate(child, page);
      SetActive(KERNEL_PID);
      var copy := MapAndCopyPage(src);
      DropBothPages(src, copy);
      SetActive(child);
      assert Value() == ThroughKernel(s, src);
      BindAddress(page, copy, UserPage);
      CopyForked(s, child, page);
    }

    // handle_shared_page_write for a fault at EL0 in the active table.
    method HandleSharedPageWrite(page: nat)
      requires Valid() && page in Value().tables[active]
      requires counter[Value().tables[active][page].frame] > 0        // asserted by the source
      requires counter[Value().tables[active][page].frame] > 1 ==> head < |frames| && Value().tables[active][page].frame != frames[head]
      requires PAGE_RES_1 !in Value().tables[active]
      modifies this`rows, this`counter, this`head, this`mem
      ensures Valid() && Value() == Privatise(old(Value()), active, page)
    {
      hide InitRows, BindRows, UnbindRows;
      ghost var s := Value();
      var src := Translate(active, page);
      if counter[src] > 1 {
        DecrementBindCounter(src);
        GetNewPage(PAGE_RES_1, KernelPage);
        var copy := Translate(active, PAGE_RES_1);
        CopyPage(active, PAGE_RES_1, page);
        SetInvalidPage(PAGE_RES_1);
        BindAddress(page, copy, UserPage);
        WriteFault(s, active, page);
      } else {
        var e := rows[active].entries[page].(perm := UserPage);
        TableAfterSet(rows[active], kernelTables, page, e);
        rows := rows[active := rows[active].(entries := rows[active].entries[page := e])];
        assert Tables() == s.tables[active := s.tables[active][page := Pte(src, UserPage)]];
      }
    }
  
    // decr_and_free_physical_page and free_physical_page.
    method DecrAndFreePhysicalPage(frame: nat)
      requires Valid() && kernelTables * N_TABLE_ENTRIES <= frame < N_FRAMES && head > 0
      modifies this`counter, this`frames, this`head
      ensures Valid() && |frames| == old(|frames|)
      ensures var d := Unbind(old(Value()), frame);
        Value() == if d.counter[frame] == 0 then d.(free := [frame] + d.free) else d
    {
      DecrementBindCounter(frame);
      if counter[frame] == 0 {
        head := head - 1;
        frames := frames[head := frame];
        assert frames[head..] == [frame] + old(frames[head..]);
        assert Tables() == old(Tables());
      }
    }

    // free_virtual_page in the active table.
    method FreeVirtualPage(page: nat)
      requires Valid() && page in Value().tables[active] && head > 0
      modifies this`rows, this`counter, this`frames, this`head
      ensures Valid() && |frames| == old(|frames|)
      ensures Value() == Release(old(Value()), active, page)
      ensures rows[active].valid2 == old(rows[active].valid2)
      ensures !Mapped(rows[active], page)
      ensures forall p | 0 <= p < N_PAGES && p != page :: rows[active].entries[p] == old(rows[active].entries[p])
    {
      var frame := Translate(active, page);
      var e := rows[active].entries[page].(valid := false);
      TableAfterSet(rows[active], kernelTables, page, e);
      rows := rows[active := rows[active].(entries := rows[active].entries[page := e])];
      assert Tables() == old(Tables())[active := old(Tables())[active] - {page}];
      DecrAndFreePhysicalPage(frame);
    }
  
    // What process_exit keeps between two pages: done is the state it will end in.
    ghost predicate Exiting(pid: nat, page: nat, pool: set<nat>, done: State)
      reads this
    {
      && Valid() && active == pid && page <= GPIO_PAGE
      && Inv(Value()) && pid !in live && Pool(Value(), pool) && |pool| <= |frames|
      && ReleaseFrom(Value(), pid, page) == done
    }

    method ReleasePage(pid: nat, page: nat, ghost pool: set<nat>, ghost done: State)
      requires Exiting(pid, page, pool, done) && page < GPIO_PAGE
      requires kernelTables * N_TABLE_ENTRIES <= page && rows[pid].valid2[page / N_TABLE_ENTRIES]
      modifies this`rows, this`counter, this`frames, this`head
      ensures Exiting(pid, page + 1, pool, done)
      ensures rows[pid].valid2 == old(rows[pid].valid2)
      ensures User(page, kernelTables) ==> !Mapped(rows[pid], page)
      ensures forall p | 0 <= p < N_PAGES && p != page :: rows[pid].entries[p] == old(rows[pid].entries[p])
    {
      if rows[pid].entries[page].valid && page != TIMER_PAGE {
        RoomToRelease(Value(), pool, pid, page);
        ReleaseKeeps(Value(), pid, page);
        ReleasePool(Value(), pool, pid, page);
        FreeVirtualPage(page);
      }
    }

    lemma SkipPages(pid: nat, page: nat, n: nat, pool: set<nat>, done: State)
      requires Exiting(pid, page, pool, done) && page + n <= GPIO_PAGE
      requires forall p | page <= p < page + n && User(p, kernelTables) :: !Mapped(rows[pid], p)
      ensures Exiting(pid, page + n, pool, done)
    {
      ReleaseSkips(Value(), pid, page, n);
    }

    // One level-2 entry of process_exit: its level-3 entries, then itself.
    method ReleaseEntries(pid: nat, i: nat, ghost pool: set<nat>, ghost done: State)
      requires Exiting(pid, i * N_TABLE_ENTRIES, pool, done)
      requires kernelTables <= i < N_AVAILABLE && rows[pid].valid2[i]
      modifies this`rows, this`counter, this`frames, this`head
      ensures Exiting(pid, (i + 1) * N_TABLE_ENTRIES, pool, done)
      ensures forall p | i * N_TABLE_ENTRIES <= p < (i + 1) * N_TABLE_ENTRIES && User(p, kernelTables) :: !Mapped(rows[pid], p)
    {
      for page := i * N_TABLE_ENTRIES to i * N_TABLE_ENTRIES + N_TABLE_ENTRIES
        invariant Exiting(pid, page, pool, done) && rows[pid].valid2[i]
        invariant forall p | i * N_TABLE_ENTRIES <= p < page && User(p, kernelTables) :: !Mapped(rows[pid], p)
      {
        ReleasePage(pid, page, pool, done);
      }
    }

    method UnlinkTable(i: nat)
      requires Valid() && i < N_LVL3
      requires forall p | i * N_TABLE_ENTRIES <= p < (i + 1) * N_TABLE_ENTRIES && User(p, kernelTables) :: !Mapped(rows[active], p)
      modifies this`rows
      ensures Valid() && Value() == old(Value())
    {
      TableAfterUnlink(rows[active], i, kernelTables);
      rows := rows[active := rows[active].(valid2 := rows[active].valid2[i := false])];
      assert Tables() == old(Tables());
    }

    method ReleaseTable(pid: nat, i: nat, ghost pool: set<nat>, ghost done: State)
      requires Exiting(pid, i * N_TABLE_ENTRIES, pool, done)
      requires kernelTables <= i < N_AVAILABLE
      modifies this`rows, this`counter, this`frames, this`head
      ensures Exiting(pid, (i + 1) * N_TABLE_ENTRIES, pool, done)
    {
      if rows[pid].valid2[i] {
        ReleaseEntries(pid, i, pool, done);
        UnlinkTable(i);
      } else {
        SkipPages(pid, i * N_TABLE_ENTRIES, N_TABLE_ENTRIES, pool, done);
      }
    }

    ghost method BeginExit(pid: nat, pool: set<nat>)
      requires Valid() && active == pid && Inv(Value()) && Pool(Value(), pool) && |pool| <= |frames|
      modifies this`live
      ensures Exiting(pid, 0, pool, Exit(old(Value()), pid))
    {
      DeadKeeps(Value(), pid);
      live := live - {pid};
      assert Tables() == old(Tables());
    }

    lemma ExitEnds(pid: nat, pool: set<nat>, done: State)
      requires Exiting(pid, N_AVAILABLE * N_TABLE_ENTRIES, pool, done)
      ensures Valid() && Value() == done
    {
      hide Inv, Pool;
    }

    // process_exit with the process's own table active.
    method ProcessExit(pid: nat, ghost pool: set<nat>)
      requires Valid() && active == pid && Inv(Value()) && Pool(Value(), pool) && |pool| <= |frames|
      modifies this
      ensures Valid() && Value() == Exit(old(Value()), pid)
    {
      hide Inv, Pool, Exit, Exiting;
      ghost var done := Exit(Value(), pid);
      BeginExit(pid, pool);
      SkipPages(pid, 0, kernelTables * N_TABLE_ENTRIES, pool, done);
      for i := kernelTables to N_AVAILABLE
        invariant Exiting(pid, i * N_TABLE_ENTRIES, pool, done)
      {
        ReleaseTable(pid, i, pool, done);
      }
      ExitEnds(pid, pool, done);
    }

    // ---------- fork ----------

    // What the sharing loops keep: the child's table is active, its level-2 entries from i on
    // are valid and may still hold stale level-3 entries, and pages below page are shared.
    ghost predicate Sharing(parent: nat, child: nat, i: nat, page: nat, s: State)
      reads this
    {
      && Shape() && parent < N_PROC && child < N_PROC && parent != child && active == child && i <= N_LVL3
      && Shaped(s) && OnePageEach(s.tables[parent])
      && FramesAbove(rows, child, kernelTables)
      && (forall t | i <= t < N_LVL3 :: rows[child].valid2[t])
      && SharedUpTo(Value(), s, parent, child, page)
    }

    // populate_lvl2_table for a new process.
    method PopulateLvl2Table(parent: nat, child: nat)
      requires Valid() && parent < N_PROC && active == child && parent != child && OnePageEach(Value().tables[parent])
      modifies this`rows
      ensures Sharing(parent, child, 0, kernelTables * N_TABLE_ENTRIES, old(Value()))
    {
      ghost var s := Value();
      for i := 0 to N_LVL3
        invariant Shape() && |rows| == N_PROC
        invariant forall pid | 0 <= pid < N_PROC && pid != child :: rows[pid] == old(rows[pid])
        invariant rows[child].entries == old(rows[child].entries)
        invariant forall t | 0 <= t < i :: rows[child].valid2[t]
      {
        rows := rows[child := rows[child].(valid2 := rows[child].valid2[i := true])];
      }
      SharingBegins(s, Value(), parent, child, kernelTables * N_TABLE_ENTRIES);
    }

    // One level-3 entry of process_init_copy_and_write: the parent's entry is invalid, or
    // valid and shared.
    method ShareInvalidPage(parent: nat, child: nat, i: nat, page: nat, ghost s: State)
      requires Sharing(parent, child, i, page, s) && kernelTables * N_TABLE_ENTRIES <= page < GPIO_PAGE && page / N_TABLE_ENTRIES == i
      requires rows[parent].valid2[i] && !rows[parent].entries[page].valid
      modifies this`rows
      ensures Sharing(parent, child, i, page + 1, s)
      ensures rows[parent] == old(rows[parent])
    {
      ghost var t := Value();
      var c := rows[child].entries[page].(valid := false);
      TableAfterSet(rows[child], kernelTables, page, c);
      FramesAbovePut(rows, child, kernelTables, child, page, c);
      rows := rows[child := rows[child].(entries := rows[child].entries[page := c])];
      assert Value().tables == t.tables[child := t.tables[child] - {page}];
      ShareNothing(t, Value(), s, parent, child, page);
    }

    lemma ShareTimerPage(parent: nat, child: nat, i: nat, s: State)
      requires Sharing(parent, child, i, TIMER_PAGE, s)
      ensures Sharing(parent, child, i, TIMER_PAGE + 1, s)
    {
      var t := Value();
      assert TIMER_PAGE !in t.tables[parent];
      assert t.tables[child] == t.tables[child] - {TIMER_PAGE};
      ShareNothing(t, t, s, parent, child, TIMER_PAGE);
    }

    // The same entry in both tables.
    method PutBoth(parent: nat, child: nat, page: nat, d: Entry)
      requires Shape() && parent < N_PROC && child < N_PROC && parent != child && User(page, kernelTables)
      requires d.valid && d.frame < N_FRAMES
      requires rows[parent].valid2[page / N_TABLE_ENTRIES] && rows[child].valid2[page / N_TABLE_ENTRIES]
      modifies this`rows
      ensures Shape()
      ensures rows == old(rows)[parent := old(rows)[parent].(entries := old(rows)[parent].entries[page := d])]
                               [child := old(rows)[child].(entries := old(rows)[child].entries[page := d])]
      ensures var t := old(Value()); var u := Pte(d.frame, d.perm);
        Value() == t.(tables := t.tables[parent := t.tables[parent][page := u]][child := t.tables[child][page := u]])
    {
      ghost var t := Value();
      ghost var u := Pte(d.frame, d.perm);
      TableAfterSet(rows[parent], kernelTables, page, d);
      TableAfterSet(rows[child], kernelTables, page, d);
      rows := rows[parent := rows[parent].(entries := rows[parent].entries[page := d])];
      rows := rows[child := rows[child].(entries := rows[child].entries[page := d])];
      assert Value().tables == t.tables[parent := t.tables[parent][page := u]][child := t.tables[child][page := u]];
    }

    lemma ParentEntry(parent: nat, child: nat, i: nat, page: nat, s: State)
      requires Sharing(parent, child, i, page, s) && User(page, kernelTables) && page / N_TABLE_ENTRIES == i
      requires rows[parent].valid2[i] && rows[parent].entries[page].valid
      ensures var e := rows[parent].entries[page]; var t := Value();
        && page in t.tables[parent] && t.tables[parent][page] == Pte(e.frame, e.perm) && page in s.tables[parent]
        && kernelTables * N_TABLE_ENTRIES <= e.frame
    {
    }

    method ShareValidPage(parent: nat, child: nat, i: nat, page: nat, ghost s: State)
      requires Sharing(parent, child, i, page, s) && User(page, kernelTables) && page / N_TABLE_ENTRIES == i
      requires rows[parent].valid2[i] && rows[parent].entries[page].valid
      modifies this`rows, this`counter
      ensures Sharing(parent, child, i, page + 1, s)
      ensures rows[parent].valid2 == old(rows[parent].valid2)
    {
      hide TableOf;
      hide SharedUpTo;
      hide OnePageEach;
      hide FramesAbove;
      ghost var t := Value();
      var e := rows[parent].entries[page];
      ParentEntry(parent, child, i, page, s);
      var d := if IsStack(page) then e else e.(perm := ForkedPage);
      FramesAbovePut(rows, child, kernelTables, parent, page, d);
      FramesAbovePut(rows[parent := rows[parent].(entries := rows[parent].entries[page := d])], child, kernelTables, child, page, d);
      PutBoth(parent, child, page, d);
      counter := counter[d.frame := Inc(counter[d.frame])];
      assert Tables() == t.tables[parent := t.tables[parent][page := Pte(d.frame, d.perm)]][child := t.tables[child][page := Pte(d.frame, d.perm)]];
      ShareOne(t, Value(), s, parent, child, page);
    }

    method SharePage(parent: nat, child: nat, i: nat, page: nat, ghost s: State)
      requires Sharing(parent, child, i, page, s) && kernelTables * N_TABLE_ENTRIES <= page < GPIO_PAGE && page / N_TABLE_ENTRIES == i
      requires rows[parent].valid2[i]
      modifies this`rows, this`counter
      ensures Sharing(parent, child, i, page + 1, s)
      ensures rows[parent].valid2 == old(rows[parent].valid2)
    {
      if !rows[parent].entries[page].valid {
        ShareInvalidPage(parent, child, i, page, s);
      } else if page == TIMER_PAGE {
        ShareTimerPage(parent, child, i, s);
      } else {
        ShareValidPage(parent, child, i, page, s);
      }
    }

    // A level-2 entry that is not a table in the parent is invalid in the child.
    method ShareInvalidTable(parent: nat, child: nat, i: nat, ghost s: State)
      requires kernelTables <= i < N_AVAILABLE
      requires Sharing(parent, child, i, i * N_TABLE_ENTRIES, s) && !rows[parent].valid2[i]
      modifies this`rows
      ensures Sharing(parent, child, i + 1, (i + 1) * N_TABLE_ENTRIES, s)
    {
      ghost var t := Value();
      TableAfterCut(rows[child], i, kernelTables);
      FramesAboveCut(rows, child, kernelTables, i);
      assert forall p | i * N_TABLE_ENTRIES <= p < (i + 1) * N_TABLE_ENTRIES :: p !in t.tables[parent];
      hide FramesAbove;
      hide SharedUpTo;
      hide TableOf;
      hide OnePageEach;
      rows := rows[child := rows[child].(valid2 := rows[child].valid2[i := false])];
      assert Value().tables == t.tables[child := Value().tables[child]];
      ShareNoTable(t, Value(), s, parent, child, i * N_TABLE_ENTRIES, (i + 1) * N_TABLE_ENTRIES);
    }

    method ShareEntries(parent: nat, child: nat, i: nat, ghost s: State)
      requires kernelTables <= i < N_AVAILABLE
      requires Sharing(parent, child, i, i * N_TABLE_ENTRIES, s) && rows[parent].valid2[i]
      modifies this`rows, this`counter
      ensures Sharing(parent, child, i, i * N_TABLE_ENTRIES + N_TABLE_ENTRIES, s)
    {
      hide SharedUpTo;
      for page := i * N_TABLE_ENTRIES to i * N_TABLE_ENTRIES + N_TABLE_ENTRIES
        invariant Sharing(parent, child, i, page, s) && rows[parent].valid2[i]
      {
        SharePage(parent, child, i, page, s);
      }
    }

    lemma LaterTable(parent: nat, child: nat, i: nat, i': nat, page: nat, s: State)
      requires Sharing(parent, child, i, page, s) && i <= i' <= N_LVL3
      ensures Sharing(parent, child, i', page, s)
    {
    }

    method ShareTable(parent: nat, child: nat, i: nat, ghost s: State)
      requires kernelTables <= i < N_AVAILABLE
      requires Sharing(parent, child, i, i * N_TABLE_ENTRIES, s)
      modifies this`rows, this`counter
      ensures Sharing(parent, child, i + 1, (i + 1) * N_TABLE_ENTRIES, s)
    {
      hide SharedUpTo;
      if !rows[parent].valid2[i] {
        ShareInvalidTable(parent, child, i, s);
      } else {
        ShareEntries(parent, child, i, s);
        LaterTable(parent, child, i, i + 1, (i + 1) * N_TABLE_ENTRIES, s);
      }
    }
  
    lemma SharingEnds(parent: nat, child: nat, i: nat, s: State)
      requires Sharing(parent, child, i, GPIO_PAGE, s)
      requires forall p | p in s.tables[parent] :: p < GPIO_PAGE
      ensures Valid() && Value() == Share(s, parent, child)
    {
      SharedAll(Value(), s, parent, child);
      forall p | 0 <= p < N_PAGES && User(p, kernelTables) && Mapped(rows[child], p)
        ensures kernelTables * N_TABLE_ENTRIES <= rows[child].entries[p].frame
      {
        assert p in Value().tables[child];
        assert Value().tables[parent] == Value().tables[child];
        assert Mapped(rows[parent], p);
      }
    }

    method ShareAll(parent: nat, child: nat)
      requires Valid() && parent < N_PROC && active == child && parent != child && OnePageEach(Value().tables[parent])
      modifies this`rows, this`counter
      ensures Valid() && Value() == Share(old(Value()), parent, child)
    {
      hide Sharing;
      ghost var s := Value();
      PopulateLvl2Table(parent, child);
      LaterTable(parent, child, 0, kernelTables, kernelTables * N_TABLE_ENTRIES, s);
      for i := kernelTables to N_AVAILABLE
        invariant Sharing(parent, child, i, i * N_TABLE_ENTRIES, s)
      {
        ShareTable(parent, child, i, s);
      }
      SharingEnds(parent, child, N_AVAILABLE, s);
    }

    ghost method AddLive(pid: nat)
      requires Valid()
      modifies this`live
      ensures Valid() && Value() == old(Value()).(live := old(live) + {pid})
    {
      live := live + {pid};
      assert Tables() == old(Tables());
    }

    // process_init_copy_and_write. Its asserts, and those of copy_forked_page, hold.
    method ProcessInitCopyAndWrite(parent: nat, child: nat)
      requires Valid() && active == child && parent != child && child != KERNEL_PID
      requires Inv(Value()) && ForkEnabled(Value(), parent, child)
      modifies this
      ensures Valid() && Value() == Fork(old(Value()), parent, child)
    {
      hide Inv;
      hide Share;
      hide CopyStack;
      hide Mapped;
      hide User;
      ghost var s := Value();
      InjectiveTable(s, parent);
      ShareAll(parent, child);
      StackCopiesReady(s, parent, child);
      CopyForkedPage(STACK_PAGE_1);
      CopyForkedPage(STACK_PAGE_2);
      AddLive(child);
    }
  
    // ---------- faults ----------

    method StoreByte(pid: nat, page: nat, offset: nat, value: Byte)
      requires Valid() && pid < N_PROC && page in Value().tables[pid] && offset < GRANULE
      modifies this`mem
      ensures Valid() && Value() == Store(old(Value()), pid, page, offset, value)
    {
      var f := Translate(pid, page);
      mem := mem[f := mem[f][offset := value]];
      assert Tables() == old(Tables());
    }

    // A store by the running process, whose table is active: permission_fault_handler runs
    // first when EL0 may not write the page.
    method Write(pid: nat, page: nat, offset: nat, value: Byte, el0: bool)
      requires Valid() && active == pid && Inv(Value())
      requires Enabled(Value(), WriteOp(pid, page, offset, value, el0))
      modifies this`rows, this`counter, this`head, this`mem
      ensures Valid() && Value() == Step(old(Value()), WriteOp(pid, page, offset, value, el0))
    {
      if el0 && !El0Writable(rows[pid].entries[page].perm) {
        MappedIsCounted(Value(), pid, page);
        ReservedUnmapped(Value(), pid);
        HandleSharedPageWrite(page);
      }
      StoreByte(pid, page, offset, value);
    }

    // translation_fault_handler; false stands for its segmentation-fault assertion.
    method TranslationFault(pid: nat, address: nat, heapBegin: nat, endOffset: nat, el0: bool) returns (ok: bool)
      requires Valid() && pid < N_PROC && head < |frames|
      requires kernelTables * N_TABLE_ENTRIES * GRANULE <= heapBegin && heapBegin + endOffset <= TIMER_PAGE * GRANULE
      modifies this`rows, this`counter, this`head, this`active
      ensures Valid() && active == pid
      ensures ok <==> heapBegin <= address < heapBegin + endOffset
      ensures Value() == if ok then NewPage(old(Value()), pid, address / GRANULE, if el0 then UserPage else KernelPage) else old(Value())
    {
      SetActive(pid);
      ok := heapBegin <= address < heapBegin + endOffset;
      if ok {
        HeapPage(address, kernelTables);
        GetNewPage(address / GRANULE, if el0 then UserPage else KernelPage);
      }
    }
  }

  lemma HeapPage(address: nat, k: nat)
    requires k * N_TABLE_ENTRIES * GRANULE <= address < TIMER_PAGE * GRANULE
    ensures User(address / GRANULE, k) && address / GRANULE < TIMER_PAGE
  {
    assert k * N_TABLE_ENTRIES <= address / GRANULE;
  }

  lemma InjectiveTable(s: State, pid: nat)
    requires Inv(s) && pid < N_PROC
    ensures OnePageEach(s.tables[pid])
  {
    forall p, q | p in s.tables[pid] && q in s.tables[pid] && s.tables[pid][p].frame == s.tables[pid][q].frame
      ensures p == q
    {
      assert Maps(s, pid, p, s.tables[pid][p].frame) && Maps(s, pid, q, s.tables[pid][p].frame);
    }
  }

  // Sharing leaves both stack pages in the child, each on a frame of its own with counter 2.
  ghost predicate StacksShared(t: State, child: nat) {
    && Shaped(t) && child < N_PROC && child != KERNEL_PID && HasStack(t, child) && |t.free| > 1
    && var a1, a2 := t.tables[child][STACK_PAGE_1].frame, t.tables[child][STACK_PAGE_2].frame;
    && a1 != a2 && t.counter[a1] == 2 && t.counter[a2] == 2
    && a1 != t.free[0] && a2 != t.free[0] && a2 != t.free[1]
    && PAGE_RES_1 !in t.tables[KERNEL_PID] && PAGE_RES_2 !in t.tables[KERNEL_PID]
  }

  lemma ShareGivesStacks(s: State, parent: nat, child: nat)
    requires Inv(s) && ForkEnabled(s, parent, child) && parent != child && child != KERNEL_PID
    ensures StacksShared(Share(s, parent, child), child) && Share(s, parent, child).live == s.live
  {
    assert Shaped(s);
    hide Inv;
    hide FramesOf;
    hide CountOnceMore;
    StackFrames(s, parent, child);
    var p := s.tables[parent];
    var t := Share(s, parent, child);
    assert t.tables[child] == Demoted(p) && t.tables[KERNEL_PID].Keys == s.tables[KERNEL_PID].Keys;
    assert t.tables[child][STACK_PAGE_1].frame == p[STACK_PAGE_1].frame && t.tables[child][STACK_PAGE_2].frame == p[STACK_PAGE_2].frame;
    ReservedUnmapped(s, KERNEL_PID);
    ShareCounter(s, parent, child, p[STACK_PAGE_1].frame);
    ShareCounter(s, parent, child, p[STACK_PAGE_2].frame);
  }

  // Both stack pages are found with counter 2, and neither frame is on the free stack.
  lemma StackCopiesReady(s: State, parent: nat, child: nat)
    requires Inv(s) && ForkEnabled(s, parent, child) && parent != child && child != KERNEL_PID
    ensures StacksShared(Share(s, parent, child), child)
    ensures var u := CopyStack(Share(s, parent, child), child, STACK_PAGE_1);
      && STACK_PAGE_2 in u.tables[child] && u.counter[u.tables[child][STACK_PAGE_2].frame] == 2
      && |u.free| > 0 && u.tables[child][STACK_PAGE_2].frame != u.free[0]
      && PAGE_RES_1 !in u.tables[KERNEL_PID] && PAGE_RES_2 !in u.tables[KERNEL_PID]
      && CopyStack(u, child, STACK_PAGE_2).live == s.live
  {
    hide Share;
    hide Inv;
    ShareGivesStacks(s, parent, child);
  }

  lemma ReservedUnmapped(s: State, pid: nat)
    requires Inv(s) && pid < N_PROC
    ensures PAGE_RES_1 !in s.tables[pid] && PAGE_RES_2 !in s.tables[pid]
  {
    assert PAGE_RES_1 in s.tables[pid] ==> UserEntry(s, pid, PAGE_RES_1);
    assert PAGE_RES_2 in s.tables[pid] ==> UserEntry(s, pid, PAGE_RES_2);
  }

  lemma SharingBegins(s: State, t: State, parent: nat, child: nat, page: int)
    requires Shaped(s) && Shaped(t) && parent < N_PROC && child < N_PROC && parent != child
    requires t == s.(tables := s.tables[child := t.tables[child]])
    requires forall p | p in s.tables[parent] || p in t.tables[child] :: p >= page
    ensures SharedUpTo(t, s, parent, child, page)
  {
  }
}
