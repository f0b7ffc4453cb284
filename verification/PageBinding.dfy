/**
 * The routines that write the page tables (src/memory/mmu.c:42-63, 79-94,
 * 120-137, 201-211, 246-267, 304-312), word by word in memory.
 */
module PageBinding {
  import opened PageDescriptors
  import opened PageWalk

  /** The code bind_address returns for its arguments. */
  function BindCode(lvl2: Word, va: Word, pa: Word): (code: Word) {
    if pa & LowBits != 0 then 4
    else if va & 0x0000_FFFF_C000_0000 != 0 then 2
    else if va & 0xFFFF_0000_0000_0000 != 0 then 1
    else if lvl2 & 0x1_FFFF != 0 then 3
    else 0
  }

  /** The code its documentation promises (src/memory/mmu.h:113-121), with 21 bits of alignment. */
  function DocumentedCode(lvl2: Word, va: Word, pa: Word): (code: Word) {
    if pa & LowBits != 0 then 4
    else if va & 0x0000_FFFF_C000_0000 != 0 then 2
    else if va & 0xFFFF_0000_0000_0000 != 0 then 1
    else if lvl2 & 0x1F_FFFF != 0 then 3
    else 0
  }

  /** No error comes before the alignment of the level-2 table. */
  predicate ReachesAlignment(va: Word, pa: Word) {
    pa & LowBits == 0 && va & 0x0000_FFFF_C000_0000 == 0 && va & 0xFFFF_0000_0000_0000 == 0
  }

  /**
   * The code is the documented one exactly when an earlier error applies, or the
   * table is off by less than 17 bits, or it is aligned to 21.
   */
  lemma CodeAsDocumentedIff(lvl2: Word, va: Word, pa: Word)
    ensures BindCode(lvl2, va, pa) == DocumentedCode(lvl2, va, pa)
            <==> !ReachesAlignment(va, pa) || lvl2 & 0x1_FFFF != 0 || lvl2 & 0x1F_FFFF == 0
  {
    LowAlignment(lvl2);
  }

  lemma LowAlignment(lvl2: Word)
    ensures lvl2 & 0x1F_FFFF == 0 ==> lvl2 & 0x1_FFFF == 0
  {}

  /** A table at 0x2_0000 is accepted against the documentation, for every page and frame. */
  lemma MisalignedTableIsAccepted(va: Word, pa: Word)
    requires ReachesAlignment(va, pa)
    ensures BindCode(0x2_0000, va, pa) == 0 && DocumentedCode(0x2_0000, va, pa) == 3 && Zone(0x2_0000)
  {}

  lemma CodeIsWalkError(lvl2: Word, va: Word, pa: Word)
    requires BindCode(lvl2, va, pa) != 0 && pa & LowBits == 0
    ensures IsError(Lvl2Entry(lvl2, va)) && Lvl2Entry(lvl2, va) == BindCode(lvl2, va, pa) && Lvl2Entry(lvl2, va) != 5
  {}

  /** The tables after a bind: va's page goes to pa, all other pages where they went before. */
  ghost predicate Bound(m: Memory, r: Memory, lvl2: Word, va: Word, pa: Word) {
    forall v: Word {:trigger Translate(r, lvl2, v)} :: Mappable(v) ==>
      Translate(r, lvl2, v) == if SamePage(va, v) then At(PlusOffset(pa, v)) else Translate(m, lvl2, v)
  }

  /** The level-2 entry that a bind of va goes through, and the level-3 entry it writes. */
  function Through(lvl2: Word, va: Word): (e: Word) { Slot2(lvl2, Index2(va)) }

  function Written(m: Memory, lvl2: Word, va: Word): (a: Word) { EntryIn(AddressOf(m(Through(lvl2, va))), va) }

  /** r is m after the bind of va has stored w: in a table that it first re-validates if it was not valid. */
  ghost predicate Binds(m: Memory, r: Memory, lvl2: Word, va: Word, w: Word) {
    && r(Written(m, lvl2, va)) == w
    && forall x: Word {:trigger r(x)} :: x != Written(m, lvl2, va) ==>
         r(x) == if IsTableEntry(m(Through(lvl2, va))) then m(x) else AfterInit(m, Through(lvl2, va), 512, x)
  }

  /** The table that the level-2 entry names lies elsewhere, so re-validation leaves the entry valid. */
  predicate Apart(entry: Word, e: Word) { IsTableEntry(entry) || PageOf(e) != AddressOf(entry) }

  ghost predicate SameOutside(m: Memory, r: Memory, lvl2: Word) {
    forall x: Word {:trigger r(x)} :: Outside(lvl2, x) ==> r(x) == m(x)
  }

  class PageTables {
    var mem: Memory
    var lvl2: Word

    constructor (memory: Memory, table: Word)
      ensures mem == memory && lvl2 == table
    {
      mem := memory;
      lvl2 := table;
    }

    method Write(a: Word, v: Word)
      modifies this`mem
      ensures Put(old(mem), mem, a, v)
    {
      var m := mem;
      mem := x => if x == a then v else m(x);
    }

    /** init_table_entry_sg1. */
    method InitTableEntry(a: Word, table: Word)
      modifies this`mem
      ensures Put(old(mem), mem, a, WithTableAttributes(WithAddress(old(mem)(a), table)))
    {
      Write(a, WithAddress(mem(a), table));
      Write(a, WithTableAttributes(mem(a)));
    }

    /** init_block_and_page_entry_sg1. */
    method InitPageEntry(a: Word, frame: Word, ba: PageAttributes)
      modifies this`mem
      ensures Put(old(mem), mem, a, WithPageAttributes(WithAddress(old(mem)(a), frame), ba))
    {
      Write(a, WithAddress(mem(a), frame));
      Write(a, WithPageAttributes(mem(a), ba));
    }

    /** populate_lvl2_table, called with the page behind the level-2 table. */
    method PopulateLvl2Table(lvl3: Word)
      requires Zone(lvl2) && lvl3 == Behind(lvl2)
      modifies this`mem
      ensures Populated(mem, lvl2) && PopulatedTo(old(mem), mem, lvl2, 511)
    {
      hide Slot2, Zone, Table3, AddressOf, IsTableEntry, WithTableAttributes, WithAddress, PageOf, Nth, Behind, Below;
      ghost var m := mem;
      PopulateStart(m, lvl2);
      var i: Word := 0;
      while i < 511
        invariant i <= 511 && PopulatedTo(m, mem, lvl2, i)
        decreases 511 - i
      {
        ghost var n := mem;
        NthTable(lvl2, i);
        InitTableEntry(Slot2(lvl2, i), Nth(lvl3, i));
        PopulateStep(m, n, mem, lvl2, i);
        i := i + 1;
      }
      PopulateEnd(m, mem, lvl2);
    }

    /** init_new_lvl3_table, on any level-2 entry. */
    method InitNewLvl3Table(entry: Word)
      modifies this`mem
      ensures Revalidated(old(mem), mem, entry, 512)
    {
      hide InTable, Identified, Invalidated, IsTableEntry, AddressOf, Entry, Revalidated;
      ghost var m := mem;
      Write(entry, Identified(mem(entry)));
      IdentifierKeepsAddress(m(entry));
      assert IsTableEntry(mem(entry));
      RevalidateStart(m, mem, entry);
      var j: Word := 0;
      while j < 512
        invariant j <= 512 && Revalidated(m, mem, entry, j)
        decreases 512 - j
      {
        ghost var n := mem;
        RevalidateAddress(m, n, entry, j);
        var a := Entry(AddressOf(mem(entry)), j);
        Write(a, Invalidated(mem(a)));
        RevalidateStep(m, n, mem, entry, j);
        j := j + 1;
      }
    }

    /**
     * bind_address: its code, and for code 0 the words it leaves behind. It
     * enters itself at most once, when the level-3 table was not valid. In a
     * populated zone va's page then goes to pa, as far as an entry can hold
     * it, and every other page where it went before.
     */
    method BindAddress(va: Word, pa: Word, ba: PageAttributes) returns (code: Word, ghost again: nat)
      requires BindCode(lvl2, va, pa) == 0 ==> Apart(mem(Through(lvl2, va)), Through(lvl2, va))
      modifies this`mem
      ensures code == BindCode(lvl2, va, pa)
      ensures code != 0 ==> mem == old(mem) && again == 0
      ensures code == 0 ==>
                && Binds(old(mem), mem, lvl2, va, Cut(pa) | AttributeBits(ba))
                && again == (if IsTableEntry(old(mem)(Through(lvl2, va))) then 0 else 1)
      ensures code == 0 && Populated(old(mem), lvl2) && Mappable(va) ==>
                && Populated(mem, lvl2) && Bound(old(mem), mem, lvl2, va, Cut(pa)) && SameOutside(old(mem), mem, lvl2)
                && mem(Slot3(lvl2, Index2(va), Index3(va))) == Cut(pa) | AttributeBits(ba)
      decreases if IsTableEntry(mem(Through(lvl2, va))) then 0 else 1
    {
      hide Through, Written, Binds, Populated, Bound, SameOutside, Slot3, Mappable, Index2, Index3, Lvl2Entry, IsTableEntry, Apart;
      hide AttributeBits, WithPageAttributes, WithAddress, BindCode, Lvl3Entry, Revalidated, Cut, FrameAddress;
      again := 0;
      CodeFour(lvl2, va, pa);
      if pa & LowBits != 0 {
        return 4, 0;
      }
      ghost var m := mem;
      WalkOutcome(mem, lvl2, va, pa);
      var entry := Lvl3Entry(mem, lvl2, va);
      if entry & 7 == 0 {
        InitPageEntry(entry, pa, ba);
        PageEntryIs(m(entry), pa, ba);
        StoreBinds(m, mem, lvl2, va, Cut(pa) | AttributeBits(ba));
        code := 0;
      } else if entry & 7 == 5 {
        InitNewLvl3Table(Lvl2Entry(lvl2, va));
        ghost var n := mem;
        StillApart(m, n, lvl2, va, pa);
        code, again := BindAddress(va, pa, ba);
        BindsAgain(m, n, mem, lvl2, va, Cut(pa) | AttributeBits(ba));
        again := again + 1;
      } else {
        code := entry;
      }
      if code == 0 && Populated(m, lvl2) && Mappable(va) {
        BindsCut(m, mem, lvl2, va, pa, ba);
      }
    }

    /** set_invalid_page of a page whose level-3 table is valid: that page faults, no other changes. */
    method SetInvalidPage(va: Word)
      requires Populated(mem, lvl2) && Mappable(va) && IsTableEntry(mem(Slot2(lvl2, Index2(va))))
      modifies this`mem
      ensures Populated(mem, lvl2) && SameOutside(old(mem), mem, lvl2)
      ensures var a := Slot3(lvl2, Index2(va), Index3(va)); Put(old(mem), mem, a, Invalidated(old(mem)(a)))
      ensures forall v: Word {:trigger Translate(mem, lvl2, v)} :: Mappable(v) ==>
                Translate(mem, lvl2, v) == if SamePage(va, v) then Fault else Translate(old(mem), lvl2, v)
    {
      hide Slot2, Slot3, Table3, Zone, Row, Column, Mappable, Index2, Index3, Lvl2Entry, IsTableEntry, AddressOf, IsPageEntry, Lvl3Entry;
      hide Invalidated, Populated, IsError;
      WalkIs(mem, lvl2, va);
      ghost var m := mem;
      var entry := Lvl3Entry(mem, lvl2, va);
      assert !IsError(entry);
      Write(entry, Invalidated(mem(entry)));
      IdentifierKeepsAddress(m(entry));
      UnbindDone(m, mem, lvl2, va);
    }
  }

  lemma CodeFour(lvl2: Word, va: Word, pa: Word)
    ensures pa & LowBits != 0 ==> BindCode(lvl2, va, pa) == 4
  {}

  /** What the switch of bind_address sees for an aligned frame. */
  lemma WalkOutcome(m: Memory, lvl2: Word, va: Word, pa: Word)
    requires pa & LowBits == 0
    ensures var e := Lvl3Entry(m, lvl2, va);
            && (BindCode(lvl2, va, pa) != 0 ==> e == BindCode(lvl2, va, pa) && e & 7 != 0 && e & 7 != 5)
            && (BindCode(lvl2, va, pa) == 0 && IsTableEntry(m(Through(lvl2, va))) ==> e & 7 == 0 && e == Written(m, lvl2, va))
            && (BindCode(lvl2, va, pa) == 0 && !IsTableEntry(m(Through(lvl2, va))) ==> e & 7 == 5 && Lvl2Entry(lvl2, va) == Through(lvl2, va))
  {
    if BindCode(lvl2, va, pa) == 0 {
      CodeZero(lvl2, va, pa);
      EntryIsNoError(m(Through(lvl2, va)), va);
      hide Through, Lvl2Entry, AddressOf, EntryIn, BindCode, IsTableEntry;
    } else {
      CodeIsWalkError(lvl2, va, pa);
      hide Through, Written, IsTableEntry, Lvl2Entry;
      CodeBits(lvl2, va, pa);
    }
  }

  lemma CodeZero(lvl2: Word, va: Word, pa: Word)
    requires BindCode(lvl2, va, pa) == 0
    ensures Lvl2Entry(lvl2, va) == Through(lvl2, va) && !IsError(Through(lvl2, va))
  {}

  lemma EntryIsNoError(entry: Word, va: Word)
    ensures !IsError(EntryIn(AddressOf(entry), va))
  {}

  lemma CodeBits(lvl2: Word, va: Word, pa: Word)
    ensures BindCode(lvl2, va, pa) & 7 == BindCode(lvl2, va, pa) && BindCode(lvl2, va, pa) != 5
  {}

  /** Writing va's entry binds va's page. */
  lemma BindDone(m: Memory, r: Memory, lvl2: Word, va: Word, pa: Word, ba: PageAttributes)
    requires Populated(m, lvl2) && Mappable(va) && FrameAddress(pa) && IsTableEntry(m(Slot2(lvl2, Index2(va))))
    requires Put(m, r, Slot3(lvl2, Index2(va), Index3(va)), pa | AttributeBits(ba))
    ensures Populated(r, lvl2) && Bound(m, r, lvl2, va, pa) && SameOutside(m, r, lvl2)
  {
    hide Slot2, Slot3, Table3, Zone, Row, Column, Mappable, Index2, Index3, IsTableEntry, AddressOf, IsPageEntry, AttributeBits;
    hide PlusOffset, Translate, FrameAddress, Outside;
    PageEntryReadsBack(pa, ba);
    forall v: Word | Mappable(v)
      ensures Translate(r, lvl2, v) == if SamePage(va, v) then At(PlusOffset(pa, v)) else Translate(m, lvl2, v)
    {
      RedirectsOnePage(m, r, lvl2, va, pa | AttributeBits(ba), v);
    }
    RedirectsOnePage(m, r, lvl2, va, pa | AttributeBits(ba), va);
    Bounds(va);
    SlotsInZone(lvl2, Index2(va), Index3(va));
  }

  lemma UnbindDone(m: Memory, r: Memory, lvl2: Word, va: Word)
    requires Populated(m, lvl2) && Mappable(va) && IsTableEntry(m(Slot2(lvl2, Index2(va))))
    requires Put(m, r, Slot3(lvl2, Index2(va), Index3(va)), Invalidated(m(Slot3(lvl2, Index2(va), Index3(va)))))
    ensures Populated(r, lvl2) && SameOutside(m, r, lvl2)
    ensures forall v: Word {:trigger Translate(r, lvl2, v)} :: Mappable(v) ==>
              Translate(r, lvl2, v) == if SamePage(va, v) then Fault else Translate(m, lvl2, v)
  {
    hide Slot2, Slot3, Table3, Zone, Row, Column, Mappable, Index2, Index3, IsTableEntry, AddressOf, IsPageEntry, Invalidated;
    hide PlusOffset, Translate, Outside;
    var entry := Invalidated(m(Slot3(lvl2, Index2(va), Index3(va))));
    IdentifierKeepsAddress(m(Slot3(lvl2, Index2(va), Index3(va))));
    forall v: Word | Mappable(v)
      ensures Translate(r, lvl2, v) == if SamePage(va, v) then Fault else Translate(m, lvl2, v)
    {
      RedirectsOnePage(m, r, lvl2, va, entry, v);
    }
    RedirectsOnePage(m, r, lvl2, va, entry, va);
    Bounds(va);
    SlotsInZone(lvl2, Index2(va), Index3(va));
  }

  lemma StoreBinds(m: Memory, r: Memory, lvl2: Word, va: Word, w: Word)
    requires IsTableEntry(m(Through(lvl2, va))) && Put(m, r, Written(m, lvl2, va), w)
    ensures Binds(m, r, lvl2, va, w)
  {
    hide Through, Written, IsTableEntry;
  }

  /** Re-validation makes the entry valid exactly when its table lies elsewhere; else bind_address would enter itself for ever. */
  lemma ReentersOnceIff(m: Memory, n: Memory, lvl2: Word, va: Word)
    requires !IsTableEntry(m(Through(lvl2, va))) && !IsError(Through(lvl2, va)) && Revalidated(m, n, Through(lvl2, va), 512)
    ensures IsTableEntry(n(Through(lvl2, va))) <==> Apart(m(Through(lvl2, va)), Through(lvl2, va))
    ensures AddressOf(n(Through(lvl2, va))) == AddressOf(m(Through(lvl2, va)))
  {
    hide Through, IsTableEntry, AddressOf, PageOf, IsError, InTable, Identified, Invalidated;
    var e := Through(lvl2, va);
    InWholeTable(AddressOf(m(e)), e);
    IdentifierKeepsAddress(m(e));
    RevalidateAddress(m, n, e, 512);
    InvalidatedIsNoTable(Identified(m(e)));
  }

  lemma InvalidatedIsNoTable(entry: Word)
    ensures !IsTableEntry(Invalidated(entry))
  {}

  lemma StillApart(m: Memory, n: Memory, lvl2: Word, va: Word, pa: Word)
    requires BindCode(lvl2, va, pa) == 0 && !IsTableEntry(m(Through(lvl2, va))) && Apart(m(Through(lvl2, va)), Through(lvl2, va))
    requires Revalidated(m, n, Through(lvl2, va), 512)
    ensures IsTableEntry(n(Through(lvl2, va))) && Apart(n(Through(lvl2, va)), Through(lvl2, va))
  {
    CodeZero(lvl2, va, pa);
    hide Through, IsTableEntry, AddressOf, IsError, Revalidated, BindCode;
    ReentersOnceIff(m, n, lvl2, va);
  }

  lemma BindsAgain(m: Memory, n: Memory, r: Memory, lvl2: Word, va: Word, w: Word)
    requires !IsTableEntry(m(Through(lvl2, va))) && IsTableEntry(n(Through(lvl2, va)))
    requires Revalidated(m, n, Through(lvl2, va), 512) && Binds(n, r, lvl2, va, w)
    ensures Binds(m, r, lvl2, va, w)
  {
    hide Through, IsTableEntry, AddressOf, AfterInit, EntryIn;
    RevalidateAddress(m, n, Through(lvl2, va), 512);
  }

  /** In a populated zone a bind writes its page's own entry, and the page goes where the entry says. */
  lemma BindsPopulated(m: Memory, r: Memory, lvl2: Word, va: Word, f: Word, ba: PageAttributes)
    requires Populated(m, lvl2) && Mappable(va) && FrameAddress(f) && Binds(m, r, lvl2, va, f | AttributeBits(ba))
    ensures Populated(r, lvl2) && Bound(m, r, lvl2, va, f) && SameOutside(m, r, lvl2)
    ensures r(Slot3(lvl2, Index2(va), Index3(va))) == f | AttributeBits(ba)
  {
    WrittenIs(m, lvl2, va);
    hide Through, Written, Populated, Mappable, Slot2, Slot3, Index2, Index3, IsTableEntry, FrameAddress, AttributeBits, Bound, SameOutside, AfterInit;
    if IsTableEntry(m(Through(lvl2, va))) {
      BindDone(m, r, lvl2, va, f, ba);
    } else {
      var n: Memory := x => AfterInit(m, Through(lvl2, va), 512, x);
      RevalidateDone(m, n, lvl2, va);
      BindDone(n, r, lvl2, va, f, ba);
      BindAfterRevalidate(m, n, r, lvl2, va, f);
    }
  }

  lemma BindsCut(m: Memory, r: Memory, lvl2: Word, va: Word, pa: Word, ba: PageAttributes)
    requires Populated(m, lvl2) && Mappable(va) && BindCode(lvl2, va, pa) == 0 && Binds(m, r, lvl2, va, Cut(pa) | AttributeBits(ba))
    ensures Populated(r, lvl2) && Bound(m, r, lvl2, va, Cut(pa)) && SameOutside(m, r, lvl2)
    ensures r(Slot3(lvl2, Index2(va), Index3(va))) == Cut(pa) | AttributeBits(ba)
  {
    hide *;
    CodeRanges(lvl2, va, pa);
    CutIsFrame(pa);
    BindsPopulated(m, r, lvl2, va, Cut(pa), ba);
  }

  lemma WrittenIs(m: Memory, lvl2: Word, va: Word)
    requires Populated(m, lvl2) && Mappable(va)
    ensures Written(m, lvl2, va) == Slot3(lvl2, Index2(va), Index3(va)) && Through(lvl2, va) == Slot2(lvl2, Index2(va))
  {
    hide Slot2, Slot3, Table3, Zone, Row, Mappable, Index2, Index3, AddressOf, EntryIn;
    Bounds(va);
    SecondEntry(lvl2, va);
  }

  /** After init_new_lvl3_table all pages translate as before, and va's table is valid. */
  lemma RevalidateDone(m: Memory, n: Memory, lvl2: Word, va: Word)
    requires Populated(m, lvl2) && Mappable(va) && !IsTableEntry(m(Slot2(lvl2, Index2(va))))
    requires Revalidated(m, n, Slot2(lvl2, Index2(va)), 512)
    ensures Populated(n, lvl2) && IsTableEntry(n(Slot2(lvl2, Index2(va)))) && SameOutside(m, n, lvl2)
    ensures forall v: Word {:trigger Translate(n, lvl2, v)} :: Mappable(v) ==> Translate(n, lvl2, v) == Translate(m, lvl2, v)
  {
    hide Slot2, Slot3, Table3, Zone, Row, Column, Mappable, Index2, Index3, IsTableEntry, AddressOf, IsPageEntry;
    hide Translate, Outside, InTable, Identified, Invalidated;
    Bounds(va);
    forall v: Word | Mappable(v) ensures Translate(n, lvl2, v) == Translate(m, lvl2, v) {
      RevalidationIsSilent(m, n, lvl2, Index2(va), v);
    }
    RevalidationIsSilent(m, n, lvl2, Index2(va), va);
    SlotsInZone(lvl2, Index2(va), Index3(va));
    forall x: Word | Outside(lvl2, x) ensures n(x) == m(x) {
      if InTable(Table3(lvl2, Index2(va)), 512, x) {
        TableInZone(lvl2, Index2(va), 512, x);
      }
    }
  }

  lemma BindAfterRevalidate(m: Memory, n: Memory, r: Memory, lvl2: Word, va: Word, pa: Word)
    requires SameOutside(m, n, lvl2) && SameOutside(n, r, lvl2) && Bound(n, r, lvl2, va, pa)
    requires forall v: Word {:trigger Translate(n, lvl2, v)} :: Mappable(v) ==> Translate(n, lvl2, v) == Translate(m, lvl2, v)
    ensures Bound(m, r, lvl2, va, pa) && SameOutside(m, r, lvl2)
  {
    hide Translate, Mappable, SamePage, PlusOffset, Outside;
  }

  /** ---------- The last row ---------- */

  /** The words that a bind of va in the last row leaves in the first page of memory are there already. */
  ghost predicate AlreadyThere(m: Memory, va: Word, w: Word) {
    forall x: Word {:trigger m(x)} :: PageOf(x) == 0 && !IsError(x) ==> m(x) == if x == EntryIn(0, va) then w else Invalidated(m(x))
  }

  /** Once the zero last entry is identified, the walk through it ends in the first page of memory. */
  lemma LastRowLeavesZone(m: Memory, lvl2: Word, va: Word)
    requires Zone(lvl2) && lvl2 != 0 && va < 0x4000_0000 && Index2(va) == 511
    requires m(Slot2(lvl2, 511)) == Identified(0)
    ensures !IsError(Lvl3Entry(m, lvl2, va)) && Lvl3Entry(m, lvl2, va) < 0x1000 && Outside(lvl2, Lvl3Entry(m, lvl2, va))
  {
    assert Lvl2Entry(lvl2, va) == Slot2(lvl2, 511) && !IsError(Slot2(lvl2, 511));
    LowEntry(lvl2, va);
    hide Slot2, Index2, Index3, Zone, Outside, Lvl2Entry;
  }

  /**
   * The last level-2 entry has no table behind it. While it is zero, a bind
   * re-validates the first page of memory as its table and stores there: a bind
   * leaves the memory outside the zone as it was exactly when the level-2 index
   * is below 511, or that page happens to hold those words already.
   */
  lemma BindStaysInZoneIff(m: Memory, r: Memory, lvl2: Word, va: Word, pa: Word, ba: PageAttributes)
    requires Populated(m, lvl2) && lvl2 != 0 && m(Slot2(lvl2, 511)) == 0
    requires BindCode(lvl2, va, pa) == 0 && Binds(m, r, lvl2, va, Cut(pa) | AttributeBits(ba))
    ensures SameOutside(m, r, lvl2) <==> Index2(va) < 511 || AlreadyThere(m, va, Cut(pa) | AttributeBits(ba))
  {
    CodeRanges(lvl2, va, pa);
    if Index2(va) < 511 {
      BindsCut(m, r, lvl2, va, pa, ba);
      hide *;
    } else {
      LastRowBinds(m, r, lvl2, va, Cut(pa) | AttributeBits(ba));
      hide *;
    }
  }

  lemma CodeRanges(lvl2: Word, va: Word, pa: Word)
    requires BindCode(lvl2, va, pa) == 0
    ensures pa & LowBits == 0 && va < 0x4000_0000 && (Index2(va) < 511 ==> Mappable(va)) && (Index2(va) >= 511 ==> Index2(va) == 511)
  {}

  lemma LastRowBinds(m: Memory, r: Memory, lvl2: Word, va: Word, w: Word)
    requires Zone(lvl2) && lvl2 != 0 && m(Slot2(lvl2, 511)) == 0 && Index2(va) == 511 && Binds(m, r, lvl2, va, w)
    ensures SameOutside(m, r, lvl2) <==> AlreadyThere(m, va, w)
  {
    LastRowWords(m, r, lvl2, va, w);
    LowEntry(lvl2, va);
    hide Slot2, Index2, Zone, Outside, Binds, EntryIn, PageOf, IsError, Invalidated;
    if SameOutside(m, r, lvl2) {
      forall x: Word | PageOf(x) == 0 && !IsError(x) ensures m(x) == if x == EntryIn(0, va) then w else Invalidated(m(x)) {
        LowIsOutside(lvl2, x);
        assert r(x) == m(x);
      }
    }
    if AlreadyThere(m, va, w) {
      forall x: Word | Outside(lvl2, x) ensures r(x) == m(x) {
        LastEntryInZone(lvl2);
        assert PageOf(x) == 0 && !IsError(x) ==> m(x) == if x == EntryIn(0, va) then w else Invalidated(m(x));
      }
    }
  }

  /** Word by word what a bind in the last row does. */
  lemma LastRowWords(m: Memory, r: Memory, lvl2: Word, va: Word, w: Word)
    requires Zone(lvl2) && lvl2 != 0 && m(Slot2(lvl2, 511)) == 0 && Index2(va) == 511 && Binds(m, r, lvl2, va, w)
    ensures forall x: Word {:trigger r(x)} :: x != Slot2(lvl2, 511) ==>
              r(x) == if x == EntryIn(0, va) then w else if PageOf(x) == 0 && !IsError(x) then Invalidated(m(x)) else m(x)
  {
    ZeroEntry();
    hide Slot2, Index2, Zone, AddressOf, IsTableEntry, InTable, EntryIn, PageOf, IsError, Invalidated, Identified;
    forall x: Word | x != Slot2(lvl2, 511)
      ensures r(x) == if x == EntryIn(0, va) then w else if PageOf(x) == 0 && !IsError(x) then Invalidated(m(x)) else m(x)
    {
      InWholeTable(0, x);
    }
  }

  lemma ZeroEntry()
    ensures !IsTableEntry(0) && AddressOf(0) == 0
  {}

  lemma LowIsOutside(lvl2: Word, x: Word)
    requires Zone(lvl2) && lvl2 != 0 && PageOf(x) == 0
    ensures Outside(lvl2, x) && x != Slot2(lvl2, 511)
  {}

  lemma LastEntryInZone(lvl2: Word)
    requires Zone(lvl2)
    ensures !Outside(lvl2, Slot2(lvl2, 511))
  {}

  lemma LowEntry(lvl2: Word, va: Word)
    requires Zone(lvl2) && lvl2 != 0
    ensures IsTableEntry(Identified(0)) && AddressOf(Identified(0)) == 0
    ensures var e := EntryIn(0, va); !IsError(e) && PageOf(e) == 0 && e < 0x1000 && Outside(lvl2, e)
  {}

  /**
   * From a memory of zeros with its tables populated at 2 MB, binding the page
   * at 0x3FE0_0000 succeeds and stores its entry at address 0.
   */
  method LastRowWritesOutside(pa: Word, ba: PageAttributes) returns (before: Memory, after: Memory)
    requires pa & LowBits == 0
    ensures Populated(before, 0x20_0000) && before(0) == 0 && after(0) == Cut(pa) | AttributeBits(ba)
    ensures Outside(0x20_0000, 0) && !SameOutside(before, after, 0x20_0000)
  {
    LastRowConstants(pa);
    hide Zone, Slot2, Through, Written, Index2, IsTableEntry, AddressOf, Cut, AttributeBits, BindCode, Populated, AfterInit, PageOf, Behind, Mappable, Outside;
    var zero: Memory := x => 0;
    var tables := new PageTables(zero, 0x20_0000);
    tables.PopulateLvl2Table(Behind(0x20_0000));
    before := tables.mem;
    assert before(0) == zero(0) && before(Slot2(0x20_0000, 511)) == zero(Slot2(0x20_0000, 511));
    var code, _ := tables.BindAddress(0x3FE0_0000, pa, ba);
    after := tables.mem;
    EntryIsSet(Cut(pa), ba);
  }

  lemma LastRowConstants(pa: Word)
    requires pa & LowBits == 0
    ensures Zone(0x20_0000) && Through(0x20_0000, 0x3FE0_0000) == Slot2(0x20_0000, 511) && Outside(0x20_0000, 0)
    ensures BindCode(0x20_0000, 0x3FE0_0000, pa) == 0 && Apart(0, Slot2(0x20_0000, 511))
    ensures PageOf(0) != 0x20_0000 && AddressOf(0) == 0 && EntryIn(0, 0x3FE0_0000) == 0
  {}

  lemma EntryIsSet(f: Word, ba: PageAttributes)
    ensures f | AttributeBits(ba) != 0
  {
    AttributeFields(ba);
    JoinIsSet(f, AttributeBits(ba));
  }

  lemma JoinIsSet(f: Word, a: Word)
    requires a & 3 == 3
    ensures f | a != 0
  {}

  /** The page behind the level-2 table, and the i-th page from a given one. */
  function Behind(lvl2: Word): (a: Word) { lvl2 + 0x1000 }

  function Nth(lvl3: Word, i: Word): (a: Word) { lvl3 + 0x1000 * i }

  lemma NthTable(lvl2: Word, i: Word)
    requires Zone(lvl2) && Row(i)
    ensures Nth(Behind(lvl2), i) == Table3(lvl2, i)
  {}

  lemma PopulateStart(m: Memory, lvl2: Word)
    ensures PopulatedTo(m, m, lvl2, 0)
  {
    hide IsTableEntry, AddressOf, Table3, Slot2, PageOf;
  }

  lemma PopulateEnd(m: Memory, r: Memory, lvl2: Word)
    requires Zone(lvl2) && PopulatedTo(m, r, lvl2, 511)
    ensures Populated(r, lvl2)
  {
    hide IsTableEntry, AddressOf, Table3, Slot2, PageOf, Zone;
  }
}
