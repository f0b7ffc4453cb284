/**
 * The two-level walk over a process's tables in memory
 * (src/memory/mmu.c:155-211, 246-275). The level-2 table and the 511 level-3
 * tables behind it fill one zone of 2 MB (doc/mmu.md:83).
 */
module PageWalk {
  import opened PageDescriptors

  /** The 64-bit word at each address. */
  type Memory = Word -> Word

  function Index2(va: Word): (i: Word) { (va & 0x3FE0_0000) >> 21 }

  function Index3(va: Word): (j: Word) { (va & 0x1F_F000) >> 12 }

  /** Results with one of the three low bits set are error codes. */
  predicate IsError(r: Word) { r & 7 != 0 }

  /** get_lvl2_table_entry_phys_address: an error code, or the address of the level-2 entry. */
  function Lvl2Entry(lvl2: Word, va: Word): (r: Word) {
    if va & 0x0000_FFFF_C000_0000 != 0 then 2
    else if va & 0xFFFF_0000_0000_0000 != 0 then 1
    else if lvl2 & 0x1_FFFF != 0 then 3
    else lvl2 + 8 * Index2(va)
  }

  /** The entry for va of the level-3 table at a. */
  function EntryIn(a: Word, va: Word): (r: Word) { Entry(a, Index3(va)) }

  /** get_lvl3_entry_phys_address: an error code, or the address of the level-3 entry. */
  function Lvl3Entry(m: Memory, lvl2: Word, va: Word): (r: Word) {
    var e := Lvl2Entry(lvl2, va);
    if IsError(e) then e
    else if !IsTableEntry(m(e)) then 5
    else EntryIn(AddressOf(m(e)), va)
  }

  datatype Translation = Fault | At(address: Word)

  function PlusOffset(frame: Word, va: Word): (r: Word) { frame + (va & LowBits) }

  /** get_physical_address of a page that is valid. */
  function Translate(m: Memory, lvl2: Word, va: Word): (t: Translation) {
    var e := Lvl3Entry(m, lvl2, va);
    if IsError(e) || !IsPageEntry(m(e)) then Fault else At(PlusOffset(AddressOf(m(e)), va))
  }

  /** The tables' zone: 2 MB from an address that the walk accepts, below 2^36. */
  predicate Zone(lvl2: Word) { lvl2 & 0x1_FFFF == 0 && lvl2 <= 0xF_FFE0_0000 }

  /** There are level-3 tables for all level-2 entries but the last. */
  predicate Row(i: Word) { i < 511 }

  predicate Column(j: Word) { j < 512 }

  /** The address of level-2 entry i, of level-3 table i, and of its entry j. */
  function Slot2(lvl2: Word, i: Word): (a: Word) { lvl2 + 8 * i }

  function Table3(lvl2: Word, i: Word): (a: Word) { lvl2 + 0x1000 * (i + 1) }

  function Slot3(lvl2: Word, i: Word, j: Word): (a: Word) { Entry(Table3(lvl2, i), j) }

  function Entry(table: Word, j: Word): (a: Word) { table + 8 * j }

  function PageOf(x: Word): (a: Word) { x & 0xFFFF_FFFF_FFFF_F000 }

  function PlaceIn(x: Word): (j: Word) { (x & LowBits) >> 3 }

  predicate Below(a: Word, n: Word) { a < n }

  /** x is the address of one of the first n entries of the table at t. */
  predicate InTable(t: Word, n: Word, x: Word) {
    PageOf(x) == t && !IsError(x) && Below(PlaceIn(x), n)
  }

  predicate Aligned(t: Word) { t & LowBits == 0 }

  /** populate_lvl2_table has run: each of the 511 entries holds the address of its own table. */
  ghost predicate Populated(m: Memory, lvl2: Word) {
    Zone(lvl2) && forall i: Word {:trigger Slot2(lvl2, i)} :: Row(i) ==> AddressOf(m(Slot2(lvl2, i))) == Table3(lvl2, i)
  }

  /** A page the tables can map: bits 63 to 30 clear and a level-2 index below 511. */
  predicate Mappable(va: Word) { va < 0x4000_0000 && Row(Index2(va)) }

  predicate SamePage(va: Word, vb: Word) {
    Index2(va) == Index2(vb) && Index3(va) == Index3(vb)
  }

  /** ---------- Bit-level facts ---------- */

  lemma Bounds(va: Word)
    requires Mappable(va)
    ensures Row(Index2(va)) && Column(Index3(va))
  {}

  /** An address is its level-2 index, its level-3 index and its offset, in units of 2 MB, 4 KB and one. */
  lemma AddressParts(va: Word)
    requires va < 0x4000_0000
    ensures va == 0x20_0000 * Index2(va) + 0x1000 * Index3(va) + (va & LowBits) && Index2(va) < 512 && Index3(va) < 512
  {
    Index2Is(va);
    Index3Is(va);
    hide Index2, Index3;
    PartsAdd(va);
  }

  lemma Index2Is(va: Word)
    requires va < 0x4000_0000
    ensures Index2(va) == va >> 21 && Index2(va) < 512
  {}

  lemma Index3Is(va: Word)
    ensures Index3(va) == (va >> 12) & 0x1FF && Index3(va) < 512
  {}

  lemma PartsAdd(va: Word)
    ensures va == 0x20_0000 * (va >> 21) + 0x1000 * ((va >> 12) & 0x1FF) + (va & LowBits)
  {}

  function PageAt(i: Word, j: Word): (a: Word) { 0x20_0000 * i + 0x1000 * j }

  lemma PageFromIndices(va: Word)
    requires va < 0x4000_0000
    ensures PageOf(va) == PageAt(Index2(va), Index3(va))
  {}

  lemma IndicesFromPage(va: Word)
    ensures Index2(va) == Index2(PageOf(va)) && Index3(va) == Index3(PageOf(va))
  {}

  /** Two addresses are of one page exactly when they agree above the offset. */
  lemma SamePageIff(va: Word, vb: Word)
    requires va < 0x4000_0000 && vb < 0x4000_0000
    ensures SamePage(va, vb) <==> PageOf(va) == PageOf(vb)
  {
    hide Index2, Index3, PageOf, PageAt;
    PageFromIndices(va);
    PageFromIndices(vb);
    IndicesFromPage(va);
    IndicesFromPage(vb);
  }

  /** Translation keeps the offset. */
  lemma OffsetStays(frame: Word, va: Word)
    requires FrameAddress(frame)
    ensures PageOf(PlusOffset(frame, va)) == frame && PlusOffset(frame, va) & LowBits == va & LowBits
  {}

  lemma FirstEntry(lvl2: Word, va: Word)
    requires Mappable(va) && Zone(lvl2)
    ensures Lvl2Entry(lvl2, va) == Slot2(lvl2, Index2(va))
  {}

  lemma SecondEntry(lvl2: Word, va: Word)
    ensures EntryIn(Table3(lvl2, Index2(va)), va) == Slot3(lvl2, Index2(va), Index3(va))
  {
    hide Entry, Table3, Index2, Index3;
  }

  lemma Slot2Place(lvl2: Word, i: Word)
    requires Zone(lvl2) && Row(i)
    ensures Place(lvl2, Slot2(lvl2, i)) == Spot(0, i) && !IsError(Slot2(lvl2, i))
  {}

  datatype Spot = Spot(page: Word, entry: Word)

  /** The page within the zone, and the entry within that page, that an address is of. */
  function Place(lvl2: Word, a: Word): (r: Spot) { Spot(((a - lvl2) >> 12) & 0x1FF, ((a - lvl2) >> 3) & 0x1FF) }

  lemma Slot3Place(lvl2: Word, i: Word, j: Word)
    requires Zone(lvl2) && Row(i) && Column(j)
    ensures Place(lvl2, Slot3(lvl2, i, j)) == Spot(i + 1, j) && i + 1 != 0 && !IsError(Slot3(lvl2, i, j))
  {}

  lemma Successor(i: Word, k: Word)
    ensures i + 1 == k + 1 ==> i == k
  {}

  lemma Table3IsFrame(lvl2: Word, i: Word)
    requires Zone(lvl2) && Row(i)
    ensures FrameAddress(Table3(lvl2, i)) && Aligned(Table3(lvl2, i))
  {}

  lemma AddressIsAligned(entry: Word)
    ensures Aligned(AddressOf(entry))
  {}

  /** The part of memory around the tables: everything outside the zone. */
  predicate Outside(lvl2: Word, x: Word) { x - lvl2 >= 0x20_0000 }

  lemma SlotsInZone(lvl2: Word, i: Word, j: Word)
    requires Zone(lvl2) && Row(i) && Column(j)
    ensures !Outside(lvl2, Slot2(lvl2, i)) && !Outside(lvl2, Slot3(lvl2, i, j))
  {}

  lemma TableInZone(lvl2: Word, i: Word, n: Word, x: Word)
    requires Zone(lvl2) && Row(i) && InTable(Table3(lvl2, i), n, x)
    ensures !Outside(lvl2, x)
  {
    EntrySum(x);
    PlaceIsColumn(x);
    SlotsInZone(lvl2, i, PlaceIn(x));
    hide Zone, Row, Column, Table3, PageOf, PlaceIn, Below, Entry, IsError, Outside;
  }

  lemma PlaceIsColumn(x: Word)
    ensures Column(PlaceIn(x))
  {}

  lemma Slot2NotInTable(lvl2: Word, i: Word, k: Word, n: Word)
    requires Zone(lvl2) && Row(i) && Row(k)
    ensures !InTable(Table3(lvl2, i), n, Slot2(lvl2, k))
  {}

  lemma EntryFields(t: Word, j: Word)
    requires Aligned(t) && Column(j)
    ensures PageOf(Entry(t, j)) == t && !IsError(Entry(t, j)) && PlaceIn(Entry(t, j)) == j
  {}

  /** An aligned address is its page plus eight times its place in it. */
  lemma EntrySum(x: Word)
    requires !IsError(x)
    ensures x == Entry(PageOf(x), PlaceIn(x))
  {}

  lemma BelowNext(a: Word, j: Word)
    requires Column(j)
    ensures Below(a, j + 1) <==> Below(a, j) || a == j
    ensures !Below(a, 0)
  {}

  lemma NotBelowSelf(j: Word)
    ensures !Below(j, j)
  {}

  lemma ColumnBelow(j: Word)
    requires Column(j)
    ensures Below(j, 512)
  {}

  lemma TablesDistinct(lvl2: Word, i: Word, k: Word)
    requires Zone(lvl2) && Row(i) && Row(k) && Table3(lvl2, i) == Table3(lvl2, k)
    ensures i == k
  {
    Table3Place(lvl2, i);
    Table3Place(lvl2, k);
    hide Table3, Zone, Row, Place;
    Successor(i, k);
  }

  lemma Table3Place(lvl2: Word, i: Word)
    requires Zone(lvl2) && Row(i)
    ensures Place(lvl2, Table3(lvl2, i)).page == i + 1
  {}

  lemma Slot3InTable(lvl2: Word, i: Word, k: Word, l: Word)
    requires Zone(lvl2) && Row(i) && Row(k) && Column(l)
    ensures InTable(Table3(lvl2, i), 512, Slot3(lvl2, k, l)) <==> i == k
  {
    hide Zone, Row, Column, Table3, PageOf, PlaceIn, Below, Entry, IsError, FrameAddress, Aligned;
    Table3IsFrame(lvl2, k);
    EntryFields(Table3(lvl2, k), l);
    ColumnBelow(l);
    if Table3(lvl2, i) == Table3(lvl2, k) {
      TablesDistinct(lvl2, i, k);
    }
  }

  lemma NextEntryInTable(t: Word, j: Word)
    requires Aligned(t) && Column(j)
    ensures InTable(t, j + 1, Entry(t, j)) && !InTable(t, j, Entry(t, j))
  {
    hide Column, PageOf, PlaceIn, Below, Entry, IsError, Aligned;
    EntryFields(t, j);
    BelowNext(j, j);
    NotBelowSelf(j);
  }

  lemma InNextTable(t: Word, j: Word, x: Word)
    requires Column(j) && InTable(t, j + 1, x) && !InTable(t, j, x)
    ensures x == Entry(t, j)
  {
    hide Column, PageOf, PlaceIn, Below, Entry, IsError;
    BelowNext(PlaceIn(x), j);
    EntrySum(x);
  }

  lemma InWiderTable(t: Word, j: Word, x: Word)
    requires Column(j) && InTable(t, j, x)
    ensures InTable(t, j + 1, x)
  {
    hide Column, PageOf, PlaceIn, Below, IsError;
    BelowNext(PlaceIn(x), j);
  }

  lemma InNoTable(t: Word, x: Word)
    ensures !InTable(t, 0, x)
  {
    NoneBelowZero(PlaceIn(x));
    hide PageOf, PlaceIn, Below, IsError;
  }

  /** All aligned addresses of a page are entries of the table that fills it. */
  lemma InWholeTable(t: Word, x: Word)
    ensures InTable(t, 512, x) <==> PageOf(x) == t && !IsError(x)
  {
    PlaceIsColumn(x);
    ColumnBelow(PlaceIn(x));
    hide PageOf, PlaceIn, Below, IsError, Column;
  }

  lemma NoneBelowZero(a: Word)
    ensures !Below(a, 0)
  {}

  /** The first j + 1 entries of a table are the first j and the next one. */
  lemma TableStep(t: Word, j: Word, x: Word)
    requires Aligned(t) && Column(j)
    ensures InTable(t, j + 1, x) <==> InTable(t, j, x) || x == Entry(t, j)
    ensures !InTable(t, 0, x) && !InTable(t, j, Entry(t, j))
  {
    hide Column, InTable, Entry, Aligned;
    InNoTable(t, x);
    NextEntryInTable(t, j);
    if InTable(t, j, x) {
      InWiderTable(t, j, x);
    } else if InTable(t, j + 1, x) {
      InNextTable(t, j, x);
    }
  }

  /** ---------- Entries and pages ---------- */

  /** Entries of different places have different addresses. */
  lemma Distinct(lvl2: Word, i: Word, j: Word, k: Word, l: Word)
    requires Zone(lvl2) && Row(i) && Column(j) && Row(k) && Column(l)
    ensures Slot2(lvl2, k) != Slot3(lvl2, i, j)
    ensures i != k || j != l ==> Slot3(lvl2, k, l) != Slot3(lvl2, i, j)
    ensures i != k ==> Slot2(lvl2, i) != Slot2(lvl2, k)
  {
    hide Slot2, Slot3, Zone, Row, Column, Place, IsError;
    Slot2Place(lvl2, k);
    Slot2Place(lvl2, i);
    Slot3Place(lvl2, i, j);
    Slot3Place(lvl2, k, l);
    Successor(i, k);
  }

  /** In a populated zone the walk goes through the page's own two entries. */
  lemma WalkIs(m: Memory, lvl2: Word, va: Word)
    requires Populated(m, lvl2) && Mappable(va)
    ensures Lvl2Entry(lvl2, va) == Slot2(lvl2, Index2(va)) && !IsError(Slot2(lvl2, Index2(va)))
    ensures Lvl3Entry(m, lvl2, va) ==
            if IsTableEntry(m(Slot2(lvl2, Index2(va)))) then Slot3(lvl2, Index2(va), Index3(va)) else 5
    ensures !IsError(Slot3(lvl2, Index2(va), Index3(va))) && IsError(5)
  {
    assert IsError(5);
    hide Slot2, Slot3, Table3, Zone, Row, Column, Place, IsError, Mappable, Index2, Index3, Lvl2Entry, EntryIn, IsTableEntry, AddressOf;
    Bounds(va);
    FirstEntry(lvl2, va);
    SecondEntry(lvl2, va);
    Slot2Place(lvl2, Index2(va));
    Slot3Place(lvl2, Index2(va), Index3(va));
  }

  /** r is m with one word replaced. */
  ghost predicate Put(m: Memory, r: Memory, a: Word, v: Word) {
    r(a) == v && forall x: Word {:trigger r(x)} :: x != a ==> r(x) == m(x)
  }

  /** Where an entry sends the addresses of its page. */
  function Target(entry: Word, va: Word): (t: Translation) {
    if IsPageEntry(entry) then At(PlusOffset(AddressOf(entry), va)) else Fault
  }

  /** Writing the entry of a page redirects that page and no other. */
  lemma RedirectsOnePage(m: Memory, r: Memory, lvl2: Word, va: Word, entry: Word, v: Word)
    requires Populated(m, lvl2) && Mappable(va) && Mappable(v)
    requires IsTableEntry(m(Slot2(lvl2, Index2(va))))
    requires Put(m, r, Slot3(lvl2, Index2(va), Index3(va)), entry)
    ensures Translate(r, lvl2, v) == if SamePage(va, v) then Target(entry, v) else Translate(m, lvl2, v)
    ensures Populated(r, lvl2)
  {
    hide Slot2, Slot3, Table3, Zone, Row, Column, Place, IsError, Mappable, Index2, Index3, Lvl2Entry, EntryIn, Lvl3Entry;
    hide IsTableEntry, AddressOf, IsPageEntry, PlusOffset;
    Bounds(va);
    Bounds(v);
    forall k: Word | Row(k) ensures r(Slot2(lvl2, k)) == m(Slot2(lvl2, k)) {
      Distinct(lvl2, Index2(va), Index3(va), k, Index3(v));
    }
    WalkIs(m, lvl2, v);
    WalkIs(r, lvl2, v);
    Distinct(lvl2, Index2(va), Index3(va), Index2(v), Index3(v));
  }

  /** The word at x after init_new_lvl3_table on the level-2 entry at e has invalidated n entries. */
  function AfterInit(m: Memory, e: Word, n: Word, x: Word): (w: Word) {
    var v := if x == e then Identified(m(x)) else m(x);
    if InTable(AddressOf(m(e)), n, x) then Invalidated(v) else v
  }

  ghost predicate Revalidated(m: Memory, r: Memory, e: Word, n: Word) {
    forall x: Word {:trigger r(x)} :: r(x) == AfterInit(m, e, n, x)
  }

  /** On the entry of row i it identifies that entry, invalidates its row and leaves all others. */
  lemma RevalidatedEntries(m: Memory, r: Memory, lvl2: Word, i: Word, k: Word, l: Word)
    requires Populated(m, lvl2) && Row(i) && Revalidated(m, r, Slot2(lvl2, i), 512) && Row(k) && Column(l)
    ensures var w := m(Slot2(lvl2, k)); r(Slot2(lvl2, k)) == if k == i then Identified(w) else w
    ensures var w := m(Slot3(lvl2, k, l)); r(Slot3(lvl2, k, l)) == if k == i then Invalidated(w) else w
  {
    hide Slot2, Slot3, Table3, Zone, Row, Column, AddressOf, InTable, Identified, Invalidated;
    Slot2NotInTable(lvl2, i, k, 512);
    Slot3InTable(lvl2, i, k, l);
    Distinct(lvl2, i, l, k, l);
    Distinct(lvl2, k, l, i, l);
  }

  /** Re-validating a table of stale entries makes no page valid and changes no target. */
  lemma RevalidationIsSilent(m: Memory, r: Memory, lvl2: Word, i: Word, v: Word)
    requires Populated(m, lvl2) && Row(i) && !IsTableEntry(m(Slot2(lvl2, i))) && Revalidated(m, r, Slot2(lvl2, i), 512)
    requires Mappable(v)
    ensures Translate(r, lvl2, v) == Translate(m, lvl2, v)
    ensures Populated(r, lvl2) && IsTableEntry(r(Slot2(lvl2, i)))
  {
    hide Slot2, Slot3, Table3, Zone, Row, Column, Place, IsError, Mappable, Index2, Index3, Lvl2Entry, EntryIn, Lvl3Entry;
    hide IsTableEntry, AddressOf, IsPageEntry, PlusOffset, Identified, Invalidated, Revalidated;
    Bounds(v);
    IdentifierKeepsAddress(m(Slot2(lvl2, i)));
    forall k: Word | Row(k) ensures AddressOf(r(Slot2(lvl2, k))) == AddressOf(m(Slot2(lvl2, k))) {
      RevalidatedEntries(m, r, lvl2, i, k, Index3(v));
    }
    RevalidatedEntries(m, r, lvl2, i, i, Index3(v));
    RevalidatedEntries(m, r, lvl2, i, Index2(v), Index3(v));
    WalkIs(m, lvl2, v);
    WalkIs(r, lvl2, v);
    IdentifierKeepsAddress(m(Slot3(lvl2, Index2(v), Index3(v))));
  }

  lemma RevalidateStart(m: Memory, r: Memory, e: Word)
    requires Put(m, r, e, Identified(m(e)))
    ensures Revalidated(m, r, e, 0)
  {
    hide InTable, Identified, Invalidated, AddressOf;
    forall x: Word ensures !InTable(AddressOf(m(e)), 0, x) {
      InNoTable(AddressOf(m(e)), x);
    }
  }

  lemma RevalidateStep(m: Memory, n: Memory, r: Memory, e: Word, j: Word)
    requires Column(j) && Revalidated(m, n, e, j)
    requires var a := Entry(AddressOf(m(e)), j); Put(n, r, a, Invalidated(n(a)))
    ensures Revalidated(m, r, e, j + 1)
  {
    hide Column, InTable, Identified, Invalidated, AddressOf, Entry, Aligned;
    var t := AddressOf(m(e));
    AddressIsAligned(m(e));
    forall x: Word ensures r(x) == AfterInit(m, e, j + 1, x) {
      TableStep(t, j, x);
    }
  }

  /** The table that init_new_lvl3_table works on stays the same. */
  lemma RevalidateAddress(m: Memory, n: Memory, e: Word, j: Word)
    requires Revalidated(m, n, e, j)
    ensures AddressOf(n(e)) == AddressOf(m(e))
  {
    hide InTable, Identified, Invalidated, AddressOf;
    IdentifierKeepsAddress(m(e));
    IdentifierKeepsAddress(Identified(m(e)));
  }

  /** r is m after populate_lvl2_table has written n level-2 entries. */
  ghost predicate PopulatedTo(m: Memory, r: Memory, lvl2: Word, n: Word) {
    && (forall k: Word {:trigger Slot2(lvl2, k)} :: Below(k, n) ==>
          IsTableEntry(r(Slot2(lvl2, k))) && AddressOf(r(Slot2(lvl2, k))) == Table3(lvl2, k))
    && (forall x: Word {:trigger r(x)} :: PageOf(x) != lvl2 ==> r(x) == m(x))
    && r(Slot2(lvl2, 511)) == m(Slot2(lvl2, 511))
  }

  lemma LastSlotApart(lvl2: Word, i: Word)
    requires Row(i)
    ensures Slot2(lvl2, i) != Slot2(lvl2, 511)
  {}

  lemma Slot2Page(lvl2: Word, i: Word)
    requires Zone(lvl2) && Row(i)
    ensures PageOf(Slot2(lvl2, i)) == lvl2 && Column(i)
  {}

  lemma RowBelow(k: Word, n: Word)
    requires Row(n) && Below(k, n)
    ensures Row(k) && k != n
  {}

  lemma PopulateStep(m: Memory, n: Memory, r: Memory, lvl2: Word, i: Word)
    requires Zone(lvl2) && Row(i) && PopulatedTo(m, n, lvl2, i)
    requires Put(n, r, Slot2(lvl2, i), WithTableAttributes(WithAddress(n(Slot2(lvl2, i)), Table3(lvl2, i))))
    ensures PopulatedTo(m, r, lvl2, i + 1)
  {
    hide Slot2, Zone, Row, Column, Table3, AddressOf, IsTableEntry, WithTableAttributes, WithAddress, Below, PageOf, FrameAddress;
    Table3IsFrame(lvl2, i);
    TableEntryReadsBack(n(Slot2(lvl2, i)), Table3(lvl2, i));
    Slot2Page(lvl2, i);
    LastSlotApart(lvl2, i);
    forall k: Word | Below(k, i + 1)
      ensures IsTableEntry(r(Slot2(lvl2, k))) && AddressOf(r(Slot2(lvl2, k))) == Table3(lvl2, k)
    {
      BelowNext(k, i);
      if k != i {
        RowBelow(k, i);
        Slot2Page(lvl2, k);
        Distinct(lvl2, i, k, k, k);
      }
    }
  }
}
