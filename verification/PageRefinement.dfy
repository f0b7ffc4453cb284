/**
 * The words of a populated zone and the rows they stand for: what bind_address
 * and set_invalid_page do to the words is what the rows' operations do.
 */
module PageRefinement {
  import opened PageDescriptors
  import opened PageWalk
  import opened PageBinding
  import PagingModel
  import PagingRuns
  import MmuTables

  /** block_perm_config with the access flag set. */
  function Config(perm: PagingModel.Perm): (c: Word) {
    match perm
    case KernelPage => 0x10
    case UserPage => 0x11
    case DataPage => 0x19
    case ForkedPage => 0x13
  }

  const NORMAL_WT_NT: Word := 1

  function Attributes(perm: PagingModel.Perm): (ba: PageAttributes) { NewPageAttributes(Config(perm), NORMAL_WT_NT) }

  /** The entry of a page that is bound to the frame at f. */
  function EntryWord(f: Word, perm: PagingModel.Perm): (w: Word) { f | AttributeBits(Attributes(perm)) }

  /** An entry tells its permission, and lets EL0 write exactly if that is of a user or data page. */
  lemma EntryTellsPermission(f: Word, a: PagingModel.Perm, b: PagingModel.Perm)
    requires FrameAddress(f)
    ensures EntryWord(f, a) == EntryWord(f, b) <==> a == b
    ensures PermissionOf(EntryWord(f, a)) == 1 <==> PagingRuns.El0Writable(a)
  {
    if EntryWord(f, a) == EntryWord(f, b) {
      Remain(f, a);
      Remain(f, b);
      hide EntryWord, FrameAddress;
      Permissions(a);
      Permissions(b);
    }
    PermissionRemains(f, a);
    hide *;
  }

  lemma Remain(f: Word, perm: PagingModel.Perm)
    requires FrameAddress(f)
    ensures EntryWord(f, perm) & UpperAndLow == AttributeBits(Attributes(perm))
  {
    AttributeFields(Attributes(perm));
    hide AttributeBits, Attributes, FrameAddress, PermissionOf;
    AttributesRemain(f, AttributeBits(Attributes(perm)));
  }

  lemma PermissionRemains(f: Word, perm: PagingModel.Perm)
    requires FrameAddress(f)
    ensures PermissionOf(EntryWord(f, perm)) == 1 <==> PagingRuns.El0Writable(perm)
  {
    PageEntryReadsBack(f, Attributes(perm));
    PermissionField(perm);
    hide AttributeBits, Attributes, FrameAddress, PermissionOf;
  }

  lemma PermissionField(perm: PagingModel.Perm)
    ensures Attributes(perm).permission & 3 == 1 <==> PagingRuns.El0Writable(perm)
  {}

  lemma AttributesRemain(f: Word, a: Word)
    requires FrameAddress(f) && a & AddressBits == 0
    ensures (f | a) & UpperAndLow == a
  {}

  lemma Permissions(perm: PagingModel.Perm)
    ensures AttributeBits(Attributes(perm)) == match perm
                                               case KernelPage => 0x427
                                               case UserPage => 0xC67
                                               case DataPage => 0x0040_0000_0000_0467
                                               case ForkedPage => 0xCE7
  {}

  /** ---------- Rows, columns and page numbers ---------- */

  function RowNumber(i: Word): (n: nat)
    requires Row(i)
    ensures n < MmuTables.N_LVL3
  {
    i as int
  }

  function ColumnNumber(j: Word): (n: nat)
    requires Column(j)
    ensures n < MmuTables.N_TABLE_ENTRIES
  {
    j as int
  }

  function Numbered(i: nat, j: nat): (p: nat)
    requires i < MmuTables.N_LVL3 && j < MmuTables.N_TABLE_ENTRIES
    ensures p < MmuTables.N_PAGES && p / MmuTables.N_TABLE_ENTRIES == i && p % MmuTables.N_TABLE_ENTRIES == j
  {
    i * MmuTables.N_TABLE_ENTRIES + j
  }

  function PageNumber(i: Word, j: Word): (p: nat)
    requires Row(i) && Column(j)
    ensures p < MmuTables.N_PAGES && p / MmuTables.N_TABLE_ENTRIES == RowNumber(i) && p % MmuTables.N_TABLE_ENTRIES == ColumnNumber(j)
  {
    Numbered(RowNumber(i), ColumnNumber(j))
  }

  lemma SameNumber(a: Word, b: Word)
    requires a as int == b as int
    ensures a == b
  {
    assert (a as int) as Word == a;
  }

  lemma SamePlace(i: Word, j: Word, k: Word, l: Word)
    requires Row(i) && Column(j) && Row(k) && Column(l)
    ensures RowNumber(i) == RowNumber(k) <==> i == k
    ensures PageNumber(i, j) == PageNumber(k, l) <==> i == k && j == l
  {
    if RowNumber(i) == RowNumber(k) {
      SameNumber(i, k);
    }
    if ColumnNumber(j) == ColumnNumber(l) {
      SameNumber(j, l);
    }
    hide Row, Column;
  }

  /** ---------- What words stand for ---------- */

  /** The address at which a frame begins. */
  predicate FrameAt(f: Word, frame: nat) { f as int == frame * PagingModel.GRANULE }

  /** w is valid when e is, and then holds its frame and permission if it is one that the model follows. */
  ghost predicate StandsFor(w: Word, e: MmuTables.Entry, followed: bool) {
    && (IsPageEntry(w) <==> e.valid)
    && (followed && e.valid ==> w == EntryWord(AddressOf(w), e.perm) && FrameAt(AddressOf(w), e.frame))
  }

  ghost predicate RowStands(m: Memory, lvl2: Word, r: MmuTables.Rows, i: Word)
    requires MmuTables.RowsOk(r) && Row(i)
  {
    IsTableEntry(m(Slot2(lvl2, i))) <==> r.valid2[RowNumber(i)]
  }

  ghost predicate PageStands(m: Memory, lvl2: Word, r: MmuTables.Rows, k: nat, i: Word, j: Word)
    requires MmuTables.RowsOk(r) && Row(i) && Column(j)
  {
    var p := PageNumber(i, j);
    StandsFor(m(Slot3(lvl2, i, j)), r.entries[p], MmuTables.User(p, k))
  }

  ghost predicate Represents(m: Memory, lvl2: Word, r: MmuTables.Rows, k: nat) {
    && Populated(m, lvl2) && MmuTables.RowsOk(r)
    && (forall i: Word :: Row(i) ==> RowStands(m, lvl2, r, i))
    && (forall i: Word, j: Word :: Row(i) && Column(j) ==> PageStands(m, lvl2, r, k, i, j))
  }

  /** ---------- Translation ---------- */

  function PageNumberOf(va: Word): (p: nat)
    requires Mappable(va)
    ensures p < MmuTables.N_PAGES
  {
    Bounds(va);
    PageNumber(Index2(va), Index3(va))
  }

  /** The walk over the words finds the mappings of the table that the rows stand for. */
  lemma TranslateRefines(m: Memory, lvl2: Word, r: MmuTables.Rows, k: nat, va: Word)
    requires Represents(m, lvl2, r, k) && Mappable(va) && MmuTables.User(PageNumberOf(va), k)
    ensures var t := MmuTables.TableOf(r, k); var p := PageNumberOf(va); var w := m(Slot3(lvl2, Index2(va), Index3(va)));
            && (p in t <==> Translate(m, lvl2, va) != Fault)
            && (p in t ==>
                  && Translate(m, lvl2, va) == At(PlusOffset(AddressOf(w), va))
                  && FrameAt(AddressOf(w), t[p].frame) && w == EntryWord(AddressOf(w), t[p].perm))
  {
    Bounds(va);
    var i, j := Index2(va), Index3(va);
    hide Mappable, Row, Column, Slot2, Slot3, Index2, Index3, IsTableEntry, IsPageEntry, AddressOf, EntryWord, PlusOffset, Lvl3Entry, FrameAt, Populated;
    WalkIs(m, lvl2, va);
    hide IsError;
    assert RowStands(m, lvl2, r, i) && PageStands(m, lvl2, r, k, i, j);
    RowsTable(r, k, PageNumber(i, j));
    hide MmuTables.TableOf;
  }

  lemma RowsTable(r: MmuTables.Rows, k: nat, p: nat)
    requires MmuTables.RowsOk(r) && p < MmuTables.N_PAGES && MmuTables.User(p, k)
    ensures var t := MmuTables.TableOf(r, k);
            && (p in t <==> r.valid2[p / MmuTables.N_TABLE_ENTRIES] && r.entries[p].valid)
            && (p in t ==> t[p] == PagingModel.Pte(r.entries[p].frame, r.entries[p].perm))
  {
  }

  /** ---------- Bind and unbind ---------- */

  lemma InitRefines(m: Memory, n: Memory, lvl2: Word, r: MmuTables.Rows, k: nat, i: Word)
    requires Represents(m, lvl2, r, k) && Row(i) && Revalidated(m, n, Slot2(lvl2, i), 512) && Populated(n, lvl2)
    ensures Represents(n, lvl2, MmuTables.InitRows(r, RowNumber(i)), k)
  {
    hide Row, Column, Slot2, Slot3, IsTableEntry, IsPageEntry, AddressOf, EntryWord, FrameAt, Populated, Revalidated, Identified, Invalidated, RowNumber, PageNumber;
    var r' := MmuTables.InitRows(r, RowNumber(i));
    forall a: Word | Row(a) ensures RowStands(n, lvl2, r', a) {
      InitRowStands(m, n, lvl2, r, k, i, a);
    }
    forall a: Word, b: Word | Row(a) && Column(b) ensures PageStands(n, lvl2, r', k, a, b) {
      InitPageStands(m, n, lvl2, r, k, i, a, b);
    }
  }

  lemma InitRowStands(m: Memory, n: Memory, lvl2: Word, r: MmuTables.Rows, k: nat, i: Word, a: Word)
    requires Represents(m, lvl2, r, k) && Row(i) && Row(a) && Revalidated(m, n, Slot2(lvl2, i), 512)
    ensures RowStands(n, lvl2, MmuTables.InitRows(r, RowNumber(i)), a)
  {
    hide Row, Column, Slot2, Slot3, IsTableEntry, IsPageEntry, AddressOf, EntryWord, FrameAt, Revalidated, Identified, Invalidated, RowNumber, PageNumber;
    hide Populated, PageStands;
    FirstColumn();
    assert RowStands(m, lvl2, r, a);
    RevalidatedEntries(m, n, lvl2, i, a, 0);
    SamePlace(i, 0, a, 0);
    IdentifierKeepsAddress(m(Slot2(lvl2, a)));
  }

  lemma FirstColumn()
    ensures Column(0)
  {}

  lemma InitPageStands(m: Memory, n: Memory, lvl2: Word, r: MmuTables.Rows, k: nat, i: Word, a: Word, b: Word)
    requires Represents(m, lvl2, r, k) && Row(i) && Row(a) && Column(b) && Revalidated(m, n, Slot2(lvl2, i), 512)
    ensures PageStands(n, lvl2, MmuTables.InitRows(r, RowNumber(i)), k, a, b)
  {
    hide Row, Column, Slot2, Slot3, IsTableEntry, IsPageEntry, AddressOf, EntryWord, FrameAt, Revalidated, Identified, Invalidated, RowNumber, PageNumber;
    assert PageStands(m, lvl2, r, k, a, b);
    RevalidatedEntries(m, n, lvl2, i, a, b);
    SamePlace(i, b, a, b);
    IdentifierKeepsAddress(m(Slot3(lvl2, a, b)));
  }

  /** Storing a word in the entry of a page is storing in its place of the rows what the word stands for. */
  lemma StoreRefines(m: Memory, n: Memory, lvl2: Word, r: MmuTables.Rows, k: nat, i: Word, j: Word, w: Word, e: MmuTables.Entry)
    requires Represents(m, lvl2, r, k) && Row(i) && Column(j) && Put(m, n, Slot3(lvl2, i, j), w) && Populated(n, lvl2)
    requires e.frame < PagingModel.N_FRAMES && StandsFor(w, e, MmuTables.User(PageNumber(i, j), k))
    ensures Represents(n, lvl2, r.(entries := r.entries[PageNumber(i, j) := e]), k)
  {
    hide Row, Column, Slot2, Slot3, StandsFor, IsTableEntry, Populated, RowNumber, PageNumber;
    var r' := r.(entries := r.entries[PageNumber(i, j) := e]);
    forall a: Word | Row(a) ensures RowStands(n, lvl2, r', a) {
      assert RowStands(m, lvl2, r, a);
      PopulatedZone(m, lvl2);
      Distinct(lvl2, i, j, a, j);
    }
    forall a: Word, b: Word | Row(a) && Column(b) ensures PageStands(n, lvl2, r', k, a, b) {
      assert PageStands(m, lvl2, r, k, a, b);
      PopulatedZone(m, lvl2);
      Distinct(lvl2, i, j, a, b);
      SamePlace(i, j, a, b);
    }
  }

  lemma PopulatedZone(m: Memory, lvl2: Word)
    requires Populated(m, lvl2)
    ensures Zone(lvl2)
  {
    hide Zone, AddressOf, Table3;
  }

  lemma NewEntryStands(f: Word, frame: nat, perm: PagingModel.Perm, followed: bool)
    requires FrameAddress(f) && FrameAt(f, frame)
    ensures StandsFor(EntryWord(f, perm), MmuTables.Entry(true, frame, perm), followed)
  {
    hide FrameAddress, FrameAt, EntryWord, IsPageEntry, AddressOf;
    EntryReadsBack(f, perm);
  }

  lemma EntryReadsBack(f: Word, perm: PagingModel.Perm)
    requires FrameAddress(f)
    ensures IsPageEntry(EntryWord(f, perm)) && AddressOf(EntryWord(f, perm)) == f
  {
    hide FrameAddress, AttributeBits, Attributes, IsPageEntry, AddressOf, PermissionOf;
    PageEntryReadsBack(f, Attributes(perm));
  }

  /** bind_address on the words is BindRows on the rows. */
  lemma BindRefines(m: Memory, n: Memory, lvl2: Word, r: MmuTables.Rows, k: nat, va: Word, f: Word, frame: nat, perm: PagingModel.Perm)
    requires Represents(m, lvl2, r, k) && Mappable(va) && FrameAddress(f) && FrameAt(f, frame) && frame < PagingModel.N_FRAMES
    requires Binds(m, n, lvl2, va, EntryWord(f, perm))
    ensures Represents(n, lvl2, MmuTables.BindRows(r, PageNumberOf(va), MmuTables.Entry(true, frame, perm)), k)
  {
    var ba := Attributes(perm);
    hide Attributes, AttributeBits, FrameAt, FrameAddress, Mappable, Row, Column, Slot2, Slot3, Index2, Index3, IsTableEntry, StandsFor;
    hide Populated, Written, Through, AfterInit, Bound, SameOutside;
    Bounds(va);
    var i, j, w, e := Index2(va), Index3(va), EntryWord(f, perm), MmuTables.Entry(true, frame, perm);
    NewEntryStands(f, frame, perm, MmuTables.User(PageNumber(i, j), k));
    WrittenIs(m, lvl2, va);
    BindsPopulated(m, n, lvl2, va, f, ba);
    assert RowStands(m, lvl2, r, i);
    if IsTableEntry(m(Slot2(lvl2, i))) {
      StoreRefines(m, n, lvl2, r, k, i, j, w, e);
    } else {
      var a: Memory := x => AfterInit(m, Slot2(lvl2, i), 512, x);
      RevalidateDone(m, a, lvl2, va);
      InitRefines(m, a, lvl2, r, k, i);
      StoreRefines(a, n, lvl2, MmuTables.InitRows(r, RowNumber(i)), k, i, j, w, e);
    }
  }

  /** set_invalid_page on the words is UnbindRows on the rows. */
  lemma UnbindRefines(m: Memory, n: Memory, lvl2: Word, r: MmuTables.Rows, k: nat, va: Word)
    requires Represents(m, lvl2, r, k) && Mappable(va) && Populated(n, lvl2)
    requires var a := Slot3(lvl2, Index2(va), Index3(va)); Put(m, n, a, Invalidated(m(a)))
    ensures Represents(n, lvl2, MmuTables.UnbindRows(r, PageNumberOf(va)), k)
  {
    Bounds(va);
    var i, j := Index2(va), Index3(va);
    hide Mappable, Row, Column, Slot2, Slot3, Index2, Index3, IsTableEntry, IsPageEntry, AddressOf, EntryWord, FrameAt, Populated, Invalidated;
    IdentifierKeepsAddress(m(Slot3(lvl2, i, j)));
    StoreRefines(m, n, lvl2, r, k, i, j, Invalidated(m(Slot3(lvl2, i, j))), r.entries[PageNumber(i, j)].(valid := false));
  }
}
