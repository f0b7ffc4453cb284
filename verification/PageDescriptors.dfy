/**
 * The descriptors of the two-level page tables as 64-bit words
 * (src/memory/mmu.c:18-150): table and page entries of the VMSAv8-64
 * translation table format.
 */
module PageDescriptors {
  type Word = bv64

  const LowBits: Word := 0xFFF                      // MASK(11, 0)
  const AddressBits: Word := 0x0000_FFFF_FFFF_F000  // MASK(47, 12)
  const UpperAndLow: Word := 0xFFFF_0000_0000_0FFF  // MASK(63, 48) | MASK(11, 0)
  const InnerBits: Word := 0xF_FFFF_FFFF            // MASK(35, 0)
  const BelowTableAttrs: Word := 0x07FF_FFFF_FFFF_FFFF // MASK(58, 0)
  const AllButValid: Word := 0xFFFF_FFFF_FFFF_FFFE  // MASK(63, 1)

  /** block_attributes_sg1, one word per field. */
  datatype PageAttributes = PageAttributes(
    uxn: Word, pxn: Word, contiguous: Word, dirty: Word, notGlobal: Word,
    accessFlag: Word, shareability: Word, permission: Word, nonSecure: Word, attrIndex: Word)

  /** new_block_attributes_sg1. */
  function NewPageAttributes(perm: Word, cache: Word): (ba: PageAttributes) {
    PageAttributes(
      (perm >> 3) & 1, (perm >> 2) & 1, 0, 0,
      if perm & 0xF == 0 || perm & 0xF == 9 then 0 else 1,
      (perm >> 4) & 1, 0, perm & 3, 1, cache)
  }

  /** init_block_and_page_entry_sg1 before it sets the attributes, and init_table_entry_sg1 likewise. */
  function WithAddress(entry: Word, inner: Word): (r: Word) {
    (entry & UpperAndLow) | (inner & InnerBits)
  }

  function AttributeBits(ba: PageAttributes): (r: Word) {
    ((ba.uxn & 1) << 54) | ((ba.pxn & 1) << 53) | ((ba.contiguous & 1) << 52) | ((ba.dirty & 1) << 51)
    | ((ba.notGlobal & 1) << 11) | ((ba.accessFlag & 1) << 10) | ((ba.shareability & 3) << 8)
    | ((ba.permission & 3) << 6) | ((ba.nonSecure & 1) << 5) | ((ba.attrIndex & 1) << 2) | 3
  }

  /** set_block_and_page_attributes_sg1. */
  function WithPageAttributes(entry: Word, ba: PageAttributes): (r: Word) {
    (entry & AddressBits) | AttributeBits(ba)
  }

  /** set_table_attributes_sg1 with the attributes of new_table_attributes_sg1. */
  function WithTableAttributes(entry: Word): (r: Word) {
    (entry & BelowTableAttrs) | 0x8000_0000_0000_0000 | 3
  }

  function Invalidated(entry: Word): (r: Word) { entry & AllButValid }

  function Identified(entry: Word): (r: Word) { entry | 3 }

  /** get_address_sg1. */
  function AddressOf(entry: Word): (r: Word) { entry & AddressBits }

  predicate IsTableEntry(entry: Word) { entry & 3 == 3 }

  predicate IsPageEntry(entry: Word) { entry & 3 == 3 }

  function PermissionOf(entry: Word): (r: Word) { (entry >> 6) & 3 }

  /** What can be a frame: page-aligned and below 2^36. */
  predicate FrameAddress(pa: Word) { pa & LowBits == 0 && pa <= InnerBits }

  /** The part of an address that an entry keeps. */
  function Cut(pa: Word): (r: Word) { pa & InnerBits }

  lemma CutIsFrame(pa: Word)
    requires pa & LowBits == 0
    ensures FrameAddress(Cut(pa)) && (Cut(pa) == pa <==> FrameAddress(pa))
  {}

  /** A page entry depends only on its frame and attributes, whatever the entry held before. */
  lemma PageEntryIs(entry: Word, pa: Word, ba: PageAttributes)
    requires pa & LowBits == 0
    ensures WithPageAttributes(WithAddress(entry, pa), ba) == Cut(pa) | AttributeBits(ba)
  {
    AddressBitsOf(entry, pa);
    hide AttributeBits, WithAddress, Cut;
  }

  /** It is valid, and its frame and permission read back. */
  lemma PageEntryReadsBack(pa: Word, ba: PageAttributes)
    requires FrameAddress(pa)
    ensures IsPageEntry(pa | AttributeBits(ba)) && AddressOf(pa | AttributeBits(ba)) == pa
    ensures PermissionOf(pa | AttributeBits(ba)) == ba.permission & 3
  {
    AttributeFields(ba);
    JoinAddress(pa, AttributeBits(ba));
  }

  lemma AddressBitsOf(entry: Word, pa: Word)
    requires pa & LowBits == 0
    ensures WithAddress(entry, pa) & AddressBits == Cut(pa)
  {}

  lemma JoinAddress(pa: Word, a: Word)
    requires FrameAddress(pa) && a & AddressBits == 0
    ensures (pa | a) & AddressBits == pa
    ensures (pa | a) & LowBits == a & LowBits
    ensures PermissionOf(pa | a) == PermissionOf(a)
    ensures (pa | a) & 3 == a & 3
  {}

  lemma AttributeFields(ba: PageAttributes)
    ensures AttributeBits(ba) & AddressBits == 0 && AttributeBits(ba) & 3 == 3
    ensures PermissionOf(AttributeBits(ba)) == ba.permission & 3
  {}

  /** A table entry of a frame below 2^36 reads back, whatever the entry held before. */
  lemma TableEntryReadsBack(entry: Word, table: Word)
    requires FrameAddress(table)
    ensures var r := WithTableAttributes(WithAddress(entry, table));
            IsTableEntry(r) && AddressOf(r) == table
  {}

  lemma IdentifiedAddress(entry: Word)
    ensures AddressOf(Identified(entry)) == AddressOf(entry)
  {}

  lemma IdentifiedIsTable(entry: Word)
    ensures IsTableEntry(Identified(entry))
  {}

  lemma InvalidatedAddress(entry: Word)
    ensures AddressOf(Invalidated(entry)) == AddressOf(entry)
  {}

  lemma InvalidatedIsNoPage(entry: Word)
    ensures !IsPageEntry(Invalidated(entry))
  {}

  /** Invalidating and identifying an entry keeps the address it holds. */
  lemma IdentifierKeepsAddress(entry: Word)
    ensures AddressOf(Identified(entry)) == AddressOf(entry) && IsTableEntry(Identified(entry))
    ensures AddressOf(Invalidated(entry)) == AddressOf(entry) && !IsPageEntry(Invalidated(entry))
  {
    hide AddressOf, Identified, Invalidated, IsTableEntry, IsPageEntry;
    IdentifiedAddress(entry);
    IdentifiedIsTable(entry);
    InvalidatedAddress(entry);
    InvalidatedIsNoPage(entry);
  }

  function Bit(w: Word, n: nat): (b: Word)
    requires n < 64
  {
    (w >> n) & 1
  }

  /**
   * The fields of the entry of a page, by their places in the descriptor format:
   * execute-never, not-global, access flag, shareability, permission, non-secure
   * and descriptor type, as the permission configuration asks for them.
   */
  lemma PageEntryFields(pa: Word, perm: Word, cache: Word)
    requires FrameAddress(pa)
    ensures var w := pa | AttributeBits(NewPageAttributes(perm, cache));
            && Bit(w, 54) == Bit(perm, 3) && Bit(w, 53) == Bit(perm, 2) && Bit(w, 52) == 0 && Bit(w, 51) == 0
            && (Bit(w, 11) == 0 <==> perm & 0xF == 0 || perm & 0xF == 9) && Bit(w, 10) == Bit(perm, 4)
            && (w >> 8) & 3 == 0 && (w >> 6) & 3 == perm & 3 && Bit(w, 5) == 1 && w & 3 == 3
  {
    FieldsOf(perm, cache);
    hide AttributeBits, NewPageAttributes, FrameAddress, Bit;
    FieldsStay(pa, AttributeBits(NewPageAttributes(perm, cache)));
  }

  lemma FieldsOf(perm: Word, cache: Word)
    ensures var w := AttributeBits(NewPageAttributes(perm, cache));
            && Bit(w, 54) == Bit(perm, 3) && Bit(w, 53) == Bit(perm, 2) && Bit(w, 52) == 0 && Bit(w, 51) == 0
            && (Bit(w, 11) == 0 <==> perm & 0xF == 0 || perm & 0xF == 9) && Bit(w, 10) == Bit(perm, 4)
            && (w >> 8) & 3 == 0 && (w >> 6) & 3 == perm & 3 && Bit(w, 5) == 1 && w & 3 == 3
  {}

  lemma FieldsStay(pa: Word, a: Word)
    requires FrameAddress(pa)
    ensures var w := pa | a;
            && Bit(w, 54) == Bit(a, 54) && Bit(w, 53) == Bit(a, 53) && Bit(w, 52) == Bit(a, 52) && Bit(w, 51) == Bit(a, 51)
            && Bit(w, 11) == Bit(a, 11) && Bit(w, 10) == Bit(a, 10) && (w >> 8) & 3 == (a >> 8) & 3
            && (w >> 6) & 3 == (a >> 6) & 3 && Bit(w, 5) == Bit(a, 5) && w & 3 == a & 3
  {}

  /** The attributes of a table entry: non-secure, and no limit on the entries below it. */
  lemma TableEntryFields(entry: Word)
    ensures var w := WithTableAttributes(entry);
            Bit(w, 63) == 1 && (w >> 61) & 3 == 0 && Bit(w, 60) == 0 && Bit(w, 59) == 0 && w & 3 == 3
  {}

  /** The cache configuration that the three-bit attribute index of an entry selects. */
  function AttrIndexOf(entry: Word): (r: Word) { (entry >> 2) & 7 }

  /** Only the lowest bit of the cache configuration reaches the entry: it survives exactly below 2. */
  lemma CacheConfigurationSurvives(entry: Word, pa: Word, perm: Word, cache: Word)
    requires pa & LowBits == 0
    ensures AttrIndexOf(WithPageAttributes(WithAddress(entry, pa), NewPageAttributes(perm, cache))) == cache <==> cache < 2
  {
    var ba := NewPageAttributes(perm, cache);
    assert ba.attrIndex == cache;
    CutIsFrame(pa);
    hide NewPageAttributes, AttributeBits, WithPageAttributes, WithAddress, AttrIndexOf, FrameAddress, Cut;
    PageEntryIs(entry, pa, ba);
    AttrIndexField(Cut(pa), ba);
    LowestBit(cache);
  }

  lemma LowestBit(w: Word)
    ensures w & 1 == w <==> w < 2
  {}

  lemma AttrIndexField(pa: Word, ba: PageAttributes)
    requires FrameAddress(pa)
    ensures AttrIndexOf(pa | AttributeBits(ba)) == ba.attrIndex & 1
  {}
}
