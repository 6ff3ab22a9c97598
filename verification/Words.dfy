/** 64-bit words, page-table entries and the radix-512 path of a virtual address (paging.h, paging.c). */
module Words {
  const PAGE_SIZE: nat := 0x1000
  const WORD_LIMIT: nat := 0x1_0000_0000_0000_0000
  const PHYSICAL_LIMIT: nat := 0x10_0000_0000_0000
  const PAGE_COUNT: nat := 0x10_0000_0000        // pages told apart by bits 12..47
  const LOWER_HALF: nat := 0x8_0000_0000         // pages whose top-level index is below 256

  type Word = w: int | 0 <= w < WORD_LIMIT
  type Index = i: int | 0 <= i < 512

  predicate Present(w: Word) {
    w % 2 == 1
  }

  predicate UserFlag(w: Word) {
    w / 4 % 2 == 1
  }

  /** w & ENTRY_4K_ADDRESS_MASK: bits 12..51. */
  function AddressBits(w: Word): nat {
    w / 0x1000 % 0x100_0000_0000 * 0x1000
  }

  /** A physical address that a table entry can hold: page aligned, non-zero, below 2^52. */
  predicate IsFrameAddress(p: int) {
    0 < p < PHYSICAL_LIMIT && p % PAGE_SIZE == 0
  }

  /** Flags a caller may pass: no bit inside the address field. */
  predicate CleanFlags(flags: Word) {
    AddressBits(flags) == 0
  }

  /** ENTRY_FLAG_PRESENT | flags. */
  function WithPresent(flags: Word): Word {
    if Present(flags) then flags else flags + 1
  }

  /** PRESENT | RW, and USER when the caller's flags have it, over the frame address. */
  function TableEntry(frame: Word, flags: Word): (w: Word)
    ensures Present(w) && AddressBits(w) == AddressBits(frame)
    ensures w < PHYSICAL_LIMIT
  {
    AddressBits(frame) + 3 + (if UserFlag(flags) then 4 else 0)
  }

  /** ENTRY_FLAG_PRESENT | (paddr & MASK) | flags; the three fields do not overlap. */
  function LeafEntry(paddr: Word, flags: Word): (w: Word)
    requires CleanFlags(flags)
    ensures Present(w) && AddressBits(w) == AddressBits(paddr)
    ensures w - AddressBits(w) == WithPresent(flags)
  {
    SetPresentIsClean(flags);
    FieldsDoNotOverlap(paddr / 0x1000 % 0x100_0000_0000, WithPresent(flags));
    AddressBits(paddr) + WithPresent(flags)
  }

  lemma SetPresentIsClean(flags: Word)
    requires CleanFlags(flags)
    ensures CleanFlags(WithPresent(flags))
  {
    if !Present(flags) {
      assert (flags + 1) / 0x1000 == flags / 0x1000;
    }
  }

  /** The upper bits of clean flags stand above the address field. */
  lemma ClearAddressBound(upper: nat)
    requires upper < 0x10_0000_0000_0000 && upper % 0x100_0000_0000 == 0
    ensures upper <= 0x10_0000_0000_0000 - 0x100_0000_0000
  {
  }

  lemma AddUpper(field: nat, upper: nat)
    requires field < 0x100_0000_0000 && upper % 0x100_0000_0000 == 0
    ensures (field + upper) % 0x100_0000_0000 == field
  {
    var k := upper / 0x100_0000_0000;
    assert field + upper == k * 0x100_0000_0000 + field;
  }

  lemma AddField(field: nat, flags: nat)
    ensures (field * 0x1000 + flags) / 0x1000 == field + flags / 0x1000
    ensures (field * 0x1000 + flags) % 2 == flags % 2
  {
  }

  lemma FieldsDoNotOverlap(field: nat, flags: Word)
    requires field < 0x100_0000_0000 && CleanFlags(flags)
    ensures field * 0x1000 + flags < WORD_LIMIT
    ensures AddressBits(field * 0x1000 + flags) == field * 0x1000
    ensures Present(field * 0x1000 + flags) == Present(flags)
  {
    AddField(field, flags);
    ClearAddressBound(flags / 0x1000);
    AddUpper(field, flags / 0x1000);
  }

  lemma FrameAddressBits(p: int)
    requires IsFrameAddress(p)
    ensures p < WORD_LIMIT && AddressBits(p) == p
  {
  }

  /** The four 9-bit table indices of a virtual address, VADDR_TO_INDEX for levels 4 down to 1. */
  datatype Path = Path(l4: Index, l3: Index, l2: Index, l1: Index) {
    function At(level: nat): Index
      requires 1 <= level <= 4
    {
      if level == 4 then l4 else if level == 3 then l3 else if level == 2 then l2 else l1
    }
  }

  /** The level-th group of nine bits of a page number, counted from the low end. */
  function Digit(page: nat, level: nat): Index {
    if level <= 1 then page % 512 else Digit(page / 512, level - 1)
  }

  function PathOf(vaddr: Word): Path {
    Path(Digit(vaddr / 0x1000, 4), Digit(vaddr / 0x1000, 3), Digit(vaddr / 0x1000, 2), Digit(vaddr / 0x1000, 1))
  }

  /** Bits 12..47 of an address. */
  function PageOf(vaddr: Word): (page: nat)
    ensures page < PAGE_COUNT
  {
    vaddr / 0x1000 % PAGE_COUNT
  }

  /** Bits 12..47 and nothing else select the path; bit 47 is the top half of the top-level table. */
  lemma PathIsPage(u: Word, v: Word)
    ensures PathOf(u) == PathOf(v) <==> PageOf(u) == PageOf(v)
    ensures PageOf(u) < LOWER_HALF <==> PathOf(u).l4 < 256
  {
    PathDigits(u);
    PathDigits(v);
  }

  lemma DigitsOf(page: nat)
    ensures Digit(page, 1) == page % 512 && Digit(page, 2) == page / 512 % 512
    ensures Digit(page, 3) == page / 512 / 512 % 512 && Digit(page, 4) == page / 512 / 512 / 512 % 512
  {
    var d1, d2 := page / 512, page / 512 / 512;
    assert Digit(page, 3) == Digit(d1, 2) == Digit(d2, 1);
    assert Digit(page, 4) == Digit(d1, 3) == Digit(d2, 2) == Digit(d2 / 512, 1);
  }

  /** A number and its parts in base 512. */
  lemma Base512(page: nat)
    ensures var d1, d2, d3 := page / 512, page / 512 / 512, page / 512 / 512 / 512;
            page == d3 / 512 * PAGE_COUNT + (((d3 % 512 * 512 + d2 % 512) * 512 + d1 % 512) * 512 + page % 512)
  {
  }

  lemma PathDigits(v: Word)
    ensures var p := PathOf(v);
            PageOf(v) == ((p.l4 * 512 + p.l3) * 512 + p.l2) * 512 + p.l1
  {
    hide Digit;
    var page := v / 0x1000;
    var d1, d2, d3 := page / 512, page / 512 / 512, page / 512 / 512 / 512;
    DigitsOf(page);
    Base512(page);
    ModMultiple(((d3 % 512 * 512 + d2 % 512) * 512 + d1 % 512) * 512 + page % 512, d3 / 512);
  }

  /** vaddr + i * 0x1000 in 64-bit arithmetic. */
  function PageStep(vaddr: Word, i: nat): Word {
    (vaddr + i * PAGE_SIZE) % WORD_LIMIT
  }

  lemma PageOfStep(vaddr: Word, i: nat)
    ensures PageOf(PageStep(vaddr, i)) == (PageOf(vaddr) + i) % PAGE_COUNT
  {
    var q := vaddr / 0x1000;
    var r := vaddr % 0x1000;
    var k := (vaddr + i * PAGE_SIZE) / WORD_LIMIT;
    assert vaddr + i * PAGE_SIZE == (q + i) * 0x1000 + r;
    assert PageStep(vaddr, i) == (q + i - k * 0x10_0000_0000_0000) * 0x1000 + r;
    assert PageStep(vaddr, i) / 0x1000 == q + i - k * 0x10_0000_0000_0000;
    assert (q + i - k * 0x10_0000_0000_0000) == (q + i) - (k * 0x1_0000) * PAGE_COUNT;
    ModMultiple(q + i, k * 0x1_0000);
    ModMultiple(q % PAGE_COUNT + i, q / PAGE_COUNT);
  }

  lemma ModMultiple(x: int, k: int)
    ensures (x - k * PAGE_COUNT) % PAGE_COUNT == x % PAGE_COUNT == (x + k * PAGE_COUNT) % PAGE_COUNT
  {
  }
}
