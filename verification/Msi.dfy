/** Message-signalled interrupts: the flat MSI page table (src/page_tables.c:291-331), the memory-resident
    interrupt file (src/page_tables.c:336-350), and how the IOMMU reads them (section 2.3.3 of the RISC-V IOMMU
    specification 1.0; chapter "IOMMU Support for MSIs to Virtual Machines" of the RISC-V AIA). */
module Msi {
  import opened Bits
  import opened PageWalk

  // ---------------------------------------------------------------------------------------------
  // Interrupt file numbers.

  /** The bits of `x` under the ones of `mask`, packed to the right. */
  function Extract(x: nat, mask: nat): nat {
    if mask == 0 then 0
    else if mask % 2 == 1 then 2 * Extract(x / 2, mask / 2) + x % 2
    else Extract(x / 2, mask / 2)
  }

  function PopCount(mask: nat): nat {
    if mask == 0 then 0 else PopCount(mask / 2) + mask % 2
  }

  /** The page number addresses an interrupt file: outside the mask it equals the pattern. */
  predicate Matches(x: nat, mask: nat, pattern: nat) {
    AndNot(x, mask) == AndNot(pattern, mask)
  }

  /** Spread the low bits of `i` over the ones of `mask`, and fill up from `pattern`. */
  function Deposit(i: nat, mask: nat, pattern: nat): nat
    decreases mask
  {
    if mask == 0 then pattern
    else if mask % 2 == 1 then 2 * Deposit(i / 2, mask / 2, pattern / 2) + i % 2
    else 2 * Deposit(i, mask / 2, pattern / 2) + pattern % 2
  }

  lemma {:induction false} ExtractBound(x: nat, mask: nat)
    ensures Extract(x, mask) < Pow2(PopCount(mask))
  {
    if mask != 0 {
      ExtractBound(x / 2, mask / 2);
    }
  }

  lemma {:induction false} DepositExtract(x: nat, mask: nat, pattern: nat)
    requires Matches(x, mask, pattern)
    ensures Deposit(Extract(x, mask), mask, pattern) == x
    decreases mask
  {
    if mask == 0 {
      AndNotZero(x);
      AndNotZero(pattern);
    } else {
      AndNotHalf(x, mask);
      AndNotHalf(pattern, mask);
      DepositExtract(x / 2, mask / 2, pattern / 2);
    }
  }

  lemma {:induction false} ExtractDeposit(i: nat, mask: nat, pattern: nat)
    requires i < Pow2(PopCount(mask))
    ensures Matches(Deposit(i, mask, pattern), mask, pattern)
    ensures Extract(Deposit(i, mask, pattern), mask) == i
    decreases mask
  {
    if mask != 0 {
      var x := Deposit(i, mask, pattern);
      ExtractDeposit(if mask % 2 == 1 then i / 2 else i, mask / 2, pattern / 2);
      AndNotHalf(x, mask);
      AndNotHalf(pattern, mask);
    }
  }

  /** For every mask and pattern, extraction is a bijection from the matching page numbers onto
      [0, 2^popcount(mask)), with Deposit as its inverse. */
  lemma ExtractBijection(mask: nat, pattern: nat)
    ensures forall x | Matches(x, mask, pattern) ::
      Extract(x, mask) < Pow2(PopCount(mask)) && Deposit(Extract(x, mask), mask, pattern) == x
    ensures forall i: nat | i < Pow2(PopCount(mask)) ::
      Matches(Deposit(i, mask, pattern), mask, pattern) && Extract(Deposit(i, mask, pattern), mask) == i
  {
    forall x | Matches(x, mask, pattern)
      ensures Extract(x, mask) < Pow2(PopCount(mask)) && Deposit(Extract(x, mask), mask, pattern) == x
    {
      ExtractBound(x, mask);
      DepositExtract(x, mask, pattern);
    }
    forall i: nat | i < Pow2(PopCount(mask))
      ensures Matches(Deposit(i, mask, pattern), mask, pattern) && Extract(Deposit(i, mask, pattern), mask) == i
    {
      ExtractDeposit(i, mask, pattern);
    }
  }

  // src/inc/rv_iommu_dc.h
  const MSI_ADDR_MASK: nat := 0x10_0286
  const MSI_ADDR_PATTERN: nat := 0x00_0386
  const MSI_N_ENTRIES: nat := 32

  /** The driver's mask numbers exactly as many interrupt files as its table has entries. */
  lemma MaskFitsTable(x: nat)
    ensures Pow2(PopCount(MSI_ADDR_MASK)) == MSI_N_ENTRIES
    ensures Extract(x, MSI_ADDR_MASK) < MSI_N_ENTRIES
  {
    assert PopCount(MSI_ADDR_MASK) == 5 by { MaskOnes(); }
    assert Pow2(5) == 32;
    ExtractBound(x, MSI_ADDR_MASK);
  }

  lemma MaskOnes()
    ensures PopCount(0x10_0286) == 5
  {
    assert PopCount(0x10) == 1;
    assert PopCount(0x1002) == 2;
    assert PopCount(0x1_0028) == 3;
  }

  // ---------------------------------------------------------------------------------------------
  // MSI page-table entries.

  datatype MsiEntry =
    | NotValid
    | Custom
    | Misconfigured
    | Basic(ppn: nat)
    | ToMrif(addr: nat, nppn: nat, nid: nat)

  const B10: nat := 0x400
  const B54: nat := 0x40_0000_0000_0000
  const B60: nat := 0x1000_0000_0000_0000
  const B63: nat := 0x8000_0000_0000_0000

  /** Bit 0 is V, bits 2 to 1 are M, bit 63 is C; M selects the layout of the rest. */
  function DecodeMsi(w0: nat, w1: nat): MsiEntry {
    if w0 % 2 == 0 then NotValid
    else if w0 >= B63 then Custom
    else if w0 / 2 % 4 == 3 then
      if w0 % B10 != 7 || w0 >= B54 then Misconfigured else Basic(w0 / B10)
    else if w0 / 2 % 4 == 1 then
      if w0 % 128 != 3 || w0 >= B54 || w1 % B60 >= B54 || w1 >= 2 * B60 then Misconfigured
      else ToMrif(w0 / 128 * 512, w1 % B60 / B10, w1 % B10 + B10 * (w1 / B60))
    else Misconfigured
  }

  /** The fault codes of src/inc/rv_iommu_fq.h:43-44. Custom formats are left to the implementation; the driver
      expects one without any, which reports them as not valid. */
  function MsiCause(e: MsiEntry): nat
    requires !e.Basic? && !e.ToMrif?
  {
    match e
    case NotValid => 262
    case Custom => 262
    case Misconfigured => 263
  }

  const MSI_PTE_VALID: nat := 1
  const MSI_PTE_BT_MODE: nat := 6
  const MSI_PTE_MRIF_MODE: nat := 2
  const MSI_PTE_CUSTOM: nat := B63
  const MSI_PTE_MRIF_ADDR_MASK: nat := 0x3F_FFFF_FFFF_FF80
  const MSI_PTE_NID9_0_MASK: nat := 0x3FF
  const MSI_PTE_NPPN_MASK: nat := 0x3F_FFFF_FFFF_FC00
  const MSI_PTE_NID10_MASK: nat := B60

  function BasicWord(addr: nat): nat {
    Or(Or(MSI_PTE_VALID, MSI_PTE_BT_MODE), addr / 4)
  }

  function MrifWord(addr: nat): nat {
    Or(Or(MSI_PTE_VALID, MSI_PTE_MRIF_MODE), And(addr / 4, MSI_PTE_MRIF_ADDR_MASK))
  }

  /** The second dword of an MRIF entry: the notice's data in two pieces and its page number. */
  function NoticeWord(data: nat, addr: nat): nat {
    Or(Or(And(data, MSI_PTE_NID9_0_MASK), And(addr / 4, MSI_PTE_NPPN_MASK)),
       And(data * 0x4_0000_0000_0000, MSI_PTE_NID10_MASK))
  }

  /** Some exponents have these powers; which ones they are does not matter below. */
  predicate Exponents(k7: nat, k10: nat, k54: nat, k60: nat, k63: nat) {
    && k7 <= k54 && k10 <= k54
    && Pow2(k7) == 128 && Pow2(k10) == B10 && Pow2(k54) == B54 && Pow2(k60) == B60 && Pow2(k63) == B63
  }

  lemma MsiPow2()
    ensures Exponents(7, 10, 54, 60, 63)
  {
    Pow2Values();
    assert Pow2(7) == 128;
    assert Pow2(60) == B60;
  }

  lemma BasicIs(addr: nat)
    requires addr % PAGE == 0 && addr / 4 < B54
    ensures DecodeMsi(BasicWord(addr), 0) == Basic(addr / PAGE)
  {
    var q := addr / PAGE;
    assert addr / 4 == B10 * q;
    SevenWord(q);
    BasicFields(B10 * q + 7, q);
  }

  lemma SevenWord(q: nat)
    ensures Or(Or(MSI_PTE_VALID, MSI_PTE_BT_MODE), B10 * q) == B10 * q + 7
  {
    assert Or(1, 6) == 7;
    assert Pow2(10) == B10;
    OrAdd(B10 * q, 7, 10);
  }

  lemma BasicFields(w: nat, q: nat)
    requires w == B10 * q + 7 && B10 * q < B54
    ensures DecodeMsi(w, 0) == Basic(q)
  {
    DivUnique(w, B10, q, 7);
    DivUnique(w, 2, 512 * q + 3, 1);
    DivUnique(512 * q + 3, 4, 128 * q, 3);
    BelowTop(q, 7);
    BasicFromFields(w, q);
  }

  lemma BasicFromFields(w: nat, q: nat)
    requires w / B10 == q && w % B10 == 7 && w % 2 == 1 && w / 2 % 4 == 3 && w < B54
    ensures DecodeMsi(w, 0) == Basic(q)
  {
  }

  lemma MrifWordIs(addr: nat)
    requires addr % 512 == 0 && addr / 4 < B54
    ensures MrifWord(addr) == addr / 4 + 3 && addr / 4 % 128 == 0
  {
    var q := addr / 512;
    DivUnique(addr, 4, 128 * q, 0);
    DivUnique(128 * q, 128, q, 0);
    assert MrifWord(addr) == 128 * q + 3 by {
      MsiPow2();
      ThreeWord(q, 7, 54);
    }
  }

  lemma ThreeWord(q: nat, k7: nat, k54: nat)
    requires 128 * q < B54 && k7 <= k54 && Pow2(k7) == 128 && Pow2(k54) == B54
    ensures Or(Or(MSI_PTE_VALID, MSI_PTE_MRIF_MODE), And(128 * q, MSI_PTE_MRIF_ADDR_MASK)) == 128 * q + 3
  {
    assert Or(1, 2) == 3;
    AndKeeps(128 * q, k7, k54);
    OrAdd(128 * q, 3, k7);
  }

  lemma NoticeTopBit(data: nat, k60: nat)
    requires data < 2048 && Pow2(k60) == B60
    ensures And(data * 0x4_0000_0000_0000, MSI_PTE_NID10_MASK) == (data / 1024) * B60
  {
    var x, h, l := data * 0x4_0000_0000_0000, data / 1024, data % 1024;
    assert x == h * B60 + l * 0x4_0000_0000_0000;
    assert Pow2(k60 + 1) == 2 * B60;
    AndField(x, k60, k60 + 1);
    DivUnique(x, B60, h, l * 0x4_0000_0000_0000);
    DivUnique(x, 2 * B60, 0, x);
  }

  lemma NoticeWordIs(data: nat, addr: nat)
    requires data < 2048 && addr % PAGE == 0 && addr / 4 < B54
    ensures NoticeWord(data, addr) == (data / 1024) * B60 + B10 * (addr / PAGE) + data % 1024
  {
    var q, l := addr / PAGE, data % 1024;
    assert addr / 4 == B10 * q;
    var low, top := B10 * q + l, (data / 1024) * B60;
    assert Or(And(data, MSI_PTE_NID9_0_MASK), And(addr / 4, MSI_PTE_NPPN_MASK)) == low by {
      MsiPow2();
      NoticeLow(data, q, 10, 54);
    }
    assert And(data * 0x4_0000_0000_0000, MSI_PTE_NID10_MASK) == top by {
      MsiPow2();
      NoticeTopBit(data, 60);
    }
    assert Or(low, top) == top + low by {
      MsiPow2();
      BelowTop(q, l);
      NoticeTop(data / 1024, low, 60);
    }
  }

  lemma NoticeLow(data: nat, q: nat, k10: nat, k54: nat)
    requires B10 * q < B54 && k10 <= k54 && Pow2(k10) == B10 && Pow2(k54) == B54
    ensures Or(And(data, MSI_PTE_NID9_0_MASK), And(B10 * q, MSI_PTE_NPPN_MASK)) == B10 * q + data % 1024
  {
    LowBitsOf(data, k10);
    AndKeeps(B10 * q, k10, k54);
    OrAdd(B10 * q, data % 1024, k10);
  }

  lemma LowBitsOf(data: nat, k10: nat)
    requires Pow2(k10) == B10
    ensures And(data, MSI_PTE_NID9_0_MASK) == data % 1024
  {
    assert Pow2(0) == 1 && data % 1 == 0;
    AndField(data, 0, k10);
  }

  lemma NoticeTop(h: nat, y: nat, k60: nat)
    requires y < B54 && Pow2(k60) == B60
    ensures Or(y, h * B60) == h * B60 + y
  {
    TopAligned(h);
    OrAdd(h * B60, y, k60);
  }

  lemma TopAligned(b: nat)
    ensures b * B60 % B60 == 0
  {
  }

  /** The packed MRIF entry gives back the file's address, the notice's page and, from its two pieces, the
      notice's data, for every address the layout can hold and every 11-bit datum. */
  lemma MrifEntryIs(mrif: nat, data: nat, notice: nat)
    requires mrif % 512 == 0 && mrif / 4 < B54
    requires data < 2048 && notice % PAGE == 0 && notice / 4 < B54
    ensures DecodeMsi(MrifWord(mrif), NoticeWord(data, notice)) == ToMrif(mrif, notice / PAGE, data)
  {
    var m, h, l := mrif / 512, data / 1024, data % 1024;
    assert mrif == 512 * m && mrif / 4 == 128 * m && data == 1024 * h + l;
    assert B10 * (notice / PAGE) == notice / 4;
    MrifWordIs(mrif);
    NoticeWordIs(data, notice);
    MrifFields(m, h, notice / PAGE, l, MrifWord(mrif), NoticeWord(data, notice));
  }

  lemma MrifFields(m: nat, h: nat, q: nat, l: nat, w0: nat, w1: nat)
    requires 128 * m < B54 && h < 2 && B10 * q < B54 && l < B10
    requires w0 == 128 * m + 3 && w1 == h * B60 + B10 * q + l
    ensures DecodeMsi(w0, w1) == ToMrif(512 * m, q, l + B10 * h)
  {
    MrifLow(w0, m);
    NoticeFields(w1, h, q, l);
  }

  lemma MrifLow(w0: nat, m: nat)
    requires w0 == 128 * m + 3 && 128 * m < B54
    ensures w0 / 128 == m && w0 % 128 == 3 && w0 / 2 % 4 == 1 && w0 % 2 == 1 && w0 < B54
  {
    DivUnique(w0, 128, m, 3);
    DivUnique(w0, 2, 64 * m + 1, 1);
    DivUnique(64 * m + 1, 4, 16 * m, 1);
    BelowTop128(m);
  }

  lemma BelowTop128(m: nat)
    requires 128 * m < B54
    ensures 128 * m + 3 < B54
  {
  }

  lemma NoticeFields(w1: nat, h: nat, q: nat, l: nat)
    requires w1 == h * B60 + B10 * q + l && h < 2 && B10 * q < B54 && l < B10
    ensures w1 < 2 * B60 && w1 % B60 < B54
    ensures w1 % B60 / B10 == q && w1 % B10 == l && w1 / B60 == h
  {
    var y := B10 * q + l;
    assert y < B54 by { BelowTop(q, l); }
    DivUnique(w1, B60, h, y);
    DivUnique(y, B10, q, l);
    DivUnique(w1, B10, 0x4_0000_0000_0000 * h + q, l);
  }

  lemma BelowTop(q: nat, l: nat)
    requires B10 * q < B54 && l < B10
    ensures B10 * q + l < B54
  {
  }

  // ---------------------------------------------------------------------------------------------
  // The flat table.

  const NOTICE_ADDR_1: nat := 0x8300_8000
  const NOTICE_ADDR_2: nat := 0x8300_9000
  const NOTICE_DATA: nat := 0x7AC

  /** Word `i` of the flat table. */
  function FlatWord(base: nat, mrif: nat, i: nat): nat {
    if i == 40 || i == 42 then MrifWord(mrif)
    else if i == 46 then Or(MrifWord(mrif), MSI_PTE_CUSTOM)
    else if i == 41 || i == 47 then NoticeWord(NOTICE_DATA, NOTICE_ADDR_1)
    else if i == 43 then NoticeWord(NOTICE_DATA, NOTICE_ADDR_2)
    else BasicPart(base, i)
  }

  /** Word `i` when all entries are in basic-translate mode. */
  function BasicPart(base: nat, i: nat): nat {
    if i % 2 == 0 then BasicWord(base + i / 2 * PAGE) else 0
  }

  function FlatImage(base: nat, mrif: nat): (s: seq<nat>)
    ensures |s| == MSI_N_ENTRIES * 2
  {
    seq(MSI_N_ENTRIES * 2, i requires 0 <= i < MSI_N_ENTRIES * 2 => FlatWord(base, mrif, i))
  }

  function BasicImage(base: nat): (s: seq<nat>)
    ensures |s| == MSI_N_ENTRIES * 2
  {
    seq(MSI_N_ENTRIES * 2, i requires 0 <= i < MSI_N_ENTRIES * 2 => BasicPart(base, i))
  }

  function WithFile(words: seq<nat>, k: nat, w0: nat, w1: nat): (s: seq<nat>)
    requires |words| == MSI_N_ENTRIES * 2 && k < MSI_N_ENTRIES
    ensures |s| == MSI_N_ENTRIES * 2
  {
    words[2 * k := w0][2 * k + 1 := w1]
  }

  lemma FlatIs(base: nat, mrif: nat, file: nat, custom: nat, first: nat, second: nat)
    requires file == MrifWord(mrif) && custom == Or(file, MSI_PTE_CUSTOM)
    requires first == NoticeWord(NOTICE_DATA, NOTICE_ADDR_1) && second == NoticeWord(NOTICE_DATA, NOTICE_ADDR_2)
    ensures WithFile(WithFile(WithFile(BasicImage(base), 20, file, first), 21, file, second), 23, custom, first)
         == FlatImage(base, mrif)
  {
    var s1 := WithFile(BasicImage(base), 20, file, first);
    var s2 := WithFile(s1, 21, file, second);
    var s3 := WithFile(s2, 23, custom, first);
    forall i | 0 <= i < MSI_N_ENTRIES * 2
      ensures s3[i] == FlatImage(base, mrif)[i]
    {
      WithFileAt(BasicImage(base), 20, file, first, i);
      WithFileAt(s1, 21, file, second, i);
      WithFileAt(s2, 23, custom, first, i);
    }
  }

  lemma WithFileAt(words: seq<nat>, k: nat, w0: nat, w1: nat, i: nat)
    requires |words| == MSI_N_ENTRIES * 2 && k < MSI_N_ENTRIES && i < MSI_N_ENTRIES * 2
    ensures WithFile(words, k, w0, w1)[i] == if i == 2 * k then w0 else if i == 2 * k + 1 then w1 else words[i]
  {
  }

  /** The entry the IOMMU uses for a guest page number: the extracted number indexes the table. */
  function MsiLookup(table: seq<nat>, gppn: nat, mask: nat): MsiEntry
    requires |table| == 2 * Pow2(PopCount(mask))
  {
    ExtractBound(gppn, mask);
    DecodeMsi(table[2 * Extract(gppn, mask)], table[2 * Extract(gppn, mask) + 1])
  }

  /** What entry `k` is meant to say. */
  function FlatEntry(base: nat, mrif: nat, k: nat): MsiEntry {
    if k == 20 then ToMrif(mrif, NOTICE_ADDR_1 / PAGE, NOTICE_DATA)
    else if k == 21 then ToMrif(mrif, NOTICE_ADDR_2 / PAGE, NOTICE_DATA)
    else if k == 23 then Custom
    else Basic(base / PAGE + k)
  }

  lemma FlatDecodes(base: nat, mrif: nat, k: nat)
    requires base % PAGE == 0 && base < 0x80_0000_0000_0000 && mrif % 512 == 0 && mrif / 4 < B54 && k < MSI_N_ENTRIES
    ensures DecodeMsi(FlatWord(base, mrif, 2 * k), FlatWord(base, mrif, 2 * k + 1)) == FlatEntry(base, mrif, k)
  {
    if k == 20 {
      MrifEntryIs(mrif, NOTICE_DATA, NOTICE_ADDR_1);
    } else if k == 21 {
      MrifEntryIs(mrif, NOTICE_DATA, NOTICE_ADDR_2);
    } else if k == 23 {
      CustomIs(mrif, FlatWord(base, mrif, 47));
    } else {
      NthPage(base, k);
      BasicIs(base + k * PAGE);
    }
  }

  lemma CustomIs(mrif: nat, w1: nat)
    requires mrif % 512 == 0 && mrif / 4 < B54
    ensures DecodeMsi(Or(MrifWord(mrif), MSI_PTE_CUSTOM), w1) == Custom
  {
    var w := MrifWord(mrif);
    assert w < B63 && w % 2 == 1 by {
      MrifWordIs(mrif);
      OddWord(w, mrif / 512);
    }
    assert Or(w, MSI_PTE_CUSTOM) >= B63 && Or(w, MSI_PTE_CUSTOM) % 2 == 1 by {
      MsiPow2();
      CustomWord(w, 63);
    }
    CustomDecodes(Or(w, MSI_PTE_CUSTOM), w1);
  }

  lemma OddWord(w: nat, m: nat)
    requires w == 128 * m + 3
    ensures w % 2 == 1
  {
    DivUnique(w, 2, 64 * m + 1, 1);
  }

  lemma CustomDecodes(w0: nat, w1: nat)
    requires w0 >= B63 && w0 % 2 == 1
    ensures DecodeMsi(w0, w1) == Custom
  {
  }

  lemma NthPage(base: nat, k: nat)
    requires base % PAGE == 0
    ensures (base + k * PAGE) % PAGE == 0 && (base + k * PAGE) / PAGE == base / PAGE + k
  {
    DivUnique(base + k * PAGE, PAGE, base / PAGE + k, 0);
  }

  lemma CustomWord(w: nat, k63: nat)
    requires w < B63 && w % 2 == 1 && Pow2(k63) == B63
    ensures Or(w, MSI_PTE_CUSTOM) >= B63 && Or(w, MSI_PTE_CUSTOM) % 2 == 1
  {
    OrTop(w, B63, k63);
    DivUnique(B63 + w, 2, 0x4000_0000_0000_0000 + w / 2, 1);
  }

  lemma OrTop(w: nat, top: nat, k: nat)
    requires Pow2(k) == top && w < top
    ensures Or(w, top) == top + w
  {
    DivUnique(top, top, 1, 0);
    OrAdd(top, w, k);
  }

  /** For every matching page number the lookup is in bounds and finds the entry meant for it, and two
      different page numbers never find the same basic page. */
  lemma FlatTable(base: nat, mrif: nat, gppn: nat)
    requires base % PAGE == 0 && base < 0x80_0000_0000_0000 && mrif % 512 == 0 && mrif / 4 < B54
    ensures Pow2(PopCount(MSI_ADDR_MASK)) == MSI_N_ENTRIES
    ensures MsiLookup(FlatImage(base, mrif), gppn, MSI_ADDR_MASK) == FlatEntry(base, mrif, Extract(gppn, MSI_ADDR_MASK))
  {
    MaskFitsTable(gppn);
    FlatDecodes(base, mrif, Extract(gppn, MSI_ADDR_MASK));
  }

  lemma FlatInjective(base: nat, mrif: nat, a: nat, b: nat)
    requires base % PAGE == 0 && base < 0x80_0000_0000_0000 && mrif % 512 == 0 && mrif / 4 < B54
    requires Matches(a, MSI_ADDR_MASK, MSI_ADDR_PATTERN) && Matches(b, MSI_ADDR_MASK, MSI_ADDR_PATTERN) && a != b
    ensures Pow2(PopCount(MSI_ADDR_MASK)) == MSI_N_ENTRIES
    ensures var table := FlatImage(base, mrif);
      var ea, eb := MsiLookup(table, a, MSI_ADDR_MASK), MsiLookup(table, b, MSI_ADDR_MASK);
      ea.Basic? && eb.Basic? ==> ea.ppn != eb.ppn
  {
    FlatTable(base, mrif, a);
    FlatTable(base, mrif, b);
    ExtractInjective(a, b, MSI_ADDR_MASK, MSI_ADDR_PATTERN);
  }

  lemma ExtractInjective(a: nat, b: nat, mask: nat, pattern: nat)
    requires Matches(a, mask, pattern) && Matches(b, mask, pattern) && a != b
    ensures Extract(a, mask) != Extract(b, mask)
  {
    DepositExtract(a, mask, pattern);
    DepositExtract(b, mask, pattern);
  }

  /** Every basic entry sends its interrupt file to its own page above MSI_BASE_IF_SPA exactly when a quarter of
      memory is a whole number of pages, which the compile-time checks do not ask for. */
  lemma FilesReachedIff(memBase: nat, memSize: nat, mrif: nat, k: nat)
    requires memBase % 0x4000_0000 == 0 && memBase < 0x1_0000_0000 && memSize < 0x40_0000_0000_0000
    requires mrif % 512 == 0 && mrif / 4 < B54
    requires k < MSI_N_ENTRIES && k != 20 && k != 21 && k != 23
    ensures var base := memBase + memSize / 4;
      var e := DecodeMsi(FlatWord(base, mrif, 2 * k), FlatWord(base, mrif, 2 * k + 1));
      e.Basic? && e.ppn * PAGE == base + k * PAGE <==> memSize / 4 % PAGE == 0
  {
    var base, q := memBase + memSize / 4, memBase / 0x4000_0000;
    assert memBase == PAGE * (0x4_0000 * q);
    var e := DecodeMsi(FlatWord(base, mrif, 2 * k), FlatWord(base, mrif, 2 * k + 1));
    if memSize / 4 % PAGE == 0 {
      DivUnique(base, PAGE, 0x4_0000 * q + memSize / 4 / PAGE, 0);
      FlatDecodes(base, mrif, k);
    }
    if e.Basic? && e.ppn * PAGE == base + k * PAGE {
      QuarterOnPage(memSize / 4, e.ppn - k - 0x4_0000 * q);
    }
  }

  lemma QuarterOnPage(quarter: nat, pages: int)
    requires quarter == PAGE * pages
    ensures quarter % PAGE == 0
  {
  }

  // The test pages that are interrupt files.
  const MSI_W1: nat := 258
  const MSI_W2: nat := 262
  const MSI_W3: nat := 384
  const MSI_W4: nat := 386
  const MSI_W5: nat := 390

  /** The five test pages match, and select the entries that the driver prepares for them. */
  lemma TestFile(page: nat, k: nat)
    requires (page, k) in {(MSI_W1, 17), (MSI_W2, 19), (MSI_W3, 20), (MSI_W4, 21), (MSI_W5, 23)}
    ensures Matches(0x10_0000 + page, MSI_ADDR_MASK, MSI_ADDR_PATTERN)
    ensures Extract(0x10_0000 + page, MSI_ADDR_MASK) == k
  {
    PageFile(page, if page < 264 then 0 else 1, if page == MSI_W2 || page == MSI_W5 then 1 else 0,
             if page == MSI_W3 then 0 else 1);
  }

  /** Of the test pages, exactly those with bit 8 set and none but bits 7, 2 and 1 besides are interrupt files;
      these bits number them. */
  lemma PageFile(page: nat, b7: nat, b2: nat, b1: nat)
    requires b7 < 2 && b2 < 2 && b1 < 2 && page == 0x100 + 128 * b7 + 4 * b2 + 2 * b1
    ensures Matches(0x10_0000 + page, MSI_ADDR_MASK, MSI_ADDR_PATTERN)
    ensures Extract(0x10_0000 + page, MSI_ADDR_MASK) == 16 + 4 * b7 + 2 * b2 + b1
  {
    var x, y := 0x10_0000 + page, 0x8008 + 4 * b7;
    PageBits(x, b7, b2, b1);
    UpperBits(y, b7);
    MaskLow(x, MSI_ADDR_MASK);
    PatternBits(MSI_ADDR_PATTERN, MSI_ADDR_MASK);
  }

  lemma UpperBits(y: nat, b7: nat)
    requires b7 < 2 && y == 0x8008 + 4 * b7
    ensures Extract(y, 0x8014) == 4 + b7 && AndNot(y, 0x8014) == 8
  {
    var m := 0x8014;
    assert y / 32 == Pow2(10) && m / 32 == Pow2(10) by { assert Pow2(10) == 0x400; }
    assert y / 16 % 2 == 0 && y / 8 % 2 == 1 && y / 4 % 2 == b7 && y / 2 % 2 == 0 && y % 2 == 0;
    MaskMiddle(y, m);
    MaskTop(10);
  }

  lemma PatternBits(p: nat, m: nat)
    requires p == 0x386 && m == 0x10_0286
    ensures AndNot(p, m) == 0x100
  {
    var q, n := p / 32, m / 32;
    PatternMiddle(q, n);
    assert p / 16 % 2 == 0 && p / 8 % 2 == 0 && p % 2 == 0;
    assert AndNot(p, m) == 32 * AndNot(q, n) by { MaskLow(p, m); }
  }

  lemma PatternMiddle(p: nat, m: nat)
    requires p == 0x1C && m == 0x8014
    ensures AndNot(p, m) == 8
  {
    assert p / 32 == 0 && p / 8 % 2 == 1 && p / 2 % 2 == 0 && p % 2 == 0;
    assert AndNot(p, m) == 8 + 32 * AndNot(0, m / 32) by { MaskMiddle(p, m); }
  }

  lemma PageBits(x: nat, b7: nat, b2: nat, b1: nat)
    requires b7 < 2 && b2 < 2 && b1 < 2 && x == 0x10_0100 + 128 * b7 + 4 * b2 + 2 * b1
    ensures x % 2 == 0 && x / 2 % 2 == b1 && x / 4 % 2 == b2 && x / 8 % 2 == 0 && x / 16 % 2 == 0
    ensures x / 32 == 0x8008 + 4 * b7
  {
  }

  /** The bits of the mask, from the right: 00110, 10100, and one more. */
  lemma MaskLow(x: nat, m: nat)
    requires m % 32 == 6
    ensures Extract(x, m) == 4 * Extract(x / 32, m / 32) + 2 * (x / 4 % 2) + x / 2 % 2
    ensures AndNot(x, m) == 32 * AndNot(x / 32, m / 32) + 16 * (x / 16 % 2) + 8 * (x / 8 % 2) + x % 2
  {
    Halvings(x);
    Halvings(m);
    LowBits(m);
    Halve(x, m, x / 2, m / 2);
    Halve(x / 2, m / 2, x / 4, m / 4);
    Halve(x / 4, m / 4, x / 8, m / 8);
    Halve(x / 8, m / 8, x / 16, m / 16);
    Halve(x / 16, m / 16, x / 32, m / 32);
  }

  lemma MaskMiddle(x: nat, m: nat)
    requires m % 32 == 20
    ensures Extract(x, m) == 4 * Extract(x / 32, m / 32) + 2 * (x / 16 % 2) + x / 4 % 2
    ensures AndNot(x, m) == 32 * AndNot(x / 32, m / 32) + 8 * (x / 8 % 2) + 2 * (x / 2 % 2) + x % 2
  {
    Halvings(x);
    Halvings(m);
    LowBits(m);
    Halve(x, m, x / 2, m / 2);
    Halve(x / 2, m / 2, x / 4, m / 4);
    Halve(x / 4, m / 4, x / 8, m / 8);
    Halve(x / 8, m / 8, x / 16, m / 16);
    Halve(x / 16, m / 16, x / 32, m / 32);
  }

  lemma Halvings(x: nat)
    ensures x / 2 / 2 == x / 4 && x / 4 / 2 == x / 8 && x / 8 / 2 == x / 16 && x / 16 / 2 == x / 32
  {
  }

  lemma LowBits(m: nat)
    requires m % 32 == 6 || m % 32 == 20
    ensures m % 2 == 0 && m / 8 % 2 == 0
    ensures m / 2 % 2 == (if m % 32 == 6 then 1 else 0) && m / 4 % 2 == 1
    ensures m / 16 % 2 == (if m % 32 == 6 then 0 else 1)
  {
    var q := m / 32;
    if m % 32 == 6 {
      Halve6(m, q);
    } else {
      Halve20(m, q);
    }
  }

  lemma Halve6(m: nat, q: nat)
    requires m == 32 * q + 6
    ensures m % 2 == 0 && m / 2 % 2 == 1 && m / 4 % 2 == 1 && m / 8 % 2 == 0 && m / 16 % 2 == 0
  {
    DivUnique(m, 2, 16 * q + 3, 0);
    DivUnique(16 * q + 3, 2, 8 * q + 1, 1);
    DivUnique(m, 4, 8 * q + 1, 2);
    DivUnique(8 * q + 1, 2, 4 * q, 1);
    DivUnique(m, 8, 4 * q, 6);
    DivUnique(4 * q, 2, 2 * q, 0);
    DivUnique(m, 16, 2 * q, 6);
    DivUnique(2 * q, 2, q, 0);
  }

  lemma Halve20(m: nat, q: nat)
    requires m == 32 * q + 20
    ensures m % 2 == 0 && m / 2 % 2 == 0 && m / 4 % 2 == 1 && m / 8 % 2 == 0 && m / 16 % 2 == 1
  {
    DivUnique(m, 2, 16 * q + 10, 0);
    DivUnique(16 * q + 10, 2, 8 * q + 5, 0);
    DivUnique(m, 4, 8 * q + 5, 0);
    DivUnique(8 * q + 5, 2, 4 * q + 2, 1);
    DivUnique(m, 8, 4 * q + 2, 4);
    DivUnique(4 * q + 2, 2, 2 * q + 1, 0);
    DivUnique(m, 16, 2 * q + 1, 4);
    DivUnique(2 * q + 1, 2, q, 1);
  }

  lemma {:induction false} MaskTop(k: nat)
    ensures Extract(Pow2(k), Pow2(k)) == 1 && AndNot(Pow2(k), Pow2(k)) == 0 && AndNot(0, Pow2(k)) == 0
  {
    if k > 0 {
      MaskTop(k - 1);
    } else {
      assert Extract(0, 0) == 0 && AndNot(0, 0) == 0;
    }
  }

  lemma Halve(x: nat, m: nat, x': nat, m': nat)
    requires x' == x / 2 && m' == m / 2
    ensures Extract(x, m) == if m % 2 == 1 then 2 * Extract(x', m') + x % 2 else Extract(x', m')
    ensures AndNot(x, m) == 2 * AndNot(x', m') + (if x % 2 == 1 && m % 2 == 0 then 1 else 0)
  {
  }

  // ---------------------------------------------------------------------------------------------
  // Building the table in place.

  class MsiTable {
    const base: nat          // MSI_BASE_IF_SPA
    const mrif: nat          // where the interrupt file is
    const words: array<nat>

    predicate Valid()
      reads this
    {
      words.Length == MSI_N_ENTRIES * 2
    }

    method Clear()
      requires Valid()
      modifies words
      ensures forall k: nat | k < words.Length :: words[k] == 0
    {
      for i := 0 to MSI_N_ENTRIES * 2
        invariant forall k: nat | k < i :: words[k] == 0
      {
        words[i] := 0;
      }
    }

    method FillBasic()
      requires Valid()
      modifies words
      ensures words[..] == BasicImage(base)
    {
      var addr := base;
      var i := 0;
      while i < MSI_N_ENTRIES * 2
        invariant 0 <= i <= MSI_N_ENTRIES * 2 && i % 2 == 0 && addr == base + i / 2 * PAGE
        invariant forall k: nat | k < i :: words[k] == BasicPart(base, k)
      {
        words[i] := Or(Or(MSI_PTE_VALID, MSI_PTE_BT_MODE), addr / 4);
        words[i + 1] := 0;
        assert words[i] == BasicPart(base, i) && words[i + 1] == BasicPart(base, i + 1);
        addr := addr + PAGE;
        i := i + 2;
      }
    }

    method SetFile(k: nat, w0: nat, w1: nat)
      requires Valid() && k < MSI_N_ENTRIES
      modifies words
      ensures words[..] == WithFile(old(words[..]), k, w0, w1)
    {
      words[2 * k] := w0;
      words[2 * k + 1] := w1;
    }

    method MsiPtInit()
      requires Valid()
      modifies words
      ensures words[..] == FlatImage(base, mrif)
    {
      Clear();
      FillBasic();
      var first, second := NoticeWord(NOTICE_DATA, NOTICE_ADDR_1), NoticeWord(NOTICE_DATA, NOTICE_ADDR_2);
      var file := MrifWord(mrif);
      SetFile(20, file, first);
      SetFile(21, file, second);
      SetFile(23, Or(file, MSI_PTE_CUSTOM), first);
      FlatIs(base, mrif, file, Or(file, MSI_PTE_CUSTOM), first, second);
    }
  }
}
