/** The translation tables of src/page_tables.c: what the init loops and the PTE swaps leave in memory. */
module PageTables {
  import opened Bits
  import opened PageWalk

  const SWITCH1: nat := 27
  const SWITCH2: nat := 28
  const STRESS_START: nat := 29
  const STRESS_TOP: nat := 61
  const TEST_PAGE_MAX: nat := 512

  const SUPERPAGE_1G: nat := 0x4000_0000
  const SUPERPAGE_2M: nat := 0x20_0000
  const TEST_VPAGE_BASE: nat := 0x1_0000_0000

  // Flag combinations
  const PTE_AD: nat := 0xC0
  const PTE_URWX: nat := 0x1F        // V | U | RWX
  const PTE_URWX_AD: nat := 0xDF     // V | AD | U | RWX
  const PTE_RWX_AD: nat := 0xCF      // V | AD | RWX
  const PTE_PPN_MSK: nat := 0x3F_FFFF_FFFF_FC00

  /** Any 8 PTE flags that do not have W without R and do not have G. */
  predicate Flags(f: nat) {
    f < 256 && f / 32 % 2 == 0 && (f / 4 % 2 == 1 ==> f / 2 % 2 == 1)
  }

  /** Platform memory, where the linker put the tables, and the permission table. */
  datatype Config = Config(
    memBase: nat, memSize: nat,
    s1Base: nat, rootBase: nat, s2Base: nat,
    perm1: seq<nat>, perm2: seq<nat>)
  {
    /** Number of 2 MiB leaves in the two 3 GiB windows. */
    function Window(): nat {
      memSize / SUPERPAGE_2M / 2
    }

    function TestPpageBase(): nat {
      memBase + memSize / 2
    }

    /** The compile-time checks on the memory map; a window that fits its table; tables aligned, apart from
        each other and anywhere in RAM. */
    predicate Valid() {
      && memBase % SUPERPAGE_1G == 0 && memBase < 4 * SUPERPAGE_1G
      && memSize >= 0x1000_0000 && Window() <= 512
      && s1Base % 0x1000 == 0 && rootBase % 0x4000 == 0 && s2Base % 0x1000 == 0
      && memBase <= s1Base && s1Base + 0x6000 <= memBase + memSize
      && memBase <= rootBase && rootBase + 0x4000 <= memBase + memSize
      && memBase <= s2Base && s2Base + 0x5000 <= memBase + memSize
      && (s1Base + 0x6000 <= rootBase || rootBase + 0x4000 <= s1Base)
      && (s1Base + 0x6000 <= s2Base || s2Base + 0x5000 <= s1Base)
      && (rootBase + 0x4000 <= s2Base || s2Base + 0x5000 <= rootBase)
      && Sized()
    }

    /** The addresses below 4 GiB that the second stage maps to themselves. */
    predicate SelfMapped(a: nat) {
      a < 3 * SUPERPAGE_1G || (memBase == 3 * SUPERPAGE_1G && a - 3 * SUPERPAGE_1G < Window() * SUPERPAGE_2M)
    }

    /** `s1pt` lies where the guest physical addresses in its pointers are the physical ones. The linker script
        puts it in the first 2 MiB of RAM, which is such a place. */
    predicate FirstStageSelfMapped() {
      SelfMapped(s1Base) && SelfMapped(s1Base + 0x5FFF)
    }

    predicate Nestable() {
      Valid() && FirstStageSelfMapped()
    }

    predicate Sized() {
      |perm1| == TEST_PAGE_MAX && |perm2| == TEST_PAGE_MAX
    }

    predicate PermTable() {
      && Sized()
      && forall i | 0 <= i < TEST_PAGE_MAX :: Flags(perm1[i]) && Flags(perm2[i])
    }

    /** The upper half of memory starts on a page. The compile-time checks do not ask for it. */
    predicate PageAligned() {
      memSize / 2 % 0x1000 == 0
    }

    /** The upper half of memory starts on a 2 MiB superpage. */
    predicate SuperpageAligned() {
      memSize / 2 % SUPERPAGE_2M == 0
    }
  }

  /** Which test page the PTE in each of the four swapped slots was made for. */
  datatype View = View(p1: nat, p2: nat, q1: nat, q2: nat) {
    predicate Valid() {
      && (p1 == SWITCH1 || p1 == SWITCH2) && (p2 == SWITCH1 || p2 == SWITCH2)
      && (q1 == SWITCH1 || q1 == SWITCH2) && (q2 == SWITCH1 || q2 == SWITCH2)
    }

    /** The test page whose PTE is in slot `i` of the first-stage table of 4 KiB pages. */
    function FirstSlot(i: nat): nat {
      if i == SWITCH1 then p1 else if i == SWITCH2 then p2 else i
    }

    function SecondSlot(i: nat): nat {
      if i == SWITCH1 then q1 else if i == SWITCH2 then q2 else i
    }
  }

  const UNSWAPPED: View := View(SWITCH1, SWITCH2, SWITCH1, SWITCH2)

  // ---------------------------------------------------------------------------------------------
  // The PTE words.

  /** `flags | (addr >> 2)` for a page-aligned address. */
  lemma LeafWord(addr: nat, flags: nat)
    requires addr % 0x1000 == 0 && flags < 1024
    ensures Or(addr / 4, flags) == addr / 4 + flags
    ensures Or(flags, addr / 4) == addr / 4 + flags
  {
    assert Pow2(10) == 1024;
    assert (addr / 4) % 1024 == 0;
    OrAdd(addr / 4, flags, 10);
  }

  function PointerPte(table: nat): nat {
    Or(1, And(table / 4, PTE_PPN_MSK))
  }

  lemma PointerWord(table: nat)
    requires table % 0x1000 == 0 && table < 0x100_0000_0000_0000
    ensures PointerPte(table) == table / 4 + 1
  {
    var x := table / 4;
    assert x % 0x400 == 0;
    assert And(x, PTE_PPN_MSK) == x by {
      Pow2Values();
      AndKeeps(x, 10, 54);
    }
    LeafWord(table, 1);
  }

  /** `(addr >> 2) | PTE_AD | perm` */
  function TestPte(addr: nat, perm: nat): nat {
    Or(Or(addr / 4, PTE_AD), perm)
  }

  lemma TestWord(addr: nat, perm: nat)
    requires addr % 0x1000 == 0 && Flags(perm)
    ensures TestPte(addr, perm) == addr / 4 + PTE_AD + perm % 32
  {
    var m, h, l := addr / 4096, perm / 64, perm % 64;
    var x := 16 * m + 3;
    assert l == perm % 32 by { NoGlobalFlag(perm); }
    assert addr == 4096 * m;
    assert h < 4;
    assert Or(addr / 4, PTE_AD) == 64 * x by { LeafWord(addr, PTE_AD); }
    assert Or(x, h) == x by { OrTopFlags(m, h); }
    Or64(x, h, l);
  }

  lemma NoGlobalFlag(perm: nat)
    requires perm / 32 % 2 == 0
    ensures perm % 64 == perm % 32
  {
  }

  lemma Or64(x: nat, h: nat, l: nat)
    requires l < 64
    ensures Or(64 * x, 64 * h + l) == 64 * Or(x, h) + l
  {
    Shl6(x);
    Shl6(h);
    Shl6(Or(x, h));
    Pow2Values();
    OrBlock(x, h, l, 6);
  }

  lemma OrTopFlags(m: nat, h: nat)
    requires h < 4
    ensures Or(16 * m + 3, h) == 16 * m + 3
  {
    var x := 16 * m + 3;
    OrHalf(x, h);
    OrHalf(8 * m + 1, h / 2);
    assert x / 2 == 8 * m + 1;
    assert (8 * m + 1) / 2 == 4 * m && h / 2 / 2 == 0;
  }

  lemma Shl6(x: nat)
    ensures Shl(x, 6) == 64 * x
  {
    assert Shl(x, 3) == 8 * x;
  }

  // ---------------------------------------------------------------------------------------------
  // What each table holds, slot by slot.

  function Perm1(c: Config, i: nat): nat
    requires i < |c.perm1|
  {
    if STRESS_START <= i < STRESS_TOP then PTE_URWX else c.perm1[i]
  }

  function Perm2(c: Config, i: nat): nat
    requires i < |c.perm2|
  {
    if STRESS_START <= i < STRESS_TOP then PTE_URWX else c.perm2[i]
  }

  function Pointer(table: nat): nat {
    table / 4 + 1
  }

  function S1Entry(c: Config, v: View, k: nat): nat
    requires c.Sized() && v.Valid() && k < 3072
  {
    if k < 512 then
      if k < 3 then k * SUPERPAGE_1G / 4 + PTE_URWX_AD
      else if k == 3 then Pointer(c.s1Base + 0x1000)
      else if k == 4 then Pointer(c.s1Base + 0x2000)
      else if k == 5 then Pointer(c.s1Base + 0x5000)
      else 0
    else if k < 1024 then
      var j := k - 512;
      if j < c.Window() then (3 * SUPERPAGE_1G + j * SUPERPAGE_2M) / 4 + PTE_URWX_AD else 0
    else if k < 1536 then
      if k == 1024 then Pointer(c.s1Base + 0x3000) else if k == 1025 then Pointer(c.s1Base + 0x4000) else 0
    else if k < 2048 then
      var page := v.FirstSlot(k - 1536);
      TestPte(TEST_VPAGE_BASE + page * PAGE, Perm1(c, page))
    else if k < 2560 then
      var page := k - 2048;
      TestPte(TEST_VPAGE_BASE + SUPERPAGE_2M + page * PAGE, Perm1(c, page))
    else
      var j := k - 2560;
      (5 * SUPERPAGE_1G + j * SUPERPAGE_2M) / 4 + PTE_RWX_AD
  }

  function RootEntry(c: Config, k: nat): nat {
    if k < 3 then k * SUPERPAGE_1G / 4 + PTE_URWX_AD
    else if k == 3 then Pointer(c.s2Base)
    else if k == 4 || k == 2047 then Pointer(c.s2Base + 0x1000)
    else if k == 5 then Pointer(c.s2Base + 0x4000)
    else 0
  }

  function S2Entry(c: Config, v: View, k: nat): nat
    requires c.Sized() && v.Valid() && k < 2560
  {
    if k < 512 then
      if k < c.Window() then (c.memBase + k * SUPERPAGE_2M) / 4 + PTE_URWX_AD else 0
    else if k < 1024 then
      if k == 512 || k == 1023 then Pointer(c.s2Base + 0x2000)
      else if k == 513 then Pointer(c.s2Base + 0x3000)
      else 0
    else if k < 1536 then
      var page := v.SecondSlot(k - 1024);
      TestPte(c.TestPpageBase() + page * PAGE, Perm2(c, page))
    else if k < 2048 then
      var page := k - 1536;
      TestPte(c.TestPpageBase() + page * PAGE, Perm2(c, page))
    else
      var j := k - 2048;
      Or((c.TestPpageBase() + j * SUPERPAGE_2M) / 4, PTE_URWX_AD)
  }

  function S1Image(c: Config, v: View): (s: seq<nat>)
    requires c.Sized() && v.Valid()
    ensures |s| == 3072
  {
    seq(3072, k requires 0 <= k < 3072 => S1Entry(c, v, k))
  }

  function RootImage(c: Config): (s: seq<nat>)
    ensures |s| == 2048
  {
    seq(2048, k requires 0 <= k < 2048 => RootEntry(c, k))
  }

  function S2Image(c: Config, v: View): (s: seq<nat>)
    requires c.Sized() && v.Valid()
    ensures |s| == 2560
  {
    seq(2560, k requires 0 <= k < 2560 => S2Entry(c, v, k))
  }

  // ---------------------------------------------------------------------------------------------
  // Swapping two slots.

  function Swapped<T>(s: seq<T>, i: nat, j: nat): seq<T>
    requires i < |s| && j < |s|
  {
    s[i := s[j]][j := s[i]]
  }

  const S1_SWITCH1: nat := 3 * 512 + SWITCH1
  const S1_SWITCH2: nat := 3 * 512 + SWITCH2
  const S2_SWITCH1: nat := 2 * 512 + SWITCH1
  const S2_SWITCH2: nat := 2 * 512 + SWITCH2

  /** s1pt[6][512], s2pt_root[2048] and s2pt[5][512], the two-dimensional ones laid out row after row. */
  class PageTables {
    const c: Config
    const s1pt: array<nat>
    const s2ptRoot: array<nat>
    const s2pt: array<nat>

    ghost predicate Valid() {
      && c.Valid()
      && s1pt.Length == 3072 && s2ptRoot.Length == 2048 && s2pt.Length == 2560
      && s1pt != s2ptRoot && s1pt != s2pt && s2ptRoot != s2pt
    }

    /** Boot code clears .bss, where the tables live. */
    constructor (c: Config)
      requires c.Valid()
      ensures Valid() && this.c == c
      ensures fresh(s1pt) && fresh(s2ptRoot) && fresh(s2pt)
      ensures forall k | 0 <= k < 3072 :: s1pt[k] == 0
      ensures forall k | 0 <= k < 2560 :: s2pt[k] == 0
    {
      this.c := c;
      s1pt := new nat[3072](_ => 0);
      s2ptRoot := new nat[2048](_ => 0);
      s2pt := new nat[2560](_ => 0);
    }

    /** `table[k] = PTE_V | ((target >> 2) & PTE_PPN_MSK)` */
    method StorePointer(table: array<nat>, k: nat, target: nat)
      requires k < table.Length && target % 0x1000 == 0 && target < 0x100_0000_0000_0000
      modifies table
      ensures table[..] == old(table[..])[k := Pointer(target)]
    {
      PointerWord(target);
      table[k] := PointerPte(target);
    }

    method S1ptInit()
      requires Valid()
      // never written below: root entries 6 to 511 and entries 2 to 511 of s1pt[2]
      requires forall k | 6 <= k < 512 || 1026 <= k < 1536 :: s1pt[k] == 0
      modifies s1pt
      ensures s1pt[..] == S1Image(c, UNSWAPPED)
    {
      S1ptInitRoot();
      S1ptInitWindow();
      StorePointer(s1pt, 4, c.s1Base + 0x2000);
      StorePointer(s1pt, 2 * 512, c.s1Base + 0x3000);
      S1ptInitTestPages(3, TEST_VPAGE_BASE);
      StorePointer(s1pt, 2 * 512 + 1, c.s1Base + 0x4000);
      S1ptInitTestPages(4, 4 * SUPERPAGE_1G + SUPERPAGE_2M);
      StorePointer(s1pt, 5, c.s1Base + 0x5000);
      S1ptInitSupervisorWindow();
      assert forall k | 0 <= k < 3072 :: s1pt[k] == S1Entry(c, UNSWAPPED, k);
    }

    /** src/page_tables.c:77-91 */
    method S1ptInitRoot()
      requires Valid()
      modifies s1pt
      ensures forall k | 0 <= k < 4 :: s1pt[k] == S1Entry(c, UNSWAPPED, k)
      ensures forall k | 4 <= k < 3072 :: s1pt[k] == old(s1pt[k])
    {
      var addr := 0;
      var i := 0;
      while i < 4
        invariant 0 <= i <= 4 && addr == i * SUPERPAGE_1G
        invariant forall k | 0 <= k < i :: s1pt[k] == k * SUPERPAGE_1G / 4 + PTE_URWX_AD
        invariant forall k | 4 <= k < 3072 :: s1pt[k] == old(s1pt[k])
      {
        LeafWord(addr, PTE_URWX_AD);
        s1pt[i] := Or(PTE_URWX_AD, addr / 4);
        addr := addr + SUPERPAGE_1G;
        i := i + 1;
      }
      StorePointer(s1pt, 3, c.s1Base + 0x1000);
    }

    /** src/page_tables.c:93-107 */
    method S1ptInitWindow()
      requires Valid()
      modifies s1pt
      ensures forall k | 512 <= k < 1024 :: s1pt[k] == S1Entry(c, UNSWAPPED, k)
      ensures forall k | 0 <= k < 512 || 1024 <= k < 3072 :: s1pt[k] == old(s1pt[k])
    {
      var addr := 0xC000_0000;
      for i := 0 to 512
        invariant forall k | 512 <= k < 512 + i :: s1pt[k] == 0
        invariant forall k | 0 <= k < 512 || 1024 <= k < 3072 :: s1pt[k] == old(s1pt[k])
      {
        s1pt[512 + i] := 0;
      }
      var i := 0;
      while i < c.memSize / SUPERPAGE_2M / 2
        invariant 0 <= i <= c.Window() && addr == 3 * SUPERPAGE_1G + i * SUPERPAGE_2M
        invariant forall j | 0 <= j < i :: s1pt[512 + j] == (3 * SUPERPAGE_1G + j * SUPERPAGE_2M) / 4 + PTE_URWX_AD
        invariant forall k | 512 + i <= k < 1024 :: s1pt[k] == 0
        invariant forall k | 0 <= k < 512 || 1024 <= k < 3072 :: s1pt[k] == old(s1pt[k])
      {
        LeafWord(addr, PTE_URWX_AD);
        s1pt[512 + i] := Or(PTE_URWX_AD, addr / 4);
        addr := addr + SUPERPAGE_2M;
        i := i + 1;
      }
      forall k | 512 <= k < 1024
        ensures s1pt[k] == S1Entry(c, UNSWAPPED, k)
      {
        assert s1pt[512 + (k - 512)] == s1pt[k];
      }
    }

    /** src/page_tables.c:117-133 for row 3 and src/page_tables.c:139-154 for row 4 */
    method S1ptInitTestPages(row: nat, start: nat)
      requires Valid() && (row == 3 || row == 4)
      requires start == TEST_VPAGE_BASE + (row - 3) * SUPERPAGE_2M
      modifies s1pt
      ensures forall k | 512 * row <= k < 512 * row + 512 :: s1pt[k] == S1Entry(c, UNSWAPPED, k)
      ensures forall k | 0 <= k < 512 * row || 512 * row + 512 <= k < 3072 :: s1pt[k] == old(s1pt[k])
    {
      var addr := start;
      for i := 0 to TEST_PAGE_MAX
        invariant addr == start + i * PAGE
        invariant forall k | 512 * row <= k < 512 * row + i :: s1pt[k] == S1Entry(c, UNSWAPPED, k)
        invariant forall k | 0 <= k < 512 * row || 512 * row + 512 <= k < 3072 :: s1pt[k] == old(s1pt[k])
      {
        if i >= STRESS_START && i < STRESS_TOP {
          s1pt[512 * row + i] := Or(Or(addr / 4, PTE_AD), PTE_URWX);
        } else {
          s1pt[512 * row + i] := Or(Or(addr / 4, PTE_AD), c.perm1[i]);
        }
        addr := addr + PAGE;
      }
    }

    /** src/page_tables.c:160-167 */
    method S1ptInitSupervisorWindow()
      requires Valid()
      modifies s1pt
      ensures forall k | 2560 <= k < 3072 :: s1pt[k] == S1Entry(c, UNSWAPPED, k)
      ensures forall k | 0 <= k < 2560 :: s1pt[k] == old(s1pt[k])
    {
      var addr := 5 * SUPERPAGE_1G;
      for i := 0 to 512
        invariant addr == 5 * SUPERPAGE_1G + i * SUPERPAGE_2M
        invariant forall k | 2560 <= k < 2560 + i :: s1pt[k] == S1Entry(c, UNSWAPPED, k)
        invariant forall k | 0 <= k < 2560 :: s1pt[k] == old(s1pt[k])
      {
        LeafWord(addr, PTE_RWX_AD);
        s1pt[5 * 512 + i] := Or(addr / 4, PTE_RWX_AD);
        addr := addr + SUPERPAGE_2M;
      }
    }

    method S2ptInit()
      requires Valid()
      // never written below: entries 2 to 510 of s2pt[1]
      requires forall k | 514 <= k < 1023 :: s2pt[k] == 0
      modifies s2ptRoot, s2pt
      ensures s2ptRoot[..] == RootImage(c)
      ensures s2pt[..] == S2Image(c, UNSWAPPED)
    {
      S2ptInitRoot();
      S2ptInitWindow();
      StorePointer(s2ptRoot, 4, c.s2Base + 0x1000);
      StorePointer(s2ptRoot, 2047, c.s2Base + 0x1000);
      StorePointer(s2pt, 512, c.s2Base + 0x2000);
      StorePointer(s2pt, 512 + 511, c.s2Base + 0x2000);
      S2ptInitTestPages(2);
      StorePointer(s2pt, 512 + 1, c.s2Base + 0x3000);
      S2ptInitTestPages(3);
      StorePointer(s2ptRoot, 5, c.s2Base + 0x4000);
      S2ptInitSuperpages();
      assert forall k | 0 <= k < 2560 :: s2pt[k] == S2Entry(c, UNSWAPPED, k);
    }

    /** src/page_tables.c:175-193 */
    method S2ptInitRoot()
      requires Valid()
      modifies s2ptRoot
      ensures forall k | 0 <= k < 4 :: s2ptRoot[k] == RootEntry(c, k)
      ensures forall k | 4 <= k < 2048 :: s2ptRoot[k] == 0
    {
      for i := 0 to 2048
        invariant forall k | 0 <= k < i :: s2ptRoot[k] == 0
      {
        s2ptRoot[i] := 0;
      }
      var addr := 0;
      var i := 0;
      while i < 4
        invariant 0 <= i <= 4 && addr == i * SUPERPAGE_1G
        invariant forall k | 0 <= k < i :: s2ptRoot[k] == k * SUPERPAGE_1G / 4 + PTE_URWX_AD
        invariant forall k | 4 <= k < 2048 :: s2ptRoot[k] == 0
      {
        LeafWord(addr, PTE_URWX_AD);
        s2ptRoot[i] := Or(PTE_URWX_AD, addr / 4);
        addr := addr + SUPERPAGE_1G;
        i := i + 1;
      }
      StorePointer(s2ptRoot, 3, c.s2Base);
    }

    /** src/page_tables.c:195-208 */
    method S2ptInitWindow()
      requires Valid()
      modifies s2pt
      ensures forall k | 0 <= k < 512 :: s2pt[k] == S2Entry(c, UNSWAPPED, k)
      ensures forall k | 512 <= k < 2560 :: s2pt[k] == old(s2pt[k])
    {
      var addr := c.memBase;
      for i := 0 to 512
        invariant forall k | 0 <= k < i :: s2pt[k] == 0
        invariant forall k | 512 <= k < 2560 :: s2pt[k] == old(s2pt[k])
      {
        s2pt[i] := 0;
      }
      var i := 0;
      while i < c.memSize / SUPERPAGE_2M / 2
        invariant 0 <= i <= c.Window() && addr == c.memBase + i * SUPERPAGE_2M
        invariant forall k | 0 <= k < i :: s2pt[k] == (c.memBase + k * SUPERPAGE_2M) / 4 + PTE_URWX_AD
        invariant forall k | i <= k < 512 :: s2pt[k] == 0
        invariant forall k | 512 <= k < 2560 :: s2pt[k] == old(s2pt[k])
      {
        LeafWord(addr, PTE_URWX_AD);
        s2pt[i] := Or(PTE_URWX_AD, addr / 4);
        addr := addr + SUPERPAGE_2M;
        i := i + 1;
      }
    }

    /** src/page_tables.c:225-240 for row 2 and src/page_tables.c:246-261 for row 3 */
    method S2ptInitTestPages(row: nat)
      requires Valid() && (row == 2 || row == 3)
      modifies s2pt
      ensures forall k | 512 * row <= k < 512 * row + 512 :: s2pt[k] == S2Entry(c, UNSWAPPED, k)
      ensures forall k | 0 <= k < 512 * row || 512 * row + 512 <= k < 2560 :: s2pt[k] == old(s2pt[k])
    {
      var addr := c.TestPpageBase();
      for i := 0 to TEST_PAGE_MAX
        invariant addr == c.TestPpageBase() + i * PAGE
        invariant forall k | 512 * row <= k < 512 * row + i :: s2pt[k] == S2Entry(c, UNSWAPPED, k)
        invariant forall k | 0 <= k < 512 * row || 512 * row + 512 <= k < 2560 :: s2pt[k] == old(s2pt[k])
      {
        if i >= STRESS_START && i < STRESS_TOP {
          s2pt[512 * row + i] := Or(Or(addr / 4, PTE_AD), PTE_URWX);
        } else {
          s2pt[512 * row + i] := Or(Or(addr / 4, PTE_AD), c.perm2[i]);
        }
        addr := addr + PAGE;
      }
    }

    /** src/page_tables.c:267-274 */
    method S2ptInitSuperpages()
      requires Valid()
      modifies s2pt
      ensures forall k | 2048 <= k < 2560 :: s2pt[k] == S2Entry(c, UNSWAPPED, k)
      ensures forall k | 0 <= k < 2048 :: s2pt[k] == old(s2pt[k])
    {
      var addr := c.TestPpageBase();
      for i := 0 to 512
        invariant addr == c.TestPpageBase() + i * SUPERPAGE_2M
        invariant forall k | 2048 <= k < 2048 + i :: s2pt[k] == S2Entry(c, UNSWAPPED, k)
        invariant forall k | 0 <= k < 2048 :: s2pt[k] == old(s2pt[k])
      {
        s2pt[4 * 512 + i] := Or(addr / 4, PTE_URWX_AD);
        addr := addr + SUPERPAGE_2M;
      }
    }

    method S1ptSwitch()
      requires Valid()
      modifies s1pt
      ensures s1pt[..] == Swapped(old(s1pt[..]), S1_SWITCH1, S1_SWITCH2)
    {
      var temp := s1pt[S1_SWITCH1];
      s1pt[S1_SWITCH1] := s1pt[S1_SWITCH2];
      s1pt[S1_SWITCH2] := temp;
    }

    method S2ptSwitch()
      requires Valid()
      modifies s2pt
      ensures s2pt[..] == Swapped(old(s2pt[..]), S2_SWITCH1, S2_SWITCH2)
    {
      var temp := s2pt[S2_SWITCH1];
      s2pt[S2_SWITCH1] := s2pt[S2_SWITCH2];
      s2pt[S2_SWITCH2] := temp;
    }
  }
}
