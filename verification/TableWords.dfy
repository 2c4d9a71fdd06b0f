/** The words of the translation tables, read as the PTEs they encode. */
module TableWords {
  import Bits
  import opened PageWalk
  import opened PageTables

  const URWX := Rights(true, true, true, true, true)
  const RWX := Rights(true, true, true, true, false)
  const INVALID := Pte(0, Rights(false, false, false, false, false), false, false, false, false)

  function LeafTo(addr: nat, t: Rights): Pte {
    Pte(addr / PAGE, t, false, true, true, false)
  }

  function PointerTo(table: nat): Pte {
    Pte(table / PAGE, Rights(true, false, false, false, false), false, false, false, false)
  }

  lemma WordFields(q: nat, f: nat)
    requires f < 1024 && q < 0x1000_0000_0000
    ensures DecodePte(1024 * q + f) == Pte(q, RightsOf(f), f / 32 % 2 == 1, f / 64 % 2 == 1, f / 128 % 2 == 1, false)
  {
    PageNumber(q, f);
    Bit1(q, f);
    Bit2(q, f);
    Bit3(q, f);
    Bit4(q, f);
    Bit5(q, f);
    Bit6(q, f);
    Bit7(q, f);
  }

  lemma PageNumber(q: nat, f: nat)
    requires f < 1024 && q < 0x1000_0000_0000
    ensures (1024 * q + f) / 1024 % 0x1000_0000_0000 == q
  {
    Bits.DivUnique(1024 * q + f, 1024, q, f);
  }

  lemma Parity(m: nat, y: nat)
    ensures (2 * m + y) % 2 == y % 2
  {
  }

  lemma Bit1(q: nat, f: nat)
    ensures (1024 * q + f) / 2 % 2 == f / 2 % 2
  {
    Bits.DivUnique(1024 * q + f, 2, 512 * q + f / 2, f % 2);
    Parity(256 * q, f / 2);
  }

  lemma Bit2(q: nat, f: nat)
    ensures (1024 * q + f) / 4 % 2 == f / 4 % 2
  {
    Bits.DivUnique(1024 * q + f, 4, 256 * q + f / 4, f % 4);
    Parity(128 * q, f / 4);
  }

  lemma Bit3(q: nat, f: nat)
    ensures (1024 * q + f) / 8 % 2 == f / 8 % 2
  {
    Bits.DivUnique(1024 * q + f, 8, 128 * q + f / 8, f % 8);
    Parity(64 * q, f / 8);
  }

  lemma Bit4(q: nat, f: nat)
    ensures (1024 * q + f) / 16 % 2 == f / 16 % 2
  {
    Bits.DivUnique(1024 * q + f, 16, 64 * q + f / 16, f % 16);
    Parity(32 * q, f / 16);
  }

  lemma Bit5(q: nat, f: nat)
    ensures (1024 * q + f) / 32 % 2 == f / 32 % 2
  {
    Bits.DivUnique(1024 * q + f, 32, 32 * q + f / 32, f % 32);
    Parity(16 * q, f / 32);
  }

  lemma Bit6(q: nat, f: nat)
    ensures (1024 * q + f) / 64 % 2 == f / 64 % 2
  {
    Bits.DivUnique(1024 * q + f, 64, 16 * q + f / 64, f % 64);
    Parity(8 * q, f / 64);
  }

  lemma Bit7(q: nat, f: nat)
    ensures (1024 * q + f) / 128 % 2 == f / 128 % 2
  {
    Bits.DivUnique(1024 * q + f, 128, 8 * q + f / 128, f % 128);
    Parity(4 * q, f / 128);
  }

  lemma Quarter(addr: nat)
    requires addr % 0x1000 == 0
    ensures addr / 4 == 1024 * (addr / 0x1000)
  {
  }

  // In the next three, `w` is a table word and `p` what is expected of it.

  lemma DecodePointer(w: nat, p: Pte, table: nat)
    requires w == Pointer(table) && p == PointerTo(table)
    requires table % 0x1000 == 0 && table < 0x100_0000_0000_0000
    ensures DecodePte(w) == p
  {
    var q := table / 0x1000;
    assert w == 1024 * q + 1 by { Quarter(table); }
    WordFields(q, 1);
  }

  lemma DecodeLeaf(w: nat, p: Pte, addr: nat, flags: nat)
    requires w == addr / 4 + flags && p == LeafTo(addr, if flags == PTE_URWX_AD then URWX else RWX)
    requires addr % 0x1000 == 0 && addr < 0x100_0000_0000_0000
    requires flags == PTE_URWX_AD || flags == PTE_RWX_AD
    ensures DecodePte(w) == p
  {
    var q := addr / 0x1000;
    assert w == 1024 * q + flags by { Quarter(addr); }
    WordFields(q, flags);
  }

  lemma DecodeTest(w: nat, p: Pte, addr: nat, perm: nat)
    requires w == TestPte(addr, perm) && p == LeafTo(addr, RightsOf(perm))
    requires addr % 0x1000 == 0 && addr < 0x100_0000_0000_0000 && Flags(perm)
    ensures DecodePte(w) == p
  {
    TestWord(addr, perm);
    var q, f := addr / 0x1000, PTE_AD + perm % 32;
    assert addr / 4 + f == 1024 * q + f by { Quarter(addr); }
    WordFields(q, f);
    LowFlags(perm);
    TopFlags(perm % 32);
  }

  lemma LowFlags(perm: nat)
    ensures RightsOf(PTE_AD + perm % 32) == RightsOf(perm)
  {
    var h, l := perm / 32, perm % 32;
    assert perm == 32 * h + l;
    LowRights(h, l);
    LowRights(6, l);
  }

  lemma LowRights(h: nat, l: nat)
    requires l < 32
    ensures RightsOf(32 * h + l) == RightsOf(l)
  {
    Low0(h, l);
    Low1(h, l);
    Low2(h, l);
    Low3(h, l);
    Low4(h, l);
  }

  lemma Low0(h: nat, l: nat)
    ensures (32 * h + l) % 2 == l % 2
  {
    Parity(16 * h, l);
  }

  lemma Low1(h: nat, l: nat)
    ensures (32 * h + l) / 2 % 2 == l / 2 % 2
  {
    Bits.DivUnique(32 * h + l, 2, 16 * h + l / 2, l % 2);
    Parity(8 * h, l / 2);
  }

  lemma Low2(h: nat, l: nat)
    ensures (32 * h + l) / 4 % 2 == l / 4 % 2
  {
    Bits.DivUnique(32 * h + l, 4, 8 * h + l / 4, l % 4);
    Parity(4 * h, l / 4);
  }

  lemma Low3(h: nat, l: nat)
    ensures (32 * h + l) / 8 % 2 == l / 8 % 2
  {
    Bits.DivUnique(32 * h + l, 8, 4 * h + l / 8, l % 8);
    Parity(2 * h, l / 8);
  }

  lemma Low4(h: nat, l: nat)
    ensures (32 * h + l) / 16 % 2 == l / 16 % 2
  {
    Bits.DivUnique(32 * h + l, 16, 2 * h + l / 16, l % 16);
    Parity(1 * h, l / 16);
  }

  lemma TopFlags(l: nat)
    requires l < 32
    ensures (PTE_AD + l) / 32 % 2 == 0 && (PTE_AD + l) / 64 % 2 == 1 && (PTE_AD + l) / 128 % 2 == 1
  {
  }

  function S1Pte(c: Config, v: View, k: nat): Pte
    requires c.Sized() && v.Valid() && k < 3072
  {
    if k < 512 then
      if k < 3 then LeafTo(k * SUPERPAGE_1G, URWX)
      else if k == 3 then PointerTo(c.s1Base + 0x1000)
      else if k == 4 then PointerTo(c.s1Base + 0x2000)
      else if k == 5 then PointerTo(c.s1Base + 0x5000)
      else INVALID
    else if k < 1024 then
      if k - 512 < c.Window() then LeafTo(3 * SUPERPAGE_1G + (k - 512) * SUPERPAGE_2M, URWX) else INVALID
    else if k < 1536 then
      if k == 1024 then PointerTo(c.s1Base + 0x3000) else if k == 1025 then PointerTo(c.s1Base + 0x4000) else INVALID
    else if k < 2048 then
      var page := v.FirstSlot(k - 1536);
      LeafTo(TEST_VPAGE_BASE + page * PAGE, RightsOf(Perm1(c, page)))
    else if k < 2560 then
      LeafTo(TEST_VPAGE_BASE + SUPERPAGE_2M + (k - 2048) * PAGE, RightsOf(Perm1(c, k - 2048)))
    else
      LeafTo(5 * SUPERPAGE_1G + (k - 2560) * SUPERPAGE_2M, RWX)
  }

  function RootPte(c: Config, k: nat): Pte {
    if k < 3 then LeafTo(k * SUPERPAGE_1G, URWX)
    else if k == 3 then PointerTo(c.s2Base)
    else if k == 4 || k == 2047 then PointerTo(c.s2Base + 0x1000)
    else if k == 5 then PointerTo(c.s2Base + 0x4000)
    else INVALID
  }

  /** The tables of the upper half of memory mean what they should only when that half is page-aligned. */
  function S2Pte(c: Config, v: View, k: nat): Pte
    requires c.Sized() && v.Valid() && k < 2560
  {
    if k < 512 then
      if k < c.Window() then LeafTo(c.memBase + k * SUPERPAGE_2M, URWX) else INVALID
    else if k < 1024 then
      if k == 512 || k == 1023 then PointerTo(c.s2Base + 0x2000)
      else if k == 513 then PointerTo(c.s2Base + 0x3000)
      else INVALID
    else if !c.PageAligned() then DecodePte(S2Entry(c, v, k))
    else if k < 1536 then
      var page := v.SecondSlot(k - 1024);
      LeafTo(c.TestPpageBase() + page * PAGE, RightsOf(Perm2(c, page)))
    else if k < 2048 then
      LeafTo(c.TestPpageBase() + (k - 1536) * PAGE, RightsOf(Perm2(c, k - 1536)))
    else
      LeafTo(c.TestPpageBase() + (k - 2048) * SUPERPAGE_2M, URWX)
  }

  lemma DecodeZero(w: nat)
    requires w == 0
    ensures DecodePte(w) == INVALID
  {
  }

  lemma SuperpageAddress(base: nat, k: nat)
    requires base % 0x1000 == 0
    ensures (base + k * SUPERPAGE_2M) % 0x1000 == 0
  {
    assert base + k * SUPERPAGE_2M == 0x1000 * (base / 0x1000 + 512 * k);
  }

  lemma PageAddress(base: nat, k: nat)
    requires base % PAGE == 0
    ensures (base + k * PAGE) % PAGE == 0
  {
  }

  lemma PermFlags(c: Config, i: nat)
    requires c.PermTable() && i < TEST_PAGE_MAX
    ensures Flags(Perm1(c, i)) && Flags(Perm2(c, i))
  {
  }

  lemma DecodeS1Root(c: Config, v: View, k: nat)
    requires c.Valid() && v.Valid() && k < 512
    ensures DecodePte(S1Entry(c, v, k)) == S1Pte(c, v, k)
  {
    if k < 3 {
      SuperpageAddress(0, 512 * k);
      DecodeLeaf(S1Entry(c, v, k), S1Pte(c, v, k), k * SUPERPAGE_1G, PTE_URWX_AD);
    } else if k == 3 {
      DecodePointer(S1Entry(c, v, k), S1Pte(c, v, k), c.s1Base + 0x1000);
    } else if k == 4 {
      DecodePointer(S1Entry(c, v, k), S1Pte(c, v, k), c.s1Base + 0x2000);
    } else if k == 5 {
      DecodePointer(S1Entry(c, v, k), S1Pte(c, v, k), c.s1Base + 0x5000);
    }
  }

  lemma DecodeS1Superpages(c: Config, v: View, k: nat)
    requires c.Valid() && v.Valid() && (512 <= k < 1024 || 2560 <= k < 3072)
    ensures DecodePte(S1Entry(c, v, k)) == S1Pte(c, v, k)
  {
    if k < 1024 {
      if k - 512 < c.Window() {
        SuperpageAddress(3 * SUPERPAGE_1G, k - 512);
        DecodeLeaf(S1Entry(c, v, k), S1Pte(c, v, k), 3 * SUPERPAGE_1G + (k - 512) * SUPERPAGE_2M, PTE_URWX_AD);
      } else {
        DecodeZero(S1Entry(c, v, k));
      }
    } else {
      SuperpageAddress(5 * SUPERPAGE_1G, k - 2560);
      DecodeLeaf(S1Entry(c, v, k), S1Pte(c, v, k), 5 * SUPERPAGE_1G + (k - 2560) * SUPERPAGE_2M, PTE_RWX_AD);
    }
  }

  lemma DecodeS1Middle(c: Config, v: View, k: nat)
    requires c.Valid() && v.Valid() && 1024 <= k < 1536
    ensures DecodePte(S1Entry(c, v, k)) == S1Pte(c, v, k)
  {
    if k == 1024 {
      DecodePointer(S1Entry(c, v, k), S1Pte(c, v, k), c.s1Base + 0x3000);
    } else if k == 1025 {
      DecodePointer(S1Entry(c, v, k), S1Pte(c, v, k), c.s1Base + 0x4000);
    }
  }

  lemma DecodeS1Pages(c: Config, v: View, k: nat)
    requires c.Valid() && c.PermTable() && v.Valid() && 1536 <= k < 2560
    ensures DecodePte(S1Entry(c, v, k)) == S1Pte(c, v, k)
  {
    var page := if k < 2048 then v.FirstSlot(k - 1536) else k - 2048;
    var base := if k < 2048 then TEST_VPAGE_BASE else TEST_VPAGE_BASE + SUPERPAGE_2M;
    assert (base + page * PAGE) % 0x1000 == 0 by { PageAddress(base, page); }
    assert Flags(Perm1(c, page)) by { PermFlags(c, page); }
    DecodeTest(S1Entry(c, v, k), S1Pte(c, v, k), base + page * PAGE, Perm1(c, page));
  }

  lemma DecodeS1(c: Config, v: View, k: nat)
    requires c.Valid() && c.PermTable() && v.Valid() && k < 3072
    ensures DecodePte(S1Entry(c, v, k)) == S1Pte(c, v, k)
  {
    if k < 512 {
      DecodeS1Root(c, v, k);
    } else if 1536 <= k < 2560 {
      DecodeS1Pages(c, v, k);
    } else if 1024 <= k < 1536 {
      DecodeS1Middle(c, v, k);
    } else {
      DecodeS1Superpages(c, v, k);
    }
  }

  lemma DecodeRoot(c: Config, k: nat)
    requires c.Valid() && k < 2048
    ensures DecodePte(RootEntry(c, k)) == RootPte(c, k)
  {
    if k < 3 {
      SuperpageAddress(0, 512 * k);
      DecodeLeaf(RootEntry(c, k), RootPte(c, k), k * SUPERPAGE_1G, PTE_URWX_AD);
    } else if k == 3 {
      DecodePointer(RootEntry(c, k), RootPte(c, k), c.s2Base);
    } else if k == 4 || k == 2047 {
      DecodePointer(RootEntry(c, k), RootPte(c, k), c.s2Base + 0x1000);
    } else if k == 5 {
      DecodePointer(RootEntry(c, k), RootPte(c, k), c.s2Base + 0x4000);
    }
  }

  lemma DecodeS2Superpages(c: Config, v: View, k: nat)
    requires c.Valid() && v.Valid() && k < 512
    ensures DecodePte(S2Entry(c, v, k)) == S2Pte(c, v, k)
  {
    if k < c.Window() {
      SuperpageAddress(c.memBase, k);
      DecodeLeaf(S2Entry(c, v, k), S2Pte(c, v, k), c.memBase + k * SUPERPAGE_2M, PTE_URWX_AD);
    } else {
      DecodeZero(S2Entry(c, v, k));
    }
  }

  lemma DecodeS2Middle(c: Config, v: View, k: nat)
    requires c.Valid() && v.Valid() && 512 <= k < 1024
    ensures DecodePte(S2Entry(c, v, k)) == S2Pte(c, v, k)
  {
    if k == 512 || k == 1023 {
      DecodePointer(S2Entry(c, v, k), S2Pte(c, v, k), c.s2Base + 0x2000);
    } else if k == 513 {
      DecodePointer(S2Entry(c, v, k), S2Pte(c, v, k), c.s2Base + 0x3000);
    }
  }

  lemma DecodeS2Pages(c: Config, v: View, k: nat)
    requires c.Valid() && c.PermTable() && c.PageAligned() && v.Valid() && 1024 <= k < 2048
    ensures DecodePte(S2Entry(c, v, k)) == S2Pte(c, v, k)
  {
    var page := if k < 1536 then v.SecondSlot(k - 1024) else k - 1536;
    var base := c.TestPpageBase();
    assert (base + page * PAGE) % 0x1000 == 0 by {
      TestPpageAligned(c);
      PageAddress(base, page);
    }
    assert Flags(Perm2(c, page)) by { PermFlags(c, page); }
    DecodeTest(S2Entry(c, v, k), S2Pte(c, v, k), base + page * PAGE, Perm2(c, page));
  }

  lemma DecodeS2Top(c: Config, v: View, k: nat)
    requires c.Valid() && c.PageAligned() && v.Valid() && 2048 <= k < 2560
    ensures DecodePte(S2Entry(c, v, k)) == S2Pte(c, v, k)
  {
    var addr := c.TestPpageBase() + (k - 2048) * SUPERPAGE_2M;
    assert addr % 0x1000 == 0 by {
      TestPpageAligned(c);
      SuperpageAddress(c.TestPpageBase(), k - 2048);
    }
    LeafWord(addr, PTE_URWX_AD);
    DecodeLeaf(S2Entry(c, v, k), S2Pte(c, v, k), addr, PTE_URWX_AD);
  }

  lemma DecodeS2(c: Config, v: View, k: nat)
    requires c.Valid() && c.PermTable() && v.Valid() && k < 2560
    ensures DecodePte(S2Entry(c, v, k)) == S2Pte(c, v, k)
  {
    if k < 512 {
      DecodeS2Superpages(c, v, k);
    } else if k < 1024 {
      DecodeS2Middle(c, v, k);
    } else if c.PageAligned() {
      if k < 2048 {
        DecodeS2Pages(c, v, k);
      } else {
        DecodeS2Top(c, v, k);
      }
    }
  }

  lemma TestPpageAligned(c: Config)
    requires c.memBase % SUPERPAGE_1G == 0 && c.PageAligned()
    ensures c.TestPpageBase() % 0x1000 == 0
    ensures c.SuperpageAligned() <==> c.TestPpageBase() % SUPERPAGE_2M == 0
  {
    var b, h := c.memBase / SUPERPAGE_1G, c.memSize / 2 / 0x1000;
    assert c.TestPpageBase() == 0x1000 * (0x4_0000 * b + h);
    Bits.DivUnique(c.TestPpageBase(), 0x1000, 0x4_0000 * b + h, 0);
    var q, r := h / 512, h % 512;
    Bits.DivUnique(c.TestPpageBase(), SUPERPAGE_2M, 512 * b + q, 0x1000 * r);
    Bits.DivUnique(c.memSize / 2, SUPERPAGE_2M, q, 0x1000 * r);
  }
}
