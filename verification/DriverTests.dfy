/** What the tests in src/rv_iommu_tests.c check, in the platform's own numbers: addresses, flag bits and cause codes
    rather than the names of this project. */
module DriverTests {
  import Bits
  import Msi
  import Commands
  import Rings
  import DC = DeviceContext
  import Iotlb
  import IotlbRuns
  import IotlbTest
  import opened PageWalk
  import opened PageTables
  import opened TableWords
  import opened Translation
  import opened TwoStage
  import opened Swaps
  import opened Requests

  // ---------------------------------------------------------------------------------------------
  // Any platform and any permission table.

  lemma GrantsByBits(stage: Stage, flags: nat, acc: Access)
    ensures Grants(stage, flags, acc) <==> May(stage, flags, acc)
  {
    AllowsByBits(stage, flags, acc);
  }

  /** An access to a test page outside the stress range, by the flag bytes of the two columns of the permission
      table: a page fault unless the first allows it, then a guest page fault unless the second does, and else
      the page's own place in the upper half of memory, which is inside memory. */
  lemma PageByBits(c: Config, page: nat, o: nat, acc: Access)
    requires c.Nestable() && c.PermTable() && c.PageAligned()
    requires page < 512 && !(29 <= page < 61) && o < 0x1000
    ensures var out := Translate(c, UNSWAPPED, 0x1_0000_0000 + page * 0x1000 + o, acc);
      && (out == PageFault <==> !May(Sv39, c.perm1[page], acc))
      && (out == GuestFault <==> May(Sv39, c.perm1[page], acc) && !May(Sv39x4, c.perm2[page], acc))
      && (May(Sv39, c.perm1[page], acc) && May(Sv39x4, c.perm2[page], acc) ==>
            out == Mapped(c.memBase + c.memSize / 2 + page * 0x1000 + o)
            && c.memBase <= out.pa < c.memBase + c.memSize)
  {
    PageOutcome(c, UNSWAPPED, page, o, acc);
    GrantsByBits(Sv39, c.perm1[page], acc);
    GrantsByBits(Sv39x4, c.perm2[page], acc);
  }

  /** The stress pages are there for every access but a supervisor's that may not touch user pages. */
  lemma StressPages(c: Config, page: nat, o: nat, acc: Access)
    requires c.Nestable() && c.PermTable() && c.PageAligned()
    requires 29 <= page < 61 && o < 0x1000
    ensures Translate(c, UNSWAPPED, 0x1_0000_0000 + page * 0x1000 + o, acc)
         == if acc.supervisor && !(acc.sum && acc.kind != Exec) then PageFault
            else Mapped(c.memBase + c.memSize / 2 + page * 0x1000 + o)
  {
    PageOutcome(c, UNSWAPPED, page, o, acc);
    FullFlags(Perm1(c, page), acc);
    FullFlags(Perm2(c, page), acc);
  }

  lemma FullFlags(flags: nat, acc: Access)
    requires flags == 0x1F
    ensures Grants(Sv39, flags, acc) <==> !acc.supervisor || (acc.sum && acc.kind != Exec)
    ensures Grants(Sv39x4, flags, acc)
  {
  }

  /** The two swapped pages after any run of swaps: SWITCH1 at 0x1_0001_B000 and SWITCH2 at 0x1_0001_C000 share the
      two pages at the same offsets of the upper half, each its own exactly after an even number of swaps. */
  lemma SwitchedPages(c: Config, ops: seq<Swap>, o: nat, acc: Access)
    requires c.Nestable() && c.PermTable() && c.PageAligned() && o < 0x1000
    requires forall page | page in {27, 28} :: May(Sv39, c.perm1[page], acc) && May(Sv39x4, c.perm2[page], acc)
    ensures var own := |ops| % 2 == 0;
      && TranslateAfter(c, ops, 0x1_0001_B000 + o, acc)
         == Mapped(c.memBase + c.memSize / 2 + (if own then 0x1_B000 else 0x1_C000) + o)
      && TranslateAfter(c, ops, 0x1_0001_C000 + o, acc)
         == Mapped(c.memBase + c.memSize / 2 + (if own then 0x1_C000 else 0x1_B000) + o)
  {
    SwitchedPage(c, ops, true, o, acc);
    SwitchedPage(c, ops, false, o, acc);
  }

  lemma SwitchedPage(c: Config, ops: seq<Swap>, first: bool, o: nat, acc: Access)
    requires c.Nestable() && c.PermTable() && c.PageAligned() && o < 0x1000
    requires forall page | page in {27, 28} :: May(Sv39, c.perm1[page], acc) && May(Sv39x4, c.perm2[page], acc)
    ensures TranslateAfter(c, ops, (if first then 0x1_0001_B000 else 0x1_0001_C000) + o, acc)
         == Mapped(c.memBase + c.memSize / 2 + (if first == (|ops| % 2 == 0) then 0x1_B000 else 0x1_C000) + o)
  {
    forall page | page in {27, 28}
      ensures Grants(Sv39, Perm1(c, page), acc) && Grants(Sv39x4, Perm2(c, page), acc)
    {
      GrantsByBits(Sv39, c.perm1[page], acc);
      GrantsByBits(Sv39x4, c.perm2[page], acc);
    }
    SwitchParity(c, ops, first, o, acc);
    SwitchedResult(c, GuestPage(ops, first), FinalPage(ops, first), o, acc);
  }

  lemma SwitchedResult(c: Config, gpage: nat, ppage: nat, o: nat, acc: Access)
    requires c.Sized() && gpage in {27, 28} && ppage in {27, 28}
    requires Grants(Sv39, Perm1(c, gpage), acc) && Grants(Sv39x4, Perm2(c, ppage), acc)
    ensures PageResult(c, gpage, ppage, o, acc)
         == Mapped(c.memBase + c.memSize / 2 + (if ppage == 27 then 0x1_B000 else 0x1_C000) + o)
  {
  }

  /** User accesses below 4 GiB, and supervisor accesses to the 5 GiB window. */
  lemma Windows(c: Config, va: nat, acc: Access)
    requires c.Nestable() && c.PermTable()
    ensures va < 0xC000_0000 && !acc.supervisor ==> Translate(c, UNSWAPPED, va, acc) == Mapped(va)
    ensures 0xC000_0000 <= va < 0x1_0000_0000 && !acc.supervisor ==>
      Translate(c, UNSWAPPED, va, acc)
        == if va - 0xC000_0000 < c.memSize / 0x20_0000 / 2 * 0x20_0000 then Mapped(va - 0xC000_0000 + c.memBase)
           else PageFault
    ensures 0x1_4000_0000 <= va < 0x1_8000_0000 && c.PageAligned() ==>
      Translate(c, UNSWAPPED, va, acc)
        == if !acc.supervisor then PageFault
           else if c.memSize / 2 % 0x20_0000 != 0 then GuestFault
           else Mapped(va - 0x1_4000_0000 + c.memBase + c.memSize / 2)
  {
    if va < 0x1_0000_0000 && !acc.supervisor {
      LowWindows(c, UNSWAPPED, va, acc);
    } else if 0x1_4000_0000 <= va < 0x1_8000_0000 && c.PageAligned() {
      SupervisorWindow(c, UNSWAPPED, va - 0x1_4000_0000, acc);
    }
  }

  // ---------------------------------------------------------------------------------------------
  // The platform of platform/cva6/inc/platform.h and the permission table of src/page_tables.c:20-57.

  /** V is 1, R 2, W 4, X 8, U 16. */
  function Column1(page: nat): nat {
    if page < 8 then 0x1F
    else if page < 11 then 0
    else if page < 15 then 0x13
    else if page == 15 then 0x17
    else if page < 18 then 0x13
    else if page == 18 || page == 20 then 0x19
    else if page == 19 || page == 21 then 0x17
    else if page < 24 then 0x1F
    else if page < 27 then 0x13
    else if page < 29 then 0x1F
    else if page in {258, 262, 384, 386, 390} then 0x1F
    else if page == 511 then 0x0F
    else 0
  }

  function Column2(page: nat): nat {
    if page < 8 then 0x1F
    else if page == 9 then 0x17
    else if page < 15 then 0x13
    else if page == 15 then 0x17
    else if page < 19 then 0x13
    else if page == 19 || page == 21 then 0x1B
    else if page == 20 then 0x13
    else if page < 24 then 0x1F
    else if page < 27 then 0x13
    else if page < 29 then 0x1F
    else if page in {258, 262, 384, 386, 390, 511} then 0x1F
    else 0
  }

  function Cva6(s1: nat, root: nat, s2: nat): (c: Config)
    ensures c.Sized()
  {
    Config(0x8000_0000, 0x1000_0000, s1, root, s2,
           seq(512, i requires 0 <= i < 512 => Column1(i)), seq(512, i requires 0 <= i < 512 => Column2(i)))
  }

  /** The driver's own table and memory are as the general results ask; the linker script puts the tables in the
      first 2 MiB of RAM. */
  lemma Cva6Fits(s1: nat, root: nat, s2: nat)
    requires s1 % 0x1000 == 0 && root % 0x4000 == 0 && s2 % 0x1000 == 0
    requires 0x8000_0000 <= s1 && s1 + 0x6000 <= 0x801F_F000
    requires 0x8000_0000 <= root && root + 0x4000 <= 0x801F_F000
    requires 0x8000_0000 <= s2 && s2 + 0x5000 <= 0x801F_F000
    requires s1 + 0x6000 <= root || root + 0x4000 <= s1
    requires s1 + 0x6000 <= s2 || s2 + 0x5000 <= s1
    requires root + 0x4000 <= s2 || s2 + 0x5000 <= root
    ensures var c := Cva6(s1, root, s2);
      c.Nestable() && c.PermTable() && c.PageAligned() && c.SuperpageAligned()
  {
  }

  predicate OnCva6(y: System) {
    y.Valid() && y.c == Cva6(y.c.s1Base, y.c.rootBase, y.c.s2Base) && y.msiBase == 0x8400_0000
  }

  function User(kind: Kind): Access {
    Access(kind, false, false)
  }

  /** Pages below 256 are no interrupt files, at their virtual and at their physical addresses. */
  lemma OrdinaryPages(number: nat)
    requires number / 256 % 2 == 0
    ensures !Msi.Matches(number, Msi.MSI_ADDR_MASK, Msi.MSI_ADDR_PATTERN)
  {
    var x, m, p := number, Msi.MSI_ADDR_MASK, Msi.MSI_ADDR_PATTERN;
    assert Bits.Pow2(8) == 256;
    Bits.BitIs(x, 8);
    Bits.BitIs(m, 8);
    Bits.BitIs(p, 8);
    Bits.AndNotBit(x, m, 8);
    Bits.AndNotBit(p, m, 8);
  }

  /** The answer for an ordinary test page by its flag bytes. */
  lemma OrdinaryRequest(y: System, before: seq<DC.Dc>, ss: seq<DC.Setter>, did: nat, page: nat, o: nat, kind: Kind)
    requires OnCva6(y) && |before| == 64 && 1 <= did <= 15 && page < 29 && o < 0x1000
    ensures var m := DC.LastModes(DC.ALL_OFF, ss);
      Request(y, before, ss, did, 0x1_0000_0000 + page * 0x1000 + o, User(kind))
        == Plain(if m.sv39 && !UserMay(Column1(page), kind) then PageFault
                 else if !m.sv39x4 then Mapped(0x1_0000_0000 + page * 0x1000 + o)
                 else if !UserMay(Column2(page), kind) then GuestFault
                 else Mapped(0x8800_0000 + page * 0x1000 + o))
  {
    TestPageRequest(y, before, ss, did, page, o, User(kind));
    OrdinaryAnswer(y, DC.LastModes(DC.ALL_OFF, ss), page, o, kind);
  }

  lemma TestPageRequest(y: System, before: seq<DC.Dc>, ss: seq<DC.Setter>, did: nat, page: nat, o: nat, acc: Access)
    requires OnCva6(y) && |before| == 64 && 1 <= did <= 15 && page < 512 && o < 0x1000
    ensures Request(y, before, ss, did, 0x1_0000_0000 + page * 0x1000 + o, acc)
         == PageAnswer(y, DC.LastModes(DC.ALL_OFF, ss), page, o, acc)
  {
    assert y.c.PageAligned();
    PageRequest(y, before, ss, did, page, o, acc);
  }

  lemma Cva6Pages(y: System, page: nat)
    requires OnCva6(y) && page < 512 && !(29 <= page < 61)
    ensures Perm1(y.c, page) == Column1(page) && Perm2(y.c, page) == Column2(page)
    ensures y.c.PageAligned() && PhysPageBase(y.c, page).value == 0x8800_0000 + page * 0x1000
  {
  }

  lemma OrdinaryAnswer(y: System, m: DC.Modes, page: nat, o: nat, kind: Kind)
    requires OnCva6(y) && page < 29
    ensures PageAnswer(y, m, page, o, User(kind))
         == Plain(if m.sv39 && !UserMay(Column1(page), kind) then PageFault
                  else if !m.sv39x4 then Mapped(0x1_0000_0000 + page * 0x1000 + o)
                  else if !UserMay(Column2(page), kind) then GuestFault
                  else Mapped(0x8800_0000 + page * 0x1000 + o))
  {
    Cva6Pages(y, page);
    assert !IsFile(0x10_0000 + page) by { OrdinaryPages(0x10_0000 + page); }
    GrantsByBits(Sv39, Column1(page), User(kind));
    GrantsByBits(Sv39x4, Column2(page), User(kind));
  }

  /** What the flag bytes of the table allow a user. */
  lemma FlagBytes(kind: Kind)
    ensures UserMay(0x1F, kind) && !UserMay(0, kind) && !UserMay(0x0F, kind)
    ensures UserMay(0x13, kind) <==> kind == Read
    ensures UserMay(0x17, kind) <==> kind != Exec
    ensures UserMay(0x19, kind) <==> kind == Exec
    ensures UserMay(0x1B, kind) <==> kind != Write
  {
    Bytes(0x1F, kind);
    Bytes(0, kind);
    Bytes(0x0F, kind);
    Bytes(0x13, kind);
    Bytes(0x17, kind);
    Bytes(0x19, kind);
    Bytes(0x1B, kind);
  }

  lemma Bytes(w: nat, kind: Kind)
    ensures UserMay(w, kind) <==>
      && w % 2 == 1 && w / 16 % 2 == 1
      && (if kind == Read then w / 2 % 2 else if kind == Write then w / 4 % 2 else w / 8 % 2) == 1
  {
    FlagBits(w);
  }

  const TWO_STAGE: seq<DC.Setter> := [DC.IosatpSv39, DC.IohgatpSv39x4, DC.MsiFlat]
  const SECOND_ONLY: seq<DC.Setter> := [DC.IosatpBare, DC.IohgatpSv39x4, DC.MsiFlat]
  const BOTH_BARE: seq<DC.Setter> := [DC.IosatpBare, DC.IohgatpBare]

  lemma LastOnes(ss: seq<DC.Setter>, m: DC.Modes)
    ensures DC.LastModes(m, ss + TWO_STAGE) == DC.Modes(true, true, true)
    ensures DC.LastModes(m, ss + SECOND_ONLY) == DC.Modes(false, true, true)
    ensures var last := DC.LastModes(m, ss + BOTH_BARE); !last.sv39 && !last.sv39x4
    decreases |ss|
  {
    if ss == [] {
      assert ss + TWO_STAGE == TWO_STAGE && ss + SECOND_ONLY == SECOND_ONLY && ss + BOTH_BARE == BOTH_BARE;
      LastOfThree(m, DC.IosatpSv39, DC.IohgatpSv39x4, DC.MsiFlat);
      LastOfThree(m, DC.IosatpBare, DC.IohgatpSv39x4, DC.MsiFlat);
      LastOfTwo(m, DC.IosatpBare, DC.IohgatpBare);
    } else {
      assert (ss + TWO_STAGE)[1..] == ss[1..] + TWO_STAGE;
      assert (ss + SECOND_ONLY)[1..] == ss[1..] + SECOND_ONLY;
      assert (ss + BOTH_BARE)[1..] == ss[1..] + BOTH_BARE;
      LastOnes(ss[1..], DC.Switch(m, ss[0]));
    }
  }

  lemma LastOfTwo(m: DC.Modes, a: DC.Setter, b: DC.Setter)
    ensures DC.LastModes(m, [a, b]) == DC.Switch(DC.Switch(m, a), b)
  {
    assert [a, b][1..] == [b] && [b][1..] == [];
    assert DC.LastModes(DC.Switch(m, a), [b]) == DC.Switch(DC.Switch(m, a), b);
  }

  lemma LastOfThree(m: DC.Modes, a: DC.Setter, b: DC.Setter, c: DC.Setter)
    ensures DC.LastModes(m, [a, b, c]) == DC.Switch(DC.Switch(DC.Switch(m, a), b), c)
  {
    assert [a, b, c][1..] == [b, c];
    LastOfTwo(DC.Switch(m, a), b, c);
  }

  /** `two_stage_translation`, whatever setters ran before: TWO_STAGE_R4K, R2M, R1G and MSI_R2 are read at
      0x8800_B000 to 0x8800_EFFF, and TWO_STAGE_W4K is written at 0x8800_F000. */
  lemma TwoStageTest(y: System, before: seq<DC.Dc>, ss: seq<DC.Setter>, did: nat, page: nat, o: nat)
    requires OnCva6(y) && |before| == 64 && 1 <= did <= 15 && o < 0x1000
    ensures 11 <= page <= 14 ==>
      Request(y, before, ss + TWO_STAGE, did, 0x1_0000_0000 + page * 0x1000 + o, User(Read))
        == Plain(Mapped(0x8800_0000 + page * 0x1000 + o))
    ensures Request(y, before, ss + TWO_STAGE, did, 0x1_0000_F000 + o, User(Write)) == Plain(Mapped(0x8800_F000 + o))
  {
    LastOnes(ss, DC.ALL_OFF);
    FlagBytes(Read);
    FlagBytes(Write);
    if 11 <= page <= 14 {
      OrdinaryRequest(y, before, ss + TWO_STAGE, did, page, o, Read);
    }
    OrdinaryRequest(y, before, ss + TWO_STAGE, did, 15, o, Write);
  }

  /** Its two superpage transfers, to 0xC400_0000 and 0x8000_0000. */
  lemma SuperpagesTest(y: System, before: seq<DC.Dc>, ss: seq<DC.Setter>, did: nat, o: nat)
    requires OnCva6(y) && |before| == 64 && 1 <= did <= 15 && o < 0x1000
    ensures Request(y, before, ss + TWO_STAGE, did, 0xC400_0000 + o, User(Write)) == Plain(Mapped(0x8400_0000 + o))
    ensures Request(y, before, ss + TWO_STAGE, did, 0x8000_0000 + o, User(Write)) == Plain(Mapped(0x8000_0000 + o))
  {
    LastOnes(ss, DC.ALL_OFF);
    LowRequest(y, before, ss + TWO_STAGE, did, 0xC400_0000 + o, 0xC_4000);
    LowRequest(y, before, ss + TWO_STAGE, did, 0x8000_0000 + o, 0x8_0000);
    Windows(y.c, 0xC400_0000 + o, User(Write));
    Windows(y.c, 0x8000_0000 + o, User(Write));
  }

  /** An ordinary address below 4 GiB that the first stage leaves alone. */
  lemma LowRequest(y: System, before: seq<DC.Dc>, ss: seq<DC.Setter>, did: nat, va: nat, number: nat)
    requires OnCva6(y) && |before| == 64 && 1 <= did <= 15 && va < 0xC800_0000
    requires DC.LastModes(DC.ALL_OFF, ss) == DC.Modes(true, true, true)
    requires number == va / 0x1000 && number / 256 % 2 == 0
    ensures Request(y, before, ss, did, va, User(Write)) == Plain(Translate(y.c, UNSWAPPED, va, User(Write)))
  {
    OrdinaryPages(number);
    RequestAnswer(y, before, ss, did, va, User(Write));
    FirstIs(y.c, UNSWAPPED, va, User(Write));
  }

  /** `second_stage_only`: S2_ONLY_R is read at 0x8800_8000 and S2_ONLY_W written at 0x8800_9000, although the first
      stage's column of the table allows neither. */
  lemma SecondStageOnlyTest(y: System, before: seq<DC.Dc>, ss: seq<DC.Setter>, did: nat, o: nat)
    requires OnCva6(y) && |before| == 64 && 1 <= did <= 15 && o < 0x1000
    ensures Request(y, before, ss + SECOND_ONLY, did, 0x1_0000_8000 + o, User(Read)) == Plain(Mapped(0x8800_8000 + o))
    ensures Request(y, before, ss + SECOND_ONLY, did, 0x1_0000_9000 + o, User(Write)) == Plain(Mapped(0x8800_9000 + o))
  {
    LastOnes(ss, DC.ALL_OFF);
    FlagBytes(Read);
    FlagBytes(Write);
    OrdinaryRequest(y, before, ss + SECOND_ONLY, did, 8, o, Read);
    OrdinaryRequest(y, before, ss + SECOND_ONLY, did, 9, o, Write);
  }

  /** `both_stages_bare`: the device reaches the physical addresses it asks for. */
  lemma BothBareTest(y: System, before: seq<DC.Dc>, ss: seq<DC.Setter>, did: nat, page: nat, o: nat, kind: Kind)
    requires OnCva6(y) && |before| == 64 && 1 <= did <= 15 && page < 256 && o < 0x1000
    ensures Request(y, before, ss + BOTH_BARE, did, 0x8800_0000 + page * 0x1000 + o, User(kind))
         == Plain(Mapped(0x8800_0000 + page * 0x1000 + o))
  {
    var a := 0x8800_0000 + page * 0x1000 + o;
    LastOnes(ss, DC.ALL_OFF);
    Bits.DivUnique(a, 0x1000, 0x8_8000 + page, o);
    Bits.DivUnique(0x8_8000 + page, 256, 0x880, page);
    OrdinaryPages(0x8_8000 + page);
    RequestAnswer(y, before, ss + BOTH_BARE, did, a, User(kind));
  }

  /** `wsi_generation` and `msi_generation`: reading WSI_R or MSI_GEN_R is refused by the first stage, cause 13, and
      writing WSI_W or MSI_GEN_W by the second, cause 23. */
  lemma FaultTests(y: System, before: seq<DC.Dc>, ss: seq<DC.Setter>, did: nat, o: nat)
    requires OnCva6(y) && |before| == 64 && 1 <= did <= 15 && o < 0x1000
    ensures Request(y, before, ss + TWO_STAGE, did, 0x1_0001_2000 + o, User(Read)) == Plain(PageFault)
    ensures Request(y, before, ss + TWO_STAGE, did, 0x1_0001_3000 + o, User(Write)) == Plain(GuestFault)
    ensures Request(y, before, ss + TWO_STAGE, did, 0x1_0001_4000 + o, User(Read)) == Plain(PageFault)
    ensures Request(y, before, ss + TWO_STAGE, did, 0x1_0001_5000 + o, User(Write)) == Plain(GuestFault)
    ensures Cause(PageFault, Read) == 13 && Cause(GuestFault, Write) == 23
  {
    LastOnes(ss, DC.ALL_OFF);
    FlagBytes(Read);
    FlagBytes(Write);
    OrdinaryRequest(y, before, ss + TWO_STAGE, did, 18, o, Read);
    OrdinaryRequest(y, before, ss + TWO_STAGE, did, 19, o, Write);
    OrdinaryRequest(y, before, ss + TWO_STAGE, did, 20, o, Read);
    OrdinaryRequest(y, before, ss + TWO_STAGE, did, 21, o, Write);
  }

  /** The five interrupt files among the test pages: two basic pages, the two MRIF entries and the custom one. */
  function FileEntry(page: nat, mrif: nat): Msi.MsiEntry {
    if page == 258 then Msi.Basic(0x8_4011)
    else if page == 262 then Msi.Basic(0x8_4013)
    else if page == 384 then Msi.ToMrif(mrif, 0x8_3008, 0x7AC)
    else if page == 386 then Msi.ToMrif(mrif, 0x8_3009, 0x7AC)
    else Msi.Custom
  }

  /** Written with the MSI table on, by the second stage only or by both, each finds its entry: MSI_W1 the page
      0x8401_1000, MSI_W2 0x8401_3000, MSI_W3 and MSI_W4 the interrupt file with notices to 0x8300_8000 and
      0x8300_9000, MSI_W5 the custom format. */
  lemma InterruptFileTests(y: System, before: seq<DC.Dc>, ss: seq<DC.Setter>, both: bool, did: nat, page: nat, o: nat)
    requires OnCva6(y) && |before| == 64 && 1 <= did <= 15 && o < 0x1000
    requires page in {258, 262, 384, 386, 390}
    ensures Request(y, before, ss + (if both then TWO_STAGE else SECOND_ONLY), did,
                    0x1_0000_0000 + page * 0x1000 + o, User(Write))
         == ToFile(FileEntry(page, y.mrif))
  {
    var run := ss + (if both then TWO_STAGE else SECOND_ONLY);
    LastOnes(ss, DC.ALL_OFF);
    TestPageRequest(y, before, run, did, page, o, User(Write));
    FileAnswer(y, DC.LastModes(DC.ALL_OFF, run), page, o);
  }

  lemma FileAnswer(y: System, m: DC.Modes, page: nat, o: nat)
    requires OnCva6(y) && m.flat && page in {258, 262, 384, 386, 390}
    ensures PageAnswer(y, m, page, o, User(Write)) == ToFile(FileEntry(page, y.mrif))
  {
    var k := if page == 258 then 17 else if page == 262 then 19
      else if page == 384 then 20 else if page == 386 then 21 else 23;
    Cva6Pages(y, page);
    Msi.TestFile(page, k);
    assert Grants(Sv39, Column1(page), User(Write)) by {
      FlagBytes(Write);
      GrantsByBits(Sv39, 0x1F, User(Write));
    }
    FileEntries(page, k, y.mrif);
  }

  lemma FileEntries(page: nat, k: nat, mrif: nat)
    requires (page, k) in {(258, 17), (262, 19), (384, 20), (386, 21), (390, 23)}
    ensures Msi.FlatEntry(0x8400_0000, mrif, k) == FileEntry(page, mrif)
  {
  }

  // ---------------------------------------------------------------------------------------------
  // What swaps leave alone, by addresses.

  /** A swap, whole or half done, concerns two pages of guest virtual addresses. */
  lemma OtherPagesKeep(c: Config, v: View, w: View, va: nat, acc: Access)
    requires c.Nestable() && c.PermTable() && v.Valid() && w.Valid()
    requires !(0x1_0001_B000 <= va < 0x1_0001_D000)
    ensures Translate(c, v, va, acc) == Translate(c, w, va, acc)
  {
    SwapsFrame(c, v, w, va, acc);
  }

  /** The two pages above `base`. */
  predicate PairAt(gpa: nat, base: nat) {
    base + 0x1_B000 <= gpa < base + 0x1_D000
  }

  /** And the same two pages in the four places where the second stage maps them. */
  lemma OtherGuestPagesKeep(c: Config, v: View, w: View, gpa: nat, acc: Access)
    requires c.Valid() && c.PermTable() && v.Valid() && w.Valid()
    requires !PairAt(gpa, 0x1_0000_0000) && !PairAt(gpa, 0x1_3FE0_0000)
    requires !PairAt(gpa, 0x1FF_C000_0000) && !PairAt(gpa, 0x1FF_FFE0_0000)
    ensures Second(c, v, gpa, acc) == Second(c, w, gpa, acc)
  {
    AliasPlaces(gpa, gpa / 0x4000_0000, gpa % 0x4000_0000 / 0x20_0000, gpa % 0x4000_0000 % 0x20_0000);
    SwapsFrameSecond(c, v, w, gpa, acc);
  }

  lemma AliasPlaces(gpa: nat, g: nat, j: nat, r: nat)
    requires g == gpa / 0x4000_0000 && j == gpa % 0x4000_0000 / 0x20_0000 && r == gpa % 0x4000_0000 % 0x20_0000
    ensures SwitchAlias(gpa) ==>
      || PairAt(gpa, 0x1_0000_0000) || PairAt(gpa, 0x1_3FE0_0000)
      || PairAt(gpa, 0x1FF_C000_0000) || PairAt(gpa, 0x1FF_FFE0_0000)
  {
    assert gpa == 0x4000_0000 * g + 0x20_0000 * j + r;
  }

  // ---------------------------------------------------------------------------------------------
  // The `iotinval` test, and a system to run it on.

  /** What a user's write gets at the end of the test's run, if that run is possible. */
  function Answer(m: Iotlb.Machine, s: Iotlb.State, own: seq<Iotlb.Event>, rounds: seq<Swap>,
                  ctx: Iotlb.Tag, va: nat): Outcome
    requires Iotlb.Shaped(s)
  {
    var es := IotlbTest.TestRun(own, 0xABC, 0xDEF, rounds);
    if Iotlb.Possible(m, s, es) then Iotlb.Lookup(m, Iotlb.After(m, s, es), ctx, va, User(Write)) else AccessFault
  }

  /** From every initial state, with any fills and evictions in between: SWITCH1 and SWITCH2 are written on their own
      pages at first, on each other's after the first swap and its invalidation, on their own again after the
      second, and so on. */
  lemma IotinvalTest(m: Iotlb.Machine, s: Iotlb.State, own: seq<Iotlb.Event>, rounds: seq<Swap>, ctx: Iotlb.Tag, o: nat)
    requires m.Valid() && Iotlb.Initial(m, s) && IotlbRuns.Settles(m, 0xABC, 0xDEF)
    requires IotlbTest.OwnSteps(m, own) && o < 0x1000
    requires m.c == Cva6(m.c.s1Base, m.c.rootBase, m.c.s2Base)
    ensures Answer(m, s, own, rounds, ctx, 0x1_0001_B000 + o)
         == Mapped((if |rounds| % 2 == 0 then 0x8801_B000 else 0x8801_C000) + o)
    ensures Answer(m, s, own, rounds, ctx, 0x1_0001_C000 + o)
         == Mapped((if |rounds| % 2 == 0 then 0x8801_C000 else 0x8801_B000) + o)
  {
    SwitchGrants(m.c);
    assert m.c.PageAligned();
    IotlbTest.RoundsHappen(m, s, own, 0xABC, 0xDEF, rounds, ctx, true, o, User(Write));
    IotlbTest.RoundsHappen(m, s, own, 0xABC, 0xDEF, rounds, ctx, false, o, User(Write));
    SwitchedResult(m.c, GuestPage(rounds, true), FinalPage(rounds, true), o, User(Write));
    SwitchedResult(m.c, GuestPage(rounds, false), FinalPage(rounds, false), o, User(Write));
  }

  lemma SwitchGrants(c: Config)
    requires c == Cva6(c.s1Base, c.rootBase, c.s2Base)
    ensures forall page | page in {27, 28} ::
      Grants(Sv39, Perm1(c, page), User(Write)) && Grants(Sv39x4, Perm2(c, page), User(Write))
  {
    FlagBytes(Write);
    GrantsByBits(Sv39, 0x1F, User(Write));
    GrantsByBits(Sv39x4, 0x1F, User(Write));
  }

  /** A place for each table, as the linker might choose it. */
  function AnySystem(): System {
    System(Cva6(0x8010_0000, 0x8010_8000, 0x8011_0000),
           DC.Setup(0x8010_0000, 0x8010_8000, 0x8011_8000, IotlbRuns.GSCID_ARRAY, IotlbRuns.PSCID_ARRAY),
           0x8400_0000, 0x8011_A000)
  }

  function AnyMachine(before: seq<DC.Dc>, ss: seq<DC.Setter>): Iotlb.Machine
    requires AnySystem().Valid() && |before| == DC.DDT_N_ENTRIES
  {
    Iotlb.Machine(AnySystem().c, IotlbRuns.TagsOf(IotlbRuns.Directory(AnySystem().p, before, ss)))
  }

  function Fresh(c: Config): Iotlb.State
    requires c.Sized()
  {
    Iotlb.State(Image(c, UNSWAPPED), Iotlb.Idle, 0, 0, Rings.Ring(seq(64, i => Commands.Command(0, 0)), 0, 0), {}, {},
                map[], map[], map[])
  }

  /** There is such a system, with initial states, and its directory's identifiers are those of the test. */
  lemma SystemExists(before: seq<DC.Dc>, ss: seq<DC.Setter>)
    requires |before| == DC.DDT_N_ENTRIES
    ensures OnCva6(AnySystem())
    ensures var m := AnyMachine(before, ss);
      && m.Valid() && m.contexts != {} && IotlbRuns.Settles(m, 0xABC, 0xDEF) && Iotlb.Initial(m, Fresh(m.c))
  {
    Cva6Fits(0x8010_0000, 0x8010_8000, 0x8011_0000);
    SetupFits();
    IotlbRuns.DriverSettles(AnySystem().c, AnySystem().p, before, ss);
    IotlbRuns.DeviceTag(AnySystem().p, before, ss, 1);
    var d := DC.ReadDc(IotlbRuns.Directory(AnySystem().p, before, ss)[1]);
    assert IotlbRuns.TagOf(d.context) in AnyMachine(before, ss).contexts;
  }

  lemma SetupFits()
    ensures AnySystem().p.Valid()
  {
    forall i: nat | i < 16
      ensures IotlbRuns.GSCID_ARRAY[i] < 0x1_0000 && IotlbRuns.PSCID_ARRAY[i] < 0x10_0000
    {
      IotlbRuns.DriverIdentifiers(i);
    }
  }
}
