/** A device's request from the directory to the answer (section 2.3 of the RISC-V IOMMU specification 1.0), and what
    the drivers in src/rv_iommu_tests.c get from it in every mode they set. */
module Requests {
  import Bits
  import Msi
  import DC = DeviceContext
  import opened PageWalk
  import opened PageTables
  import opened Translation
  import opened TwoStage

  /** An ordinary outcome, an interrupt file's table entry, or no usable context. */
  datatype Answer = Plain(o: Outcome) | ToFile(e: Msi.MsiEntry) | NoContext

  function GuestAddress(f: Fetch, d: DC.Context, iova: nat, acc: Access): Outcome {
    if d.mode1 == 0 then Mapped(iova)
    else Walk(if d.mode2 == 0 then f else Through(f, d.ppn2 * PAGE), Sv39, d.ppn1 * PAGE, iova, acc)
  }

  /** First stage, then the test for an interrupt file, then the second stage. Mode 0 passes addresses through. */
  function Process(f: Fetch, msiPt: seq<nat>, d: DC.Context, iova: nat, acc: Access): Answer
    requires |msiPt| == 2 * Bits.Pow2(Msi.PopCount(d.mask))
  {
    var gpa := GuestAddress(f, d, iova, acc);
    if !gpa.Mapped? then Plain(gpa)
    else if d.msiMode == 1 && Msi.Matches(gpa.pa / PAGE, d.mask, d.pattern) then
      ToFile(Msi.MsiLookup(msiPt, gpa.pa / PAGE, d.mask))
    else if d.mode2 == 0 then Plain(gpa)
    else Plain(Walk(f, Sv39x4, d.ppn2 * PAGE, gpa.pa, acc))
  }

  /** The system as the driver sets it up: tables in memory, interrupt files, devices. */
  datatype System = System(c: Config, p: DC.Setup, msiBase: nat, mrif: nat) {
    predicate Valid() {
      && c.Nestable() && c.PermTable() && p.Valid()
      && p.s1pt == c.s1Base && p.s2root == c.rootBase
      && msiBase % PAGE == 0 && msiBase < 0x80_0000_0000_0000 && mrif % 512 == 0 && mrif / 4 < Msi.B54
    }
  }

  function Memories(y: System): Fetch
    requires y.Valid()
  {
    ImageMemory(y.c, UNSWAPPED)
  }

  /** What a request of device `did` gets after init and a run of context setters. */
  function Request(y: System, before: seq<DC.Dc>, ss: seq<DC.Setter>, did: nat, iova: nat, acc: Access): Answer
    requires y.Valid() && |before| == DC.DDT_N_ENTRIES
  {
    var ddt := DC.SetRun(y.p, DC.InitAll(y.p, before), ss);
    if did >= DC.DDT_N_ENTRIES then NoContext
    else
      var located := DC.ReadDc(ddt[did]);
      if !located.Present? then NoContext
      else
        DC.ContextAfter(y.p, before, ss, did);
        assert Bits.Pow2(Msi.PopCount(Msi.MSI_ADDR_MASK)) == Msi.MSI_N_ENTRIES by { Msi.MaskFitsTable(0); }
        Process(Memories(y), Msi.FlatImage(y.msiBase, y.mrif), located.context, iova, acc)
  }

  /** The first stage on its own, the second on its own, and both, by the modes last set. */
  function Outcomes(y: System, m: DC.Modes, iova: nat, acc: Access): Outcome
    requires y.Valid()
  {
    if m.sv39 && m.sv39x4 then Translate(y.c, UNSWAPPED, iova, acc)
    else if m.sv39 then First(y.c, UNSWAPPED, iova, acc)
    else if m.sv39x4 then Second(y.c, UNSWAPPED, iova, acc)
    else Mapped(iova)
  }

  /** The guest address that the interrupt-file test sees. */
  function Guest(y: System, m: DC.Modes, iova: nat, acc: Access): Outcome
    requires y.Valid()
  {
    if m.sv39 then First(y.c, UNSWAPPED, iova, acc) else Mapped(iova)
  }

  predicate IsFile(page: nat) {
    Msi.Matches(page, Msi.MSI_ADDR_MASK, Msi.MSI_ADDR_PATTERN)
  }

  /** The answer by the modes last set. */
  function Expected(y: System, m: DC.Modes, iova: nat, acc: Access): Answer
    requires y.Valid()
  {
    var gpa := Guest(y, m, iova, acc);
    if m.flat && gpa.Mapped? && IsFile(gpa.pa / PAGE) then
      ToFile(Msi.FlatEntry(y.msiBase, y.mrif, Msi.Extract(gpa.pa / PAGE, Msi.MSI_ADDR_MASK)))
    else Plain(Outcomes(y, m, iova, acc))
  }

  lemma GuestIs(y: System, did: nat, m: DC.Modes, iova: nat, acc: Access)
    requires y.Valid() && DC.InUse(did)
    ensures GuestAddress(Memories(y), DC.Configured(y.p, did, m), iova, acc) == Guest(y, m, iova, acc)
  {
    var d := DC.Configured(y.p, did, m);
    Pointers(y, d.ppn1, d.ppn2);
    if m.sv39 && m.sv39x4 {
      NestedAgrees(y.c, UNSWAPPED, iova, acc);
    }
  }

  lemma Pointers(y: System, ppn1: nat, ppn2: nat)
    requires y.Valid() && ppn1 == y.p.s1pt / DC.BIT12 && ppn2 == y.p.s2root / DC.BIT12
    ensures ppn1 * PAGE == y.c.s1Base && ppn2 * PAGE == y.c.rootBase
  {
  }

  lemma SecondPart(y: System, m: DC.Modes, iova: nat, acc: Access)
    requires y.Valid()
    ensures var gpa := Guest(y, m, iova, acc);
      Outcomes(y, m, iova, acc) == if gpa.Mapped? && m.sv39x4 then Second(y.c, UNSWAPPED, gpa.pa, acc) else gpa
  {
    if m.sv39 && m.sv39x4 {
      NestedAgrees(y.c, UNSWAPPED, iova, acc);
    }
  }

  /** Whatever setters ran and in whatever order, a device in use gets what the modes last set say: the composition
      of the stages that are on, except that guest addresses of interrupt files go to the MSI table when it is on.
      Any other device gets nothing. */
  lemma RequestAnswer(y: System, before: seq<DC.Dc>, ss: seq<DC.Setter>, did: nat, iova: nat, acc: Access)
    requires y.Valid() && |before| == DC.DDT_N_ENTRIES
    ensures Request(y, before, ss, did, iova, acc)
         == if 1 <= did <= 15 then Expected(y, DC.LastModes(DC.ALL_OFF, ss), iova, acc) else NoContext
  {
    if did < DC.DDT_N_ENTRIES {
      DC.ContextAfter(y.p, before, ss, did);
      if DC.InUse(did) {
        Msi.MaskFitsTable(0);
        ProcessIs(y, did, DC.LastModes(DC.ALL_OFF, ss), iova, acc);
      }
    }
  }

  lemma ProcessIs(y: System, did: nat, m: DC.Modes, iova: nat, acc: Access)
    requires y.Valid() && DC.InUse(did)
    requires |Msi.FlatImage(y.msiBase, y.mrif)| == 2 * Bits.Pow2(Msi.PopCount(Msi.MSI_ADDR_MASK))
    ensures Process(Memories(y), Msi.FlatImage(y.msiBase, y.mrif), DC.Configured(y.p, did, m), iova, acc)
         == Expected(y, m, iova, acc)
  {
    var d, gpa := DC.Configured(y.p, did, m), Guest(y, m, iova, acc);
    GuestIs(y, did, m, iova, acc);
    SecondPart(y, m, iova, acc);
    if gpa.Mapped? {
      assert ToFile(Msi.MsiLookup(Msi.FlatImage(y.msiBase, y.mrif), gpa.pa / PAGE, Msi.MSI_ADDR_MASK))
          == ToFile(Msi.FlatEntry(y.msiBase, y.mrif, Msi.Extract(gpa.pa / PAGE, Msi.MSI_ADDR_MASK))) by {
        Msi.FlatTable(y.msiBase, y.mrif, gpa.pa / PAGE);
      }
      Pointers(y, d.ppn1, d.ppn2);
    }
  }

  // ---------------------------------------------------------------------------------------------
  // The test pages.

  /** The answer for test page `page`: what each stage that is on grants, and for an interrupt file its entry. */
  function PageAnswer(y: System, m: DC.Modes, page: nat, o: nat, acc: Access): Answer
    requires y.Valid() && page < TEST_PAGE_MAX
  {
    if m.sv39 && !Grants(Sv39, Perm1(y.c, page), acc) then Plain(PageFault)
    else if m.flat && IsFile(0x10_0000 + page) then
      ToFile(Msi.FlatEntry(y.msiBase, y.mrif, Msi.Extract(0x10_0000 + page, Msi.MSI_ADDR_MASK)))
    else if !m.sv39x4 then Plain(Mapped(VirtPageBase(page).value + o))
    else if !Grants(Sv39x4, Perm2(y.c, page), acc) then Plain(GuestFault)
    else Plain(Mapped(PhysPageBase(y.c, page).value + o))
  }

  lemma PageGuest(y: System, m: DC.Modes, page: nat, o: nat, acc: Access)
    requires y.Valid() && page < TEST_PAGE_MAX && o < PAGE
    ensures Guest(y, m, VirtPageBase(page).value + o, acc)
         == if m.sv39 && !Grants(Sv39, Perm1(y.c, page), acc) then PageFault else Mapped(VirtPageBase(page).value + o)
  {
    if m.sv39 {
      FirstIs(y.c, UNSWAPPED, VirtPageBase(page).value + o, acc);
      FirstPageTarget(y.c, UNSWAPPED, VirtPageBase(page).value + o, 0, page, o);
    }
  }

  lemma PageSecond(y: System, page: nat, o: nat, acc: Access)
    requires y.Valid() && y.c.PageAligned() && page < TEST_PAGE_MAX && o < PAGE
    ensures Second(y.c, UNSWAPPED, VirtPageBase(page).value + o, acc)
         == if Grants(Sv39x4, Perm2(y.c, page), acc) then Mapped(PhysPageBase(y.c, page).value + o) else GuestFault
  {
    SecondIs(y.c, UNSWAPPED, VirtPageBase(page).value + o, acc);
    SecondPageTarget(y.c, UNSWAPPED, VirtPageBase(page).value + o, 4, 0, page, o);
  }

  /** In every mode, for every test page, offset and access: with both stages off the device reaches the address it
      asked for; with the second on, `phys_page_base(page) + o`; with the MSI table on as well, interrupt files
      reach the entry their number selects, which needs no permission of the second stage. */
  lemma PageRequest(y: System, before: seq<DC.Dc>, ss: seq<DC.Setter>, did: nat, page: nat, o: nat, acc: Access)
    requires y.Valid() && y.c.PageAligned() && |before| == DC.DDT_N_ENTRIES
    requires 1 <= did <= 15 && page < TEST_PAGE_MAX && o < PAGE
    ensures Request(y, before, ss, did, VirtPageBase(page).value + o, acc)
         == PageAnswer(y, DC.LastModes(DC.ALL_OFF, ss), page, o, acc)
  {
    var m, iova := DC.LastModes(DC.ALL_OFF, ss), VirtPageBase(page).value + o;
    RequestAnswer(y, before, ss, did, iova, acc);
    Bits.DivUnique(iova, PAGE, 0x10_0000 + page, o);
    PageGuest(y, m, page, o, acc);
    PageOutcomes(y, m, page, o, acc, iova);
    PageExpected(y, m, page, o, acc, iova, 0x10_0000 + page);
  }

  lemma PageExpected(y: System, m: DC.Modes, page: nat, o: nat, acc: Access, iova: nat, number: nat)
    requires y.Valid() && page < TEST_PAGE_MAX && iova == VirtPageBase(page).value + o
    requires number == 0x10_0000 + page && number == iova / PAGE
    requires Guest(y, m, iova, acc) == if m.sv39 && !Grants(Sv39, Perm1(y.c, page), acc) then PageFault else Mapped(iova)
    requires Outcomes(y, m, iova, acc)
         == if m.sv39 && !Grants(Sv39, Perm1(y.c, page), acc) then PageFault
            else if !m.sv39x4 then Mapped(iova)
            else if !Grants(Sv39x4, Perm2(y.c, page), acc) then GuestFault
            else Mapped(PhysPageBase(y.c, page).value + o)
    ensures Expected(y, m, iova, acc) == PageAnswer(y, m, page, o, acc)
  {
  }

  lemma PageOutcomes(y: System, m: DC.Modes, page: nat, o: nat, acc: Access, iova: nat)
    requires y.Valid() && y.c.PageAligned() && page < TEST_PAGE_MAX && o < PAGE
    requires iova == VirtPageBase(page).value + o
    ensures Outcomes(y, m, iova, acc)
         == if m.sv39 && !Grants(Sv39, Perm1(y.c, page), acc) then PageFault
            else if !m.sv39x4 then Mapped(iova)
            else if !Grants(Sv39x4, Perm2(y.c, page), acc) then GuestFault
            else Mapped(PhysPageBase(y.c, page).value + o)
  {
    PageGuest(y, m, page, o, acc);
    SecondPart(y, m, iova, acc);
    PageSecond(y, page, o, acc);
  }
}
