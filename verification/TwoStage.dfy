/** What the two stages do together: the results that the drivers in src/rv_iommu_tests.c rely on. */
module TwoStage {
  import Bits
  import opened PageWalk
  import opened PageTables
  import opened TableWords
  import opened Translation

  function First(c: Config, v: View, va: nat, acc: Access): Outcome
    requires c.Valid() && v.Valid()
  {
    Walk(ImageMemory(c, v), Sv39, c.s1Base, va, acc)
  }

  function Second(c: Config, v: View, gpa: nat, acc: Access): Outcome
    requires c.Valid() && v.Valid()
  {
    Walk(ImageMemory(c, v), Sv39x4, c.rootBase, gpa, acc)
  }

  /** The hardware's two-stage translation. */
  function Translate(c: Config, v: View, va: nat, acc: Access): Outcome
    requires c.Valid() && v.Valid()
  {
    Nested(ImageMemory(c, v), c.s1Base, c.rootBase, va, acc)
  }

  lemma FirstIs(c: Config, v: View, va: nat, acc: Access)
    requires c.Valid() && c.PermTable() && v.Valid()
    ensures First(c, v, va, acc) == Decide(Sv39, FirstTarget(c, v, va), acc)
  {
    ImageHolds(c, v);
    FirstClosedForm(ImageMemory(c, v), c, v, va, acc);
  }

  lemma SecondIs(c: Config, v: View, gpa: nat, acc: Access)
    requires c.Valid() && c.PermTable() && c.PageAligned() && v.Valid()
    ensures Second(c, v, gpa, acc) == Decide(Sv39x4, SecondTarget(c, v, gpa), acc)
  {
    ImageHolds(c, v);
    SecondClosedForm(ImageMemory(c, v), c, v, gpa, acc);
  }

  /** A byte of RAM below 4 GiB is mapped to itself by the second stage exactly if it is below 3 GiB, or RAM
      starts at 3 GiB and the byte is in the part that the 3 GiB window covers. */
  lemma SelfMappedIff(c: Config, v: View, a: nat)
    requires c.Valid() && c.PermTable() && v.Valid()
    requires c.memBase <= a < 4 * SUPERPAGE_1G
    ensures Second(c, v, a, Access(Read, false, false)) == Mapped(a) <==> c.SelfMapped(a)
    ensures c.SelfMapped(a) <==>
      a < 0xC000_0000 || (c.memBase == 0xC000_0000 && a - 0xC000_0000 < c.memSize / 0x20_0000 / 2 * 0x20_0000)
  {
    SecondBelow4G(c, v, a, Access(Read, false, false));
  }

  /** The second stage below 4 GiB, which asks nothing of the alignment of the upper half of memory. */
  lemma SecondBelow4G(c: Config, v: View, gpa: nat, acc: Access)
    requires c.Valid() && c.PermTable() && v.Valid() && gpa < 4 * SUPERPAGE_1G
    ensures Second(c, v, gpa, acc)
         == if gpa < 3 * SUPERPAGE_1G then Decide(Sv39x4, Some(Target(gpa, URWX)), acc)
            else if gpa - 3 * SUPERPAGE_1G < c.Window() * SUPERPAGE_2M
            then Decide(Sv39x4, Some(Target(c.memBase + (gpa - 3 * SUPERPAGE_1G), URWX)), acc)
            else GuestFault
  {
    var f := ImageMemory(c, v);
    ImageHolds(c, v);
    if gpa < 3 * SUPERPAGE_1G {
      SecondGigapages(f, c, v, gpa, acc);
    } else {
      SecondWindow(f, c, v, gpa, acc);
      Bits.DivUnique(gpa, SUPERPAGE_1G, 3, gpa - 3 * SUPERPAGE_1G);
    }
  }

  /** Reading `s1pt` and nothing else. */
  function FirstStageMemory(c: Config, v: View): Fetch
    requires c.Sized() && v.Valid()
  {
    (a: nat) => Slot(c.s1Base, S1Image(c, v), a)
  }

  lemma FirstStageHolds(c: Config, v: View)
    requires c.Valid() && c.PermTable() && v.Valid()
    ensures HoldsFirst(FirstStageMemory(c, v), c, v)
  {
    forall k: nat | k < 3072
      ensures FirstStageMemory(c, v)(c.s1Base + 8 * k) == Got(S1Pte(c, v, k))
    {
      SlotAt(c.s1Base, S1Image(c, v), k);
      DecodeS1(c, v, k);
    }
  }

  /** A first-stage walk reads `s1pt` only. */
  lemma FirstStageIs(c: Config, v: View, va: nat, acc: Access)
    requires c.Valid() && c.PermTable() && v.Valid()
    ensures Walk(FirstStageMemory(c, v), Sv39, c.s1Base, va, acc) == Decide(Sv39, FirstTarget(c, v, va), acc)
  {
    FirstStageHolds(c, v);
    FirstClosedForm(FirstStageMemory(c, v), c, v, va, acc);
  }

  lemma FirstStageMapped(c: Config, v: View, a: nat)
    requires c.Nestable() && c.PermTable() && v.Valid()
    requires FirstStageMemory(c, v)(a).Got?
    ensures ImageMemory(c, v)(a) == FirstStageMemory(c, v)(a) && a < 4 * SUPERPAGE_1G
    ensures Second(c, v, a, Access(Read, false, false)) == Mapped(a)
  {
    assert c.s1Base <= a < c.s1Base + 0x6000;
    SelfMappedIff(c, v, a);
  }

  /** For every 64-bit address and every access, the nested walk, in which each first-stage PTE fetch is
      itself translated, agrees with the two walks done separately: same address, same class of fault. It
      takes `s1pt` to be mapped to itself; where the other tables are does not matter. */
  lemma NestedAgrees(c: Config, v: View, va: nat, acc: Access)
    requires c.Nestable() && c.PermTable() && v.Valid()
    ensures Translate(c, v, va, acc) == Composed(ImageMemory(c, v), c.s1Base, c.rootBase, va, acc)
    ensures Walk(Through(ImageMemory(c, v), c.rootBase), Sv39, c.s1Base, va, acc) == First(c, v, va, acc)
  {
    var f, h := ImageMemory(c, v), FirstStageMemory(c, v);
    forall a | h(a).Got?
      ensures f(a) == h(a) && Walk(f, Sv39x4, c.rootBase, a, Access(Read, false, false)) == Mapped(a)
    {
      FirstStageMapped(c, v, a);
    }
    FirstStageIs(c, v, va, acc);
    NestedIsComposed(f, h, c.s1Base, c.rootBase, va, acc);
  }

  /** With `s1pt` elsewhere below 4 GiB, the first PTE fetch goes astray: it faults, or reads RAM a gigabyte or
      more below. Unless another table happens to be there, not even address 0 is translated any more. */
  lemma NestedGoesAstray(c: Config, v: View)
    requires c.Valid() && c.PermTable() && v.Valid()
    requires c.s1Base < 4 * SUPERPAGE_1G && !c.SelfMapped(c.s1Base)
    requires ImageMemory(c, v)(c.memBase + (c.s1Base - 3 * SUPERPAGE_1G)).Fault?
    ensures !Translate(c, v, 0, Access(Read, false, false)).Mapped?
    ensures Composed(ImageMemory(c, v), c.s1Base, c.rootBase, 0, Access(Read, false, false)) == Mapped(0)
  {
    var acc := Access(Read, false, false);
    AstrayFetch(c, v);
    RootFault(Through(ImageMemory(c, v), c.rootBase), c.s1Base, acc);
    FirstIs(c, v, 0, acc);
    SecondBelow4G(c, v, 0, acc);
  }

  lemma AstrayFetch(c: Config, v: View)
    requires c.Valid() && c.PermTable() && v.Valid()
    requires c.s1Base < 4 * SUPERPAGE_1G && !c.SelfMapped(c.s1Base)
    requires ImageMemory(c, v)(c.memBase + (c.s1Base - 3 * SUPERPAGE_1G)).Fault?
    ensures var got := Through(ImageMemory(c, v), c.rootBase)(c.s1Base);
      got.Fault? && !got.o.Mapped?
  {
    var slot := Second(c, v, c.s1Base, Access(Read, false, false));
    assert slot == GuestFault || slot == Mapped(c.memBase + (c.s1Base - 3 * SUPERPAGE_1G)) by {
      SecondBelow4G(c, v, c.s1Base, Access(Read, false, false));
    }
    assert slot.Mapped? ==> ImageMemory(c, v)(slot.pa).o == AccessFault by { MemoryFaults(c, Image(c, v)); }
  }

  lemma RootFault(f: Fetch, root: nat, acc: Access)
    requires f(root).Fault?
    ensures Walk(f, Sv39, root, 0, acc) == f(root).o
  {
    assert Index(Sv39, 2, 0) == 0;
  }

  // ---------------------------------------------------------------------------------------------
  // The closed form of the whole translation.

  /** A target of the first stage goes on to the second. */
  function Onward(c: Config, v: View, first: Outcome, acc: Access): Outcome
    requires c.Valid() && v.Valid()
  {
    if first.Mapped? then Decide(Sv39x4, SecondTarget(c, v, first.pa), acc) else first
  }

  lemma TranslateClosedForm(c: Config, v: View, va: nat, acc: Access)
    requires c.Nestable() && c.PermTable() && c.PageAligned() && v.Valid()
    ensures Translate(c, v, va, acc) == Onward(c, v, Decide(Sv39, FirstTarget(c, v, va), acc), acc)
    ensures Translate(c, v, va, acc) != AccessFault
  {
    NestedAgrees(c, v, va, acc);
    FirstIs(c, v, va, acc);
    var first := First(c, v, va, acc);
    if first.Mapped? {
      SecondIs(c, v, first.pa, acc);
    }
  }

  /** `virt_page_base`; None where it stops with an error. */
  function VirtPageBase(page: nat): Option<nat> {
    if page < TEST_PAGE_MAX then Some(TEST_VPAGE_BASE + page * PAGE) else None
  }

  /** `phys_page_base` */
  function PhysPageBase(c: Config, page: nat): Option<nat> {
    if page < TEST_PAGE_MAX then Some(c.TestPpageBase() + page * PAGE) else None
  }

  /** `s1_page_base_limit` */
  function PageBaseLimit(page: nat): Option<nat> {
    if page < TEST_PAGE_MAX then Some(0x200_0000_0000 - 0x20_0000 + page * PAGE) else None
  }

  predicate Grants(stage: Stage, perm: nat, acc: Access) {
    RightsOf(perm).v && Allows(stage, RightsOf(perm), acc)
  }

  /** The outcome of an access that the first stage sends through the PTE of test page `gpage` and the second
      stage through that of `ppage`. */
  function PageResult(c: Config, gpage: nat, ppage: nat, o: nat, acc: Access): Outcome
    requires c.Sized() && gpage < TEST_PAGE_MAX && ppage < TEST_PAGE_MAX
  {
    if !Grants(Sv39, Perm1(c, gpage), acc) then PageFault
    else if !Grants(Sv39x4, Perm2(c, ppage), acc) then GuestFault
    else Mapped(PhysPageBase(c, ppage).value + o)
  }

  /** What an access to test page `page` comes to: the first stage sends it to the page whose PTE sits in
      the slot, that page's second-stage slot to another, and the permissions travel with the PTEs. */
  lemma PageOutcome(c: Config, v: View, page: nat, o: nat, acc: Access)
    requires c.Nestable() && c.PermTable() && c.PageAligned() && v.Valid()
    requires page < TEST_PAGE_MAX && o < PAGE
    ensures var gpage := v.FirstSlot(page);
      var ppage := v.SecondSlot(gpage);
      Translate(c, v, VirtPageBase(page).value + o, acc) == PageResult(c, gpage, ppage, o, acc)
  {
    var gpage := v.FirstSlot(page);
    var ppage := v.SecondSlot(gpage);
    var va, gpa := VirtPageBase(page).value + o, TEST_VPAGE_BASE + gpage * PAGE + o;
    PageTargets(c, v, page, o, va, gpage, gpa, ppage);
    ThroughTargets(c, v, va, acc, Target(gpa, RightsOf(Perm1(c, gpage))),
                   Target(c.TestPpageBase() + ppage * PAGE + o, RightsOf(Perm2(c, ppage))));
  }

  lemma PageTargets(c: Config, v: View, page: nat, o: nat, va: nat, gpage: nat, gpa: nat, ppage: nat)
    requires c.Sized() && v.Valid() && page < TEST_PAGE_MAX && o < PAGE
    requires gpage == v.FirstSlot(page) && ppage == v.SecondSlot(gpage)
    requires va == TEST_VPAGE_BASE + page * PAGE + o && gpa == TEST_VPAGE_BASE + gpage * PAGE + o
    ensures FirstTarget(c, v, va) == Some(Target(gpa, RightsOf(Perm1(c, gpage))))
    ensures SecondTarget(c, v, gpa) == Some(Target(c.TestPpageBase() + ppage * PAGE + o, RightsOf(Perm2(c, ppage))))
  {
    FirstPageTarget(c, v, va, 0, page, o);
    SecondPageTarget(c, v, gpa, 4, 0, gpage, o);
  }

  lemma ThroughTargets(c: Config, v: View, va: nat, acc: Access, first: Target, second: Target)
    requires c.Nestable() && c.PermTable() && c.PageAligned() && v.Valid()
    requires FirstTarget(c, v, va) == Some(first) && SecondTarget(c, v, first.pa) == Some(second)
    ensures Translate(c, v, va, acc)
         == if !first.rights.v || !Allows(Sv39, first.rights, acc) then PageFault
            else if !second.rights.v || !Allows(Sv39x4, second.rights, acc) then GuestFault
            else Mapped(second.pa)
  {
    TranslateClosedForm(c, v, va, acc);
  }

  // src/inc/rv_iommu_fq.h:30-35
  function PageFaultCode(kind: Kind): nat {
    match kind
    case Exec => 12
    case Read => 13
    case Write => 15
  }

  function GuestFaultCode(kind: Kind): nat {
    match kind
    case Exec => 20
    case Read => 21
    case Write => 23
  }

  /** The two causes that `wsi_generation` and `msi_generation` expect in the fault queue: which stage
      refuses decides between a page fault and a guest page fault of the access's own kind. */
  lemma PageCause(c: Config, v: View, page: nat, o: nat, acc: Access)
    requires c.Nestable() && c.PermTable() && c.PageAligned() && v.Valid()
    requires page < TEST_PAGE_MAX && o < PAGE
    ensures var out := Translate(c, v, VirtPageBase(page).value + o, acc);
      var first := Grants(Sv39, Perm1(c, v.FirstSlot(page)), acc);
      var second := Grants(Sv39x4, Perm2(c, v.SecondSlot(v.FirstSlot(page))), acc);
      && (out.Mapped? <==> first && second)
      && (!first <==> !out.Mapped? && Cause(out, acc.kind) == PageFaultCode(acc.kind))
      && (first && !second <==> !out.Mapped? && Cause(out, acc.kind) == GuestFaultCode(acc.kind))
  {
    PageOutcome(c, v, page, o, acc);
  }

  /** If both stages grant the access, it reaches the page's own physical address. */
  predicate Reached(c: Config, page: nat, o: nat, acc: Access)
    requires c.Valid() && page < TEST_PAGE_MAX
  {
    Grants(Sv39, Perm1(c, page), acc) && Grants(Sv39x4, Perm2(c, page), acc) ==>
      Translate(c, UNSWAPPED, VirtPageBase(page).value + o, acc) == Mapped(PhysPageBase(c, page).value + o)
  }

  /** Before any swap, `virt_page_base(i) + o` reaches `phys_page_base(i) + o` for every page that both stages
      grant exactly when the upper half of memory starts on a page. The compile-time checks leave that open. */
  lemma PagesReachedIff(c: Config)
    requires c.Nestable() && c.PermTable()
    ensures (forall page: nat, o: nat, acc | page < TEST_PAGE_MAX && o < PAGE :: Reached(c, page, o, acc))
       <==> c.PageAligned()
  {
    if c.PageAligned() {
      forall page: nat, o: nat, acc | page < TEST_PAGE_MAX && o < PAGE
        ensures Reached(c, page, o, acc)
      {
        PageOutcome(c, UNSWAPPED, page, o, acc);
      }
    } else {
      NotReached(c);
    }
  }

  lemma StressGrants(c: Config, acc: Access)
    requires c.Sized() && acc == Access(Read, false, false)
    ensures Grants(Sv39, Perm1(c, STRESS_START), acc) && Grants(Sv39x4, Perm2(c, STRESS_START), acc)
  {
  }

  lemma NotReached(c: Config)
    requires c.Valid() && !c.PageAligned()
    ensures !Reached(c, STRESS_START, 0, Access(Read, false, false))
  {
    var acc := Access(Read, false, false);
    StressGrants(c, acc);
    OffPage(c, VirtPageBase(STRESS_START).value + 0, PhysPageBase(c, STRESS_START).value + 0, acc);
  }

  lemma OffPage(c: Config, va: nat, pa: nat, acc: Access)
    requires c.Valid() && !c.PageAligned()
    requires va % PAGE == 0 && pa == c.TestPpageBase() + STRESS_START * PAGE
    ensures Translate(c, UNSWAPPED, va, acc) != Mapped(pa)
  {
    assert pa % PAGE != 0 by {
      if pa % PAGE == 0 {
        UpperHalfOnPage(c, STRESS_START);
      }
    }
    if Translate(c, UNSWAPPED, va, acc).Mapped? {
      MappedKeepsOffset(c, UNSWAPPED, va, acc);
    }
  }

  /** Whatever the tables hold, a translated address keeps its offset in the page. */
  lemma MappedKeepsOffset(c: Config, v: View, va: nat, acc: Access)
    requires c.Valid() && v.Valid() && Translate(c, v, va, acc).Mapped?
    ensures Translate(c, v, va, acc).pa % PAGE == va % PAGE
  {
    var f := ImageMemory(c, v);
    MemoryFaults(c, Image(c, v));
    ThroughProper(f, c.rootBase);
    var g := Through(f, c.rootBase);
    var first := Walk(g, Sv39, c.s1Base, va, acc);
    WalkFromOffset(g, Sv39, c.s1Base, 2, va, acc);
    WalkFromOffset(f, Sv39x4, c.rootBase, 2, first.pa, acc);
  }

  lemma UpperHalfOnPage(c: Config, page: nat)
    requires c.memBase % SUPERPAGE_1G == 0 && (c.memBase + c.memSize / 2 + page * PAGE) % PAGE == 0
    ensures c.PageAligned()
  {
    var b, t := c.memBase / SUPERPAGE_1G, (c.memBase + c.memSize / 2 + page * PAGE) / PAGE;
    assert c.memSize / 2 == PAGE * (t - page - 0x4_0000 * b);
  }

  /** User accesses below 4 GiB: each address maps to itself up to 3 GiB, the 3 GiB window to the start of
      RAM, and the rest of that gigabyte not at all. */
  lemma LowWindows(c: Config, v: View, va: nat, acc: Access)
    requires c.Nestable() && c.PermTable() && v.Valid()
    requires va < 4 * SUPERPAGE_1G && !acc.supervisor
    ensures Translate(c, v, va, acc)
         == if va < 3 * SUPERPAGE_1G then Mapped(va)
            else if va - 3 * SUPERPAGE_1G < c.Window() * SUPERPAGE_2M then Mapped(c.memBase + (va - 3 * SUPERPAGE_1G))
            else PageFault
  {
    var f := ImageMemory(c, v);
    ImageHolds(c, v);
    NestedAgrees(c, v, va, acc);
    FirstIs(c, v, va, acc);
    if va < 3 * SUPERPAGE_1G {
      SecondGigapages(f, c, v, va, acc);
    } else {
      SecondWindow(f, c, v, va, acc);
      Bits.DivUnique(va, SUPERPAGE_1G, 3, va - 3 * SUPERPAGE_1G);
    }
  }

  /** The 5 GiB window has no U flag in the first stage, so it serves supervisor accesses only; and it maps
      at all exactly when the upper half of memory starts on a superpage. */
  lemma SupervisorWindow(c: Config, v: View, o: nat, acc: Access)
    requires c.Nestable() && c.PermTable() && c.PageAligned() && v.Valid() && o < SUPERPAGE_1G
    ensures Translate(c, v, 5 * SUPERPAGE_1G + o, acc)
         == if !acc.supervisor then PageFault
            else if !c.SuperpageAligned() then GuestFault
            else Mapped(c.TestPpageBase() + o)
  {
    var va := 5 * SUPERPAGE_1G + o;
    TranslateClosedForm(c, v, va, acc);
    Bits.DivUnique(va, SUPERPAGE_1G, 5, o);
  }
}
