/** The closed form of the two stages of translation that the tables of src/page_tables.c set up. */
module Translation {
  import Bits
  import opened PageWalk
  import opened PageTables
  import opened TableWords

  /** What the three arrays hold. */
  datatype Tables = Tables(s1: seq<nat>, root: seq<nat>, s2: seq<nat>)

  /** Reading a PTE of one array, if `a` is the address of one. */
  function Slot(base: nat, table: seq<nat>, a: nat): Fetched {
    if base <= a < base + 8 * |table| && (a - base) % 8 == 0 then Got(DecodePte(table[(a - base) / 8]))
    else Fault(AccessFault)
  }

  /** Physical memory as far as the walker may read it: the three arrays and nothing else. */
  function Memory(c: Config, t: Tables): Fetch {
    (a: nat) =>
      if Slot(c.s1Base, t.s1, a).Got? then Slot(c.s1Base, t.s1, a)
      else if Slot(c.rootBase, t.root, a).Got? then Slot(c.rootBase, t.root, a)
      else Slot(c.s2Base, t.s2, a)
  }

  lemma MemoryFaults(c: Config, t: Tables)
    ensures forall a :: Memory(c, t)(a).Fault? ==> Memory(c, t)(a).o == AccessFault
    ensures Proper(Memory(c, t))
  {
  }

  function Image(c: Config, v: View): Tables
    requires c.Sized() && v.Valid()
  {
    Tables(S1Image(c, v), RootImage(c), S2Image(c, v))
  }

  function ImageMemory(c: Config, v: View): Fetch
    requires c.Sized() && v.Valid()
  {
    Memory(c, Image(c, v))
  }

  /** `f` finds in `s1pt` what the init loop and the swaps leave there. */
  ghost predicate HoldsFirst(f: Fetch, c: Config, v: View)
    requires c.Sized() && v.Valid()
  {
    forall k: nat {:trigger S1Pte(c, v, k)} | k < 3072 :: f(c.s1Base + 8 * k) == Got(S1Pte(c, v, k))
  }

  /** The same for `s2pt_root` and `s2pt`. */
  ghost predicate HoldsSecond(f: Fetch, c: Config, v: View)
    requires c.Sized() && v.Valid()
  {
    && (forall k: nat {:trigger RootPte(c, k)} | k < 2048 :: f(c.rootBase + 8 * k) == Got(RootPte(c, k)))
    && (forall k: nat {:trigger S2Pte(c, v, k)} | k < 2560 :: f(c.s2Base + 8 * k) == Got(S2Pte(c, v, k)))
  }

  lemma SlotAt(base: nat, table: seq<nat>, k: nat)
    requires k < |table|
    ensures Slot(base, table, base + 8 * k) == Got(DecodePte(table[k]))
  {
  }

  lemma SlotOutside(base: nat, table: seq<nat>, a: nat)
    requires a < base || base + 8 * |table| <= a
    ensures Slot(base, table, a) == Fault(AccessFault)
  {
  }

  lemma ImageHoldsS1(c: Config, v: View, k: nat)
    requires c.Valid() && c.PermTable() && v.Valid() && k < 3072
    ensures ImageMemory(c, v)(c.s1Base + 8 * k) == Got(S1Pte(c, v, k))
  {
    SlotAt(c.s1Base, Image(c, v).s1, k);
    DecodeS1(c, v, k);
  }

  lemma ImageHoldsRoot(c: Config, v: View, k: nat)
    requires c.Valid() && v.Valid() && k < 2048
    ensures ImageMemory(c, v)(c.rootBase + 8 * k) == Got(RootPte(c, k))
  {
    SlotOutside(c.s1Base, Image(c, v).s1, c.rootBase + 8 * k);
    SlotAt(c.rootBase, Image(c, v).root, k);
    DecodeRoot(c, k);
  }

  lemma ImageHoldsS2(c: Config, v: View, k: nat)
    requires c.Valid() && c.PermTable() && v.Valid() && k < 2560
    ensures ImageMemory(c, v)(c.s2Base + 8 * k) == Got(S2Pte(c, v, k))
  {
    SlotOutside(c.s1Base, Image(c, v).s1, c.s2Base + 8 * k);
    SlotOutside(c.rootBase, Image(c, v).root, c.s2Base + 8 * k);
    SlotAt(c.s2Base, Image(c, v).s2, k);
    DecodeS2(c, v, k);
  }

  lemma ImageHolds(c: Config, v: View)
    requires c.Valid() && c.PermTable() && v.Valid()
    ensures HoldsFirst(ImageMemory(c, v), c, v) && HoldsSecond(ImageMemory(c, v), c, v)
  {
    forall k: nat | k < 3072
      ensures ImageMemory(c, v)(c.s1Base + 8 * k) == Got(S1Pte(c, v, k))
    {
      ImageHoldsS1(c, v, k);
    }
    forall k: nat | k < 2048
      ensures ImageMemory(c, v)(c.rootBase + 8 * k) == Got(RootPte(c, k))
    {
      ImageHoldsRoot(c, v, k);
    }
    forall k: nat | k < 2560
      ensures ImageMemory(c, v)(c.s2Base + 8 * k) == Got(S2Pte(c, v, k))
    {
      ImageHoldsS2(c, v, k);
    }
  }

  // ---------------------------------------------------------------------------------------------
  // First stage.

  datatype Option<+T> = None | Some(value: T)

  /** An address and the rights that guard it. */
  datatype Target = Target(pa: nat, rights: Rights)

  /** Where the first stage sends `va`: the identity on the mapped windows, but for the swapped pages. */
  function FirstTarget(c: Config, v: View, va: nat): Option<Target>
    requires c.Sized() && v.Valid()
  {
    if va < 3 * SUPERPAGE_1G then Some(Target(va, URWX))
    else if va < 4 * SUPERPAGE_1G then
      if va - 3 * SUPERPAGE_1G < c.Window() * SUPERPAGE_2M then Some(Target(va, URWX)) else None
    else if va < TEST_VPAGE_BASE + SUPERPAGE_2M then
      var page := v.FirstSlot((va - TEST_VPAGE_BASE) / PAGE);
      Some(Target(TEST_VPAGE_BASE + page * PAGE + va % PAGE, RightsOf(Perm1(c, page))))
    else if va < TEST_VPAGE_BASE + 2 * SUPERPAGE_2M then
      Some(Target(va, RightsOf(Perm1(c, (va - TEST_VPAGE_BASE - SUPERPAGE_2M) / PAGE))))
    else if 5 * SUPERPAGE_1G <= va < 6 * SUPERPAGE_1G then Some(Target(va, RWX))
    else None
  }

  function Decide(stage: Stage, t: Option<Target>, acc: Access): Outcome {
    if t.Some? && t.value.rights.v && Allows(stage, t.value.rights, acc) then Mapped(t.value.pa) else FaultOf(stage)
  }

  /** The indices of an address given by its parts. */
  lemma Indices(va: nat, g: nat, j: nat, i: nat, r: nat)
    requires va == g * SUPERPAGE_1G + j * SUPERPAGE_2M + i * PAGE + r
    requires j < 512 && i < 512 && r < PAGE
    ensures va / SUPERPAGE_1G == g && va % SUPERPAGE_1G == j * SUPERPAGE_2M + i * PAGE + r
    ensures va / SUPERPAGE_2M % 512 == j && va % SUPERPAGE_2M == i * PAGE + r
    ensures va / PAGE % 512 == i && va % PAGE == r
  {
    Bits.DivUnique(va, SUPERPAGE_1G, g, j * SUPERPAGE_2M + i * PAGE + r);
    Bits.DivUnique(va, SUPERPAGE_2M, 512 * g + j, i * PAGE + r);
    Bits.DivUnique(va, PAGE, 512 * (512 * g + j) + i, r);
    Bits.DivUnique(512 * g + j, 512, g, j);
    Bits.DivUnique(512 * (512 * g + j) + i, 512, 512 * g + j, i);
  }

  /** Every address has such parts. */
  lemma Parts(va: nat) returns (g: nat, j: nat, i: nat, r: nat)
    ensures va == g * SUPERPAGE_1G + j * SUPERPAGE_2M + i * PAGE + r
    ensures j < 512 && i < 512 && r < PAGE
  {
    g := va / SUPERPAGE_1G;
    var o := va - g * SUPERPAGE_1G;
    j := o / SUPERPAGE_2M;
    var q := o - j * SUPERPAGE_2M;
    i := q / PAGE;
    r := q - i * PAGE;
  }

  lemma Superpage2M(base: nat, k: nat)
    ensures (base + k * SUPERPAGE_2M) % SUPERPAGE_2M == base % SUPERPAGE_2M
    ensures base % SUPERPAGE_1G == 0 ==> base % SUPERPAGE_2M == 0
  {
    var q, r := base / SUPERPAGE_2M, base % SUPERPAGE_2M;
    Bits.DivUnique(base + k * SUPERPAGE_2M, SUPERPAGE_2M, q + k, r);
    if base % SUPERPAGE_1G == 0 {
      Bits.DivUnique(base, SUPERPAGE_2M, 512 * (base / SUPERPAGE_1G), 0);
    }
  }

  /** One step down through a pointer. */
  lemma StepDown(f: Fetch, stage: Stage, table: nat, level: nat, va: nat, acc: Access, target: nat)
    requires 0 < level < 3 && target % PAGE == 0
    requires f(table + 8 * Index(stage, level, va)) == Got(PointerTo(target))
    ensures WalkFrom(f, stage, table, level, va, acc) == WalkFrom(f, stage, target, level - 1, va, acc)
  {
  }

  /** The end of a walk at a leaf. */
  lemma StepLeaf(f: Fetch, stage: Stage, table: nat, level: nat, va: nat, acc: Access, addr: nat, t: Rights)
    requires level < 3 && addr % PAGE == 0 && (t.w ==> t.r) && (level == 0 || t.r)
    requires f(table + 8 * Index(stage, level, va)) == Got(LeafTo(addr, t))
    ensures WalkFrom(f, stage, table, level, va, acc)
         == if t.v && Allows(stage, t, acc) && addr % LevelSize(level) == 0
            then Mapped(addr + va % LevelSize(level)) else FaultOf(stage)
  {
  }

  /** The end of a walk at an invalid entry. */
  lemma StepFail(f: Fetch, stage: Stage, table: nat, level: nat, va: nat, acc: Access)
    requires level < 3
    requires f(table + 8 * Index(stage, level, va)) == Got(INVALID)
    ensures WalkFrom(f, stage, table, level, va, acc) == FaultOf(stage)
  {
  }

  lemma FirstGigapages(f: Fetch, c: Config, v: View, va: nat, acc: Access)
    requires c.Sized() && v.Valid() && HoldsFirst(f, c, v)
    requires va < 3 * SUPERPAGE_1G
    ensures Walk(f, Sv39, c.s1Base, va, acc) == Decide(Sv39, FirstTarget(c, v, va), acc)
  {
    var g, j, i, r := Parts(va);
    Indices(va, g, j, i, r);
    assert S1Pte(c, v, g) == LeafTo(g * SUPERPAGE_1G, URWX);
    StepLeaf(f, Sv39, c.s1Base, 2, va, acc, g * SUPERPAGE_1G, URWX);
  }

  lemma BelowWindow(j: nat, q: nat, n: nat)
    requires q < SUPERPAGE_2M
    ensures j * SUPERPAGE_2M + q < n * SUPERPAGE_2M <==> j < n
  {
  }

  lemma FirstWindowLeaf(f: Fetch, c: Config, v: View, va: nat, acc: Access, j: nat, q: nat)
    requires c.Sized() && v.Valid() && HoldsFirst(f, c, v)
    requires j < 512 && va / SUPERPAGE_2M % 512 == j && va % SUPERPAGE_2M == q
    ensures WalkFrom(f, Sv39, c.s1Base + 0x1000, 1, va, acc)
         == Decide(Sv39, if j < c.Window() then Some(Target(3 * SUPERPAGE_1G + j * SUPERPAGE_2M + q, URWX)) else None, acc)
  {
    var p := S1Pte(c, v, 512 + j);
    assert f(c.s1Base + 0x1000 + 8 * j) == Got(p);
    if j < c.Window() {
      var addr := 3 * SUPERPAGE_1G + j * SUPERPAGE_2M;
      assert addr % PAGE == 0 && addr % SUPERPAGE_2M == 0 by {
        Superpage2M(3 * SUPERPAGE_1G, j);
        SuperpageAddress(3 * SUPERPAGE_1G, j);
      }
      StepLeaf(f, Sv39, c.s1Base + 0x1000, 1, va, acc, addr, URWX);
    } else {
      StepFail(f, Sv39, c.s1Base + 0x1000, 1, va, acc);
    }
  }

  lemma FirstWindow(f: Fetch, c: Config, v: View, va: nat, acc: Access)
    requires c.Sized() && v.Valid() && HoldsFirst(f, c, v)
    requires c.s1Base % PAGE == 0
    requires 3 * SUPERPAGE_1G <= va < 4 * SUPERPAGE_1G
    ensures Walk(f, Sv39, c.s1Base, va, acc) == Decide(Sv39, FirstTarget(c, v, va), acc)
  {
    var g, j, i, r := Parts(va);
    Indices(va, g, j, i, r);
    assert S1Pte(c, v, 3) == PointerTo(c.s1Base + 0x1000);
    StepDown(f, Sv39, c.s1Base, 2, va, acc, c.s1Base + 0x1000);
    FirstWindowLeaf(f, c, v, va, acc, j, i * PAGE + r);
    BelowWindow(j, i * PAGE + r, c.Window());
  }

  lemma FirstTestPages(f: Fetch, c: Config, v: View, va: nat, acc: Access)
    requires c.Sized() && c.PermTable() && v.Valid() && HoldsFirst(f, c, v)
    requires 4 * SUPERPAGE_1G <= va < 5 * SUPERPAGE_1G
    requires c.s1Base % PAGE == 0
    ensures Walk(f, Sv39, c.s1Base, va, acc) == Decide(Sv39, FirstTarget(c, v, va), acc)
  {
    var g, j, i, r := Parts(va);
    Indices(va, g, j, i, r);
    var middle := c.s1Base + 0x2000;
    assert S1Pte(c, v, 4) == PointerTo(middle);
    StepDown(f, Sv39, c.s1Base, 2, va, acc, middle);
    assert f(middle + 8 * j) == Got(S1Pte(c, v, 1024 + j));
    if j > 1 {
      StepFail(f, Sv39, middle, 1, va, acc);
    } else {
      StepDown(f, Sv39, middle, 1, va, acc, c.s1Base + 0x3000 + 0x1000 * j);
      FirstPageLeaf(f, c, v, va, acc, j, i, r);
      FirstPageTarget(c, v, va, j, i, r);
    }
  }

  /** The test page behind slot `i` of the two first-stage tables of 4 KiB pages. */
  function FirstPage(v: View, j: nat, i: nat): (page: nat)
    requires v.Valid() && i < 512
    ensures page < 512
  {
    if j == 0 then v.FirstSlot(i) else i
  }

  lemma FirstPageSlot(f: Fetch, c: Config, v: View, j: nat, i: nat)
    requires c.Sized() && v.Valid() && HoldsFirst(f, c, v) && j < 2 && i < 512
    ensures var page := FirstPage(v, j, i);
      f(c.s1Base + 0x3000 + 0x1000 * j + 8 * i)
        == Got(LeafTo(TEST_VPAGE_BASE + j * SUPERPAGE_2M + page * PAGE, RightsOf(Perm1(c, page))))
  {
    var p := S1Pte(c, v, 1536 + 512 * j + i);
    assert f(c.s1Base + 8 * (1536 + 512 * j + i)) == Got(p);
  }

  lemma FirstPageLeaf(f: Fetch, c: Config, v: View, va: nat, acc: Access, j: nat, i: nat, r: nat)
    requires c.Sized() && c.PermTable() && v.Valid() && HoldsFirst(f, c, v)
    requires j < 2 && i < 512 && va / PAGE % 512 == i && va % PAGE == r
    ensures var page := FirstPage(v, j, i);
      var target := Target(TEST_VPAGE_BASE + j * SUPERPAGE_2M + page * PAGE + r, RightsOf(Perm1(c, page)));
      WalkFrom(f, Sv39, c.s1Base + 0x3000 + 0x1000 * j, 0, va, acc) == Decide(Sv39, Some(target), acc)
  {
    var page := FirstPage(v, j, i);
    var t := RightsOf(Perm1(c, page));
    var addr := TEST_VPAGE_BASE + j * SUPERPAGE_2M + page * PAGE;
    assert addr % PAGE == 0 by { PageAddress(TEST_VPAGE_BASE + j * SUPERPAGE_2M, page); }
    assert t.w ==> t.r by { PermRights(c, page); }
    FirstPageSlot(f, c, v, j, i);
    StepLeaf(f, Sv39, c.s1Base + 0x3000 + 0x1000 * j, 0, va, acc, addr, t);
  }

  lemma FirstPageTarget(c: Config, v: View, va: nat, j: nat, i: nat, r: nat)
    requires c.Sized() && v.Valid()
    requires va == 4 * SUPERPAGE_1G + j * SUPERPAGE_2M + i * PAGE + r
    requires j < 2 && i < 512 && r < PAGE
    ensures var page := FirstPage(v, j, i);
      FirstTarget(c, v, va) == Some(Target(TEST_VPAGE_BASE + j * SUPERPAGE_2M + page * PAGE + r, RightsOf(Perm1(c, page))))
  {
    Indices(va, 4, j, i, r);
    Bits.DivUnique(i * PAGE + r, PAGE, i, r);
  }

  lemma PermRights(c: Config, i: nat)
    requires c.PermTable() && i < TEST_PAGE_MAX
    ensures RightsOf(Perm1(c, i)).w ==> RightsOf(Perm1(c, i)).r
    ensures RightsOf(Perm2(c, i)).w ==> RightsOf(Perm2(c, i)).r
  {
  }

  lemma FirstSupervisorWindow(f: Fetch, c: Config, v: View, va: nat, acc: Access)
    requires c.Sized() && v.Valid() && HoldsFirst(f, c, v)
    requires c.s1Base % PAGE == 0
    requires 5 * SUPERPAGE_1G <= va < 6 * SUPERPAGE_1G
    ensures Walk(f, Sv39, c.s1Base, va, acc) == Decide(Sv39, Some(Target(va, RWX)), acc)
  {
    var g, j, i, r := Parts(va);
    Indices(va, g, j, i, r);
    var table := c.s1Base + 0x5000;
    assert S1Pte(c, v, 5) == PointerTo(table);
    StepDown(f, Sv39, c.s1Base, 2, va, acc, table);
    var addr := 5 * SUPERPAGE_1G + j * SUPERPAGE_2M;
    SuperpageAddress(5 * SUPERPAGE_1G, j);
    Superpage2M(5 * SUPERPAGE_1G, j);
    assert S1Pte(c, v, 2560 + j) == LeafTo(addr, RWX);
    StepLeaf(f, Sv39, table, 1, va, acc, addr, RWX);
  }

  lemma FirstBeyond(f: Fetch, c: Config, v: View, va: nat, acc: Access)
    requires c.Sized() && v.Valid() && HoldsFirst(f, c, v)
    requires 6 * SUPERPAGE_1G <= va
    ensures Walk(f, Sv39, c.s1Base, va, acc) == PageFault
  {
    if InRange(Sv39, va) {
      var n := Index(Sv39, 2, va);
      assert n >= 6;
      assert S1Pte(c, v, n) == INVALID;
      StepFail(f, Sv39, c.s1Base, 2, va, acc);
    }
  }

  /** First stage in closed form, for every 64-bit address and access. */
  lemma FirstClosedForm(f: Fetch, c: Config, v: View, va: nat, acc: Access)
    requires c.Valid() && c.PermTable() && v.Valid() && HoldsFirst(f, c, v)
    ensures Walk(f, Sv39, c.s1Base, va, acc) == Decide(Sv39, FirstTarget(c, v, va), acc)
  {
    if va < 3 * SUPERPAGE_1G {
      FirstGigapages(f, c, v, va, acc);
    } else if va < 4 * SUPERPAGE_1G {
      FirstWindow(f, c, v, va, acc);
    } else if va < 5 * SUPERPAGE_1G {
      FirstTestPages(f, c, v, va, acc);
    } else if va < 6 * SUPERPAGE_1G {
      FirstSupervisorWindow(f, c, v, va, acc);
    } else {
      FirstBeyond(f, c, v, va, acc);
    }
  }

  // ---------------------------------------------------------------------------------------------
  // Second stage.

  /** The test page behind slot `i` of the two second-stage tables of 4 KiB pages. The first table is
      reached through slots 0 and 511 of the table above it. */
  function SecondPage(v: View, j: nat, i: nat): (page: nat)
    requires v.Valid() && i < 512
    ensures page < 512
  {
    if j == 1 then i else v.SecondSlot(i)
  }

  /** Where the second stage sends `gpa`: the identity below 3 GiB, an offset map on the 3 GiB, 4 GiB
      and 5 GiB windows and on the alias of the 4 GiB window under the top of the address space. */
  function SecondTarget(c: Config, v: View, gpa: nat): Option<Target>
    requires c.Sized() && v.Valid()
  {
    var g, o := gpa / SUPERPAGE_1G, gpa % SUPERPAGE_1G;
    if g < 3 then Some(Target(gpa, URWX))
    else if g == 3 then
      if o < c.Window() * SUPERPAGE_2M then Some(Target(c.memBase + o, URWX)) else None
    else if g == 4 || g == 2047 then
      var j := o / SUPERPAGE_2M;
      var page := SecondPage(v, j, o % SUPERPAGE_2M / PAGE);
      if j == 0 || j == 1 || j == 511
      then Some(Target(c.TestPpageBase() + page * PAGE + gpa % PAGE, RightsOf(Perm2(c, page))))
      else None
    else if g == 5 then
      if c.SuperpageAligned() then Some(Target(c.TestPpageBase() + o, URWX)) else None
    else None
  }

  lemma SecondGigapages(f: Fetch, c: Config, v: View, gpa: nat, acc: Access)
    requires c.Sized() && v.Valid() && HoldsSecond(f, c, v)
    requires gpa < 3 * SUPERPAGE_1G
    ensures Walk(f, Sv39x4, c.rootBase, gpa, acc) == Decide(Sv39x4, SecondTarget(c, v, gpa), acc)
  {
    var g, j, i, r := Parts(gpa);
    Indices(gpa, g, j, i, r);
    assert RootPte(c, g) == LeafTo(g * SUPERPAGE_1G, URWX);
    StepLeaf(f, Sv39x4, c.rootBase, 2, gpa, acc, g * SUPERPAGE_1G, URWX);
  }

  lemma SecondWindowTarget(c: Config, v: View, gpa: nat, j: nat, q: nat)
    requires c.Sized() && v.Valid()
    requires gpa == 3 * SUPERPAGE_1G + j * SUPERPAGE_2M + q && j < 512 && q < SUPERPAGE_2M
    ensures SecondTarget(c, v, gpa)
         == if j < c.Window() then Some(Target(c.memBase + j * SUPERPAGE_2M + q, URWX)) else None
  {
    Bits.DivUnique(gpa, SUPERPAGE_1G, 3, j * SUPERPAGE_2M + q);
    BelowWindow(j, q, c.Window());
  }

  lemma SecondWindowLeaf(f: Fetch, c: Config, v: View, gpa: nat, acc: Access, j: nat, q: nat)
    requires c.Sized() && v.Valid() && HoldsSecond(f, c, v)
    requires j < 512 && gpa / SUPERPAGE_2M % 512 == j && gpa % SUPERPAGE_2M == q
    requires c.memBase % SUPERPAGE_1G == 0
    ensures WalkFrom(f, Sv39x4, c.s2Base, 1, gpa, acc)
         == Decide(Sv39x4, if j < c.Window() then Some(Target(c.memBase + j * SUPERPAGE_2M + q, URWX)) else None, acc)
  {
    var p := S2Pte(c, v, j);
    assert f(c.s2Base + 8 * j) == Got(p);
    if j < c.Window() {
      var addr := c.memBase + j * SUPERPAGE_2M;
      assert addr % PAGE == 0 && addr % SUPERPAGE_2M == 0 by {
        Superpage2M(c.memBase, j);
        SuperpageAddress(c.memBase, j);
      }
      StepLeaf(f, Sv39x4, c.s2Base, 1, gpa, acc, addr, URWX);
    } else {
      StepFail(f, Sv39x4, c.s2Base, 1, gpa, acc);
    }
  }

  lemma SecondWindow(f: Fetch, c: Config, v: View, gpa: nat, acc: Access)
    requires c.Sized() && v.Valid() && HoldsSecond(f, c, v)
    requires 3 * SUPERPAGE_1G <= gpa < 4 * SUPERPAGE_1G
    requires c.s2Base % PAGE == 0
    requires c.memBase % SUPERPAGE_1G == 0
    ensures Walk(f, Sv39x4, c.rootBase, gpa, acc) == Decide(Sv39x4, SecondTarget(c, v, gpa), acc)
  {
    var g, j, i, r := Parts(gpa);
    Indices(gpa, g, j, i, r);
    assert RootPte(c, 3) == PointerTo(c.s2Base);
    StepDown(f, Sv39x4, c.rootBase, 2, gpa, acc, c.s2Base);
    SecondWindowLeaf(f, c, v, gpa, acc, j, i * PAGE + r);
    SecondWindowTarget(c, v, gpa, j, i * PAGE + r);
  }

  lemma SecondPageLeaf(f: Fetch, c: Config, v: View, gpa: nat, acc: Access, j: nat, i: nat, r: nat)
    requires c.Sized() && c.PermTable() && c.PageAligned() && v.Valid() && HoldsSecond(f, c, v)
    requires (j == 0 || j == 1 || j == 511) && i < 512 && gpa / PAGE % 512 == i && gpa % PAGE == r
    requires c.memBase % SUPERPAGE_1G == 0
    ensures var page := SecondPage(v, j, i);
      var target := Target(c.TestPpageBase() + page * PAGE + r, RightsOf(Perm2(c, page)));
      WalkFrom(f, Sv39x4, c.s2Base + (if j == 1 then 0x3000 else 0x2000), 0, gpa, acc) == Decide(Sv39x4, Some(target), acc)
  {
    var page := SecondPage(v, j, i);
    var base := c.TestPpageBase();
    var t := RightsOf(Perm2(c, page));
    assert base % PAGE == 0 by { TestPpageAligned(c); }
    PageAddress(base, page);
    PermRights(c, page);
    if j == 1 {
      assert S2Pte(c, v, 1536 + i) == LeafTo(base + page * PAGE, t);
      StepLeaf(f, Sv39x4, c.s2Base + 0x3000, 0, gpa, acc, base + page * PAGE, t);
    } else {
      assert S2Pte(c, v, 1024 + i) == LeafTo(base + page * PAGE, t);
      StepLeaf(f, Sv39x4, c.s2Base + 0x2000, 0, gpa, acc, base + page * PAGE, t);
    }
  }

  lemma SecondPageTarget(c: Config, v: View, gpa: nat, g: nat, j: nat, i: nat, r: nat)
    requires c.Sized() && v.Valid()
    requires gpa == g * SUPERPAGE_1G + j * SUPERPAGE_2M + i * PAGE + r && (g == 4 || g == 2047)
    requires j < 512 && i < 512 && r < PAGE
    ensures var page := SecondPage(v, j, i);
      SecondTarget(c, v, gpa)
        == if j == 0 || j == 1 || j == 511
           then Some(Target(c.TestPpageBase() + page * PAGE + r, RightsOf(Perm2(c, page)))) else None
  {
    Indices(gpa, g, j, i, r);
    Bits.DivUnique(j * SUPERPAGE_2M + i * PAGE + r, SUPERPAGE_2M, j, i * PAGE + r);
    Bits.DivUnique(i * PAGE + r, PAGE, i, r);
  }

  lemma SecondMiddle(f: Fetch, c: Config, v: View, j: nat)
    requires c.Sized() && v.Valid() && HoldsSecond(f, c, v) && j < 512
    ensures f(c.s2Base + 0x1000 + 8 * j)
         == Got(if j == 1 then PointerTo(c.s2Base + 0x3000)
                else if j == 0 || j == 511 then PointerTo(c.s2Base + 0x2000) else INVALID)
  {
    var p := S2Pte(c, v, 512 + j);
    assert f(c.s2Base + 8 * (512 + j)) == Got(p);
  }

  lemma SecondMiddleWalk(f: Fetch, c: Config, v: View, gpa: nat, acc: Access, j: nat, i: nat, r: nat)
    requires c.Sized() && c.PermTable() && c.PageAligned() && v.Valid() && HoldsSecond(f, c, v)
    requires c.s2Base % PAGE == 0 && c.memBase % SUPERPAGE_1G == 0
    requires j < 512 && i < 512 && gpa / SUPERPAGE_2M % 512 == j && gpa / PAGE % 512 == i && gpa % PAGE == r
    ensures var page := SecondPage(v, j, i);
      var target := if j == 0 || j == 1 || j == 511
        then Some(Target(c.TestPpageBase() + page * PAGE + r, RightsOf(Perm2(c, page)))) else None;
      WalkFrom(f, Sv39x4, c.s2Base + 0x1000, 1, gpa, acc) == Decide(Sv39x4, target, acc)
  {
    var middle := c.s2Base + 0x1000;
    SecondMiddle(f, c, v, j);
    if j == 0 || j == 1 || j == 511 {
      StepDown(f, Sv39x4, middle, 1, gpa, acc, c.s2Base + (if j == 1 then 0x3000 else 0x2000));
      SecondPageLeaf(f, c, v, gpa, acc, j, i, r);
    } else {
      StepFail(f, Sv39x4, middle, 1, gpa, acc);
    }
  }

  lemma SecondTestPages(f: Fetch, c: Config, v: View, gpa: nat, acc: Access)
    requires c.Sized() && c.PermTable() && c.PageAligned() && v.Valid() && HoldsSecond(f, c, v)
    requires c.s2Base % PAGE == 0 && c.memBase % SUPERPAGE_1G == 0
    requires gpa / SUPERPAGE_1G == 4 || gpa / SUPERPAGE_1G == 2047
    ensures Walk(f, Sv39x4, c.rootBase, gpa, acc) == Decide(Sv39x4, SecondTarget(c, v, gpa), acc)
  {
    var g, j, i, r := Parts(gpa);
    Indices(gpa, g, j, i, r);
    assert RootPte(c, g) == PointerTo(c.s2Base + 0x1000);
    StepDown(f, Sv39x4, c.rootBase, 2, gpa, acc, c.s2Base + 0x1000);
    SecondMiddleWalk(f, c, v, gpa, acc, j, i, r);
    SecondPageTarget(c, v, gpa, g, j, i, r);
  }

  lemma SecondRest(f: Fetch, c: Config, v: View, gpa: nat, acc: Access)
    requires c.Sized() && c.PageAligned() && v.Valid() && HoldsSecond(f, c, v)
    requires gpa / SUPERPAGE_1G >= 5 && gpa / SUPERPAGE_1G != 2047
    requires c.s2Base % PAGE == 0
    requires c.memBase % SUPERPAGE_1G == 0
    ensures Walk(f, Sv39x4, c.rootBase, gpa, acc) == Decide(Sv39x4, SecondTarget(c, v, gpa), acc)
  {
    var g, j, i, r := Parts(gpa);
    Indices(gpa, g, j, i, r);
    if g == 5 {
      var table := c.s2Base + 0x4000;
      assert RootPte(c, 5) == PointerTo(table);
      StepDown(f, Sv39x4, c.rootBase, 2, gpa, acc, table);
      var addr := c.TestPpageBase() + j * SUPERPAGE_2M;
      assert addr % PAGE == 0 && (c.SuperpageAligned() <==> addr % SUPERPAGE_2M == 0) by {
        TestPpageAligned(c);
        SuperpageAddress(c.TestPpageBase(), j);
        Superpage2M(c.TestPpageBase(), j);
      }
      assert S2Pte(c, v, 2048 + j) == LeafTo(addr, URWX);
      StepLeaf(f, Sv39x4, table, 1, gpa, acc, addr, URWX);
    } else if InRange(Sv39x4, gpa) {
      assert RootPte(c, g) == INVALID;
      StepFail(f, Sv39x4, c.rootBase, 2, gpa, acc);
    }
  }

  /** Second stage in closed form, for every guest physical address and access. */
  lemma SecondClosedForm(f: Fetch, c: Config, v: View, gpa: nat, acc: Access)
    requires c.Valid() && c.PermTable() && c.PageAligned() && v.Valid() && HoldsSecond(f, c, v)
    ensures Walk(f, Sv39x4, c.rootBase, gpa, acc) == Decide(Sv39x4, SecondTarget(c, v, gpa), acc)
  {
    var g := gpa / SUPERPAGE_1G;
    if g < 3 {
      SecondGigapages(f, c, v, gpa, acc);
    } else if g == 3 {
      SecondWindow(f, c, v, gpa, acc);
    } else if g == 4 || g == 2047 {
      SecondTestPages(f, c, v, gpa, acc);
    } else {
      SecondRest(f, c, v, gpa, acc);
    }
  }
}
