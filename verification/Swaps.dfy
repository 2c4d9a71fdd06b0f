/** Runs of s1pt_switch and s2pt_switch, the second-stage aliases, and the shape of the tables. */
module Swaps {
  import Bits
  import opened PageWalk
  import opened PageTables
  import opened TableWords
  import opened Translation
  import opened TwoStage

  datatype Swap = SwapFirst | SwapSecond

  /** One call of `s1pt_switch` or `s2pt_switch`. */
  function Apply(t: Tables, s: Swap): (r: Tables)
    requires |t.s1| == 3072 && |t.s2| == 2560
    ensures |r.s1| == 3072 && |r.s2| == 2560
  {
    match s
    case SwapFirst => t.(s1 := Swapped(t.s1, S1_SWITCH1, S1_SWITCH2))
    case SwapSecond => t.(s2 := Swapped(t.s2, S2_SWITCH1, S2_SWITCH2))
  }

  function Run(t: Tables, ops: seq<Swap>): (r: Tables)
    requires |t.s1| == 3072 && |t.s2| == 2560
    ensures |r.s1| == 3072 && |r.s2| == 2560
    decreases |ops|
  {
    if ops == [] then t else Run(Apply(t, ops[0]), ops[1..])
  }

  function Count(ops: seq<Swap>, s: Swap): nat {
    if ops == [] then 0 else (if ops[0] == s then 1 else 0) + Count(ops[1..], s)
  }

  lemma {:induction false} CountAll(ops: seq<Swap>)
    ensures Count(ops, SwapFirst) + Count(ops, SwapSecond) == |ops|
  {
    if ops != [] {
      CountAll(ops[1..]);
    }
  }

  function SwapView(v: View, s: Swap): View {
    match s
    case SwapFirst => View(v.p2, v.p1, v.q1, v.q2)
    case SwapSecond => View(v.p1, v.p2, v.q2, v.q1)
  }

  /** The view after `a` swaps of the first stage and `b` of the second. */
  function SwappedView(v: View, a: nat, b: nat): View {
    View(if a % 2 == 0 then v.p1 else v.p2, if a % 2 == 0 then v.p2 else v.p1,
         if b % 2 == 0 then v.q1 else v.q2, if b % 2 == 0 then v.q2 else v.q1)
  }

  lemma SwapS1(c: Config, v: View)
    requires c.Sized() && v.Valid()
    ensures Swapped(S1Image(c, v), S1_SWITCH1, S1_SWITCH2) == S1Image(c, SwapView(v, SwapFirst))
  {
  }

  lemma SwapS2(c: Config, v: View)
    requires c.Sized() && v.Valid()
    ensures Swapped(S2Image(c, v), S2_SWITCH1, S2_SWITCH2) == S2Image(c, SwapView(v, SwapSecond))
  {
  }

  /** The first stage does not depend on the second-stage slots, nor the second on the first. */
  lemma ImagesApart(c: Config, v: View, w: View)
    requires c.Sized() && v.Valid() && w.Valid()
    ensures v.p1 == w.p1 && v.p2 == w.p2 ==> S1Image(c, v) == S1Image(c, w)
    ensures v.q1 == w.q1 && v.q2 == w.q2 ==> S2Image(c, v) == S2Image(c, w)
  {
  }

  lemma SwapImage(c: Config, v: View, s: Swap)
    requires c.Valid() && v.Valid()
    ensures Apply(Image(c, v), s) == Image(c, SwapView(v, s))
  {
    ImagesApart(c, v, SwapView(v, s));
    match s
    case SwapFirst => SwapS1(c, v);
    case SwapSecond => SwapS2(c, v);
  }

  /** The view after a run of swaps from `v`. */
  function ViewAfter(v: View, ops: seq<Swap>): View {
    SwappedView(v, Count(ops, SwapFirst), Count(ops, SwapSecond))
  }

  lemma ViewStep(v: View, ops: seq<Swap>)
    requires v.Valid() && ops != []
    ensures SwapView(v, ops[0]).Valid() && ViewAfter(v, ops) == ViewAfter(SwapView(v, ops[0]), ops[1..])
  {
  }

  /** Only the parities of the two counts of swaps matter to what the tables hold. */
  lemma {:induction false} RunImage(c: Config, v: View, ops: seq<Swap>, w: View)
    requires c.Valid() && v.Valid() && w.Valid() && w == ViewAfter(v, ops)
    ensures Run(Image(c, v), ops) == Image(c, w)
    decreases |ops|
  {
    if ops != [] {
      SwapImage(c, v, ops[0]);
      ViewStep(v, ops);
      RunImage(c, SwapView(v, ops[0]), ops[1..], w);
    }
  }

  /** Translation over the tables as a run of swaps leaves them. */
  function TranslateAfter(c: Config, ops: seq<Swap>, va: nat, acc: Access): Outcome
    requires c.Valid()
  {
    Nested(Memory(c, Run(Image(c, UNSWAPPED), ops)), c.s1Base, c.rootBase, va, acc)
  }

  lemma AfterIs(c: Config, ops: seq<Swap>, w: View, va: nat, acc: Access)
    requires c.Valid() && w.Valid() && w == ViewAfter(UNSWAPPED, ops)
    ensures TranslateAfter(c, ops, va, acc) == Translate(c, w, va, acc)
  {
    RunImage(c, UNSWAPPED, ops, w);
  }

  /** The page left or right of the pair. */
  function Pick(first: bool): nat {
    if first then SWITCH1 else SWITCH2
  }

  /** The page whose first-stage PTE is in slot `Pick(first)` after a run of swaps. */
  function GuestPage(ops: seq<Swap>, first: bool): nat {
    Pick(first == (Count(ops, SwapFirst) % 2 == 0))
  }

  /** The page that slot leads to in the end. */
  function FinalPage(ops: seq<Swap>, first: bool): nat {
    Pick(first == (|ops| % 2 == 0))
  }

  lemma SlotParity(ops: seq<Swap>, w: View, first: bool)
    requires w == ViewAfter(UNSWAPPED, ops)
    ensures w.Valid()
    ensures w.FirstSlot(Pick(first)) == GuestPage(ops, first)
    ensures w.SecondSlot(GuestPage(ops, first)) == FinalPage(ops, first)
  {
    CountAll(ops);
  }

  lemma SlotOutcome(c: Config, w: View, page: nat, gpage: nat, ppage: nat, o: nat, acc: Access, out: Outcome)
    requires c.Nestable() && c.PermTable() && c.PageAligned() && w.Valid()
    requires page < TEST_PAGE_MAX && gpage == w.FirstSlot(page) && ppage == w.SecondSlot(gpage) && o < PAGE
    requires out == Translate(c, w, VirtPageBase(page).value + o, acc)
    ensures out == PageResult(c, gpage, ppage, o, acc)
  {
    PageOutcome(c, w, page, o, acc);
  }

  /** After any run of swaps, SWITCH1 (or SWITCH2: `first` says which) goes through the first-stage PTE of
      its own page or of the other one by the parity of the first-stage swaps, and ends on its own physical
      page or on the other one by the parity of all swaps. The permissions checked are those of the two PTEs
      met on the way. */
  lemma SwitchParity(c: Config, ops: seq<Swap>, first: bool, o: nat, acc: Access)
    requires c.Nestable() && c.PermTable() && c.PageAligned() && o < PAGE
    ensures TranslateAfter(c, ops, VirtPageBase(Pick(first)).value + o, acc)
         == PageResult(c, GuestPage(ops, first), FinalPage(ops, first), o, acc)
  {
    var w := ViewAfter(UNSWAPPED, ops);
    SlotParity(ops, w, first);
    var va := VirtPageBase(Pick(first)).value + o;
    AfterIs(c, ops, w, va, acc);
    SlotOutcome(c, w, Pick(first), GuestPage(ops, first), FinalPage(ops, first), o, acc, TranslateAfter(c, ops, va, acc));
  }

  /** Where swapped permissions do not interfere, SWITCH1 reaches its own page exactly after an even number
      of swaps, of either stage and in any order. */
  lemma SwitchHomeIffEven(c: Config, ops: seq<Swap>, o: nat, acc: Access)
    requires c.Nestable() && c.PermTable() && c.PageAligned() && o < PAGE
    requires Grants(Sv39, Perm1(c, SWITCH1), acc) && Grants(Sv39, Perm1(c, SWITCH2), acc)
    requires Grants(Sv39x4, Perm2(c, SWITCH1), acc) && Grants(Sv39x4, Perm2(c, SWITCH2), acc)
    ensures TranslateAfter(c, ops, VirtPageBase(SWITCH1).value + o, acc) == Mapped(PhysPageBase(c, SWITCH1).value + o)
       <==> |ops| % 2 == 0
  {
    SwitchParity(c, ops, true, o, acc);
  }

  // ---------------------------------------------------------------------------------------------
  // What the swaps leave alone.

  predicate SwitchPage(va: nat) {
    TEST_VPAGE_BASE + SWITCH1 * PAGE <= va < TEST_VPAGE_BASE + (SWITCH2 + 1) * PAGE
  }

  /** The guest physical addresses translated by the two swapped second-stage PTEs. */
  predicate SwitchAlias(gpa: nat) {
    && (gpa / SUPERPAGE_1G == 4 || gpa / SUPERPAGE_1G == 2047)
    && (gpa % SUPERPAGE_1G / SUPERPAGE_2M == 0 || gpa % SUPERPAGE_1G / SUPERPAGE_2M == 511)
    && (gpa % SUPERPAGE_1G % SUPERPAGE_2M / PAGE == SWITCH1 || gpa % SUPERPAGE_1G % SUPERPAGE_2M / PAGE == SWITCH2)
  }

  lemma FirstTargetFrame(c: Config, v: View, w: View, va: nat)
    requires c.Valid() && v.Valid() && w.Valid() && !SwitchPage(va)
    ensures FirstTarget(c, v, va) == FirstTarget(c, w, va)
    ensures FirstTarget(c, v, va).Some? ==> FirstTarget(c, v, va).value.pa == va
  {
    if TEST_VPAGE_BASE <= va < TEST_VPAGE_BASE + SUPERPAGE_2M {
      var i, r := (va - TEST_VPAGE_BASE) / PAGE, (va - TEST_VPAGE_BASE) % PAGE;
      Bits.DivUnique(va, PAGE, 0x10_0000 + i, r);
      assert i != SWITCH1 && i != SWITCH2;
    }
  }

  /** Two memories whose second-stage tables differ in the two swapped slots at most, or not at all. */
  ghost predicate SecondAlike(f: Fetch, g: Fetch, c: Config, same: bool) {
    && (forall k: nat | k < 2048 :: f(c.rootBase + 8 * k) == g(c.rootBase + 8 * k))
    && (forall k: nat | k < 2560 && (same || (k != S2_SWITCH1 && k != S2_SWITCH2)) ::
          f(c.s2Base + 8 * k) == g(c.s2Base + 8 * k))
  }

  predicate SameSecond(v: View, w: View) {
    v.q1 == w.q1 && v.q2 == w.q2
  }

  lemma ImagesAlike(c: Config, v: View, w: View)
    requires c.Valid() && c.PermTable() && v.Valid() && w.Valid()
    ensures SecondAlike(ImageMemory(c, v), ImageMemory(c, w), c, SameSecond(v, w))
  {
    var f, g := ImageMemory(c, v), ImageMemory(c, w);
    ImageHolds(c, v);
    ImageHolds(c, w);
    forall k: nat | k < 2048
      ensures f(c.rootBase + 8 * k) == g(c.rootBase + 8 * k)
    {
      assert f(c.rootBase + 8 * k) == Got(RootPte(c, k));
    }
    forall k: nat | k < 2560 && (SameSecond(v, w) || (k != S2_SWITCH1 && k != S2_SWITCH2))
      ensures f(c.s2Base + 8 * k) == g(c.s2Base + 8 * k)
    {
      assert f(c.s2Base + 8 * k) == Got(S2Pte(c, v, k)) && g(c.s2Base + 8 * k) == Got(S2Pte(c, w, k));
      SecondPteFrame(c, v, w, k);
    }
  }

  lemma SecondPteFrame(c: Config, v: View, w: View, k: nat)
    requires c.Sized() && v.Valid() && w.Valid() && k < 2560
    requires SameSecond(v, w) || (k != S2_SWITCH1 && k != S2_SWITCH2)
    ensures S2Pte(c, v, k) == S2Pte(c, w, k)
  {
  }

  /** A leaf, or anything at the lowest level, ends the walk. */
  lemma LastStep(f: Fetch, g: Fetch, stage: Stage, table: nat, level: nat, va: nat, acc: Access)
    requires level < 3
    requires var slot := table + 8 * Index(stage, level, va);
      && f(slot) == g(slot)
      && (f(slot).Got? ==> level == 0 || !Interpret(stage, f(slot).p, level, acc).Down?)
    ensures WalkFrom(f, stage, table, level, va, acc) == WalkFrom(g, stage, table, level, va, acc)
  {
  }

  /** The words of the 5 GiB window have R set, whatever stray bits an odd memory size puts in them. */
  lemma TopWordsAreLeaves(c: Config, v: View, k: nat, acc: Access)
    requires c.Valid() && v.Valid() && 2048 <= k < 2560
    ensures !Interpret(Sv39x4, DecodePte(S2Entry(c, v, k)), 1, acc).Down?
  {
    Bits.OrHalf((c.TestPpageBase() + (k - 2048) * SUPERPAGE_2M) / 4, PTE_URWX_AD);
    Bits.OrHalf((c.TestPpageBase() + (k - 2048) * SUPERPAGE_2M) / 4 / 2, PTE_URWX_AD / 2);
  }

  lemma SecondFrameTable(f: Fetch, g: Fetch, c: Config, v: View, same: bool, gpa: nat, acc: Access, j: nat)
    requires c.Valid() && c.PermTable() && v.Valid() && HoldsSecond(f, c, v) && SecondAlike(f, g, c, same)
    requires j < 512 && gpa / SUPERPAGE_2M % 512 == j
    ensures WalkFrom(f, Sv39x4, c.s2Base + 0x4000, 1, gpa, acc) == WalkFrom(g, Sv39x4, c.s2Base + 0x4000, 1, gpa, acc)
  {
    var k := 2048 + j;
    assert f(c.s2Base + 8 * k) == Got(S2Pte(c, v, k)) && f(c.s2Base + 8 * k) == g(c.s2Base + 8 * k);
    assert !Interpret(Sv39x4, S2Pte(c, v, k), 1, acc).Down? by {
      DecodeS2(c, v, k);
      TopWordsAreLeaves(c, v, k, acc);
    }
    LastStep(f, g, Sv39x4, c.s2Base + 0x4000, 1, gpa, acc);
  }

  /** Two walks through the same pointer. */
  lemma BothDown(f: Fetch, g: Fetch, c: Config, v: View, same: bool, gpa: nat, acc: Access, t: nat, target: nat)
    requires c.Sized() && v.Valid() && HoldsSecond(f, c, v) && SecondAlike(f, g, c, same)
    requires t < 2048 && gpa / SUPERPAGE_1G == t && RootPte(c, t) == PointerTo(target) && target % PAGE == 0
    requires WalkFrom(f, Sv39x4, target, 1, gpa, acc) == WalkFrom(g, Sv39x4, target, 1, gpa, acc)
    ensures Walk(f, Sv39x4, c.rootBase, gpa, acc) == Walk(g, Sv39x4, c.rootBase, gpa, acc)
  {
    assert f(c.rootBase + 8 * t) == Got(PointerTo(target)) && g(c.rootBase + 8 * t) == Got(PointerTo(target));
    StepDown(f, Sv39x4, c.rootBase, 2, gpa, acc, target);
    StepDown(g, Sv39x4, c.rootBase, 2, gpa, acc, target);
  }

  lemma SecondFrameTop(f: Fetch, g: Fetch, c: Config, v: View, same: bool, gpa: nat, acc: Access)
    requires c.Valid() && c.PermTable() && v.Valid() && HoldsSecond(f, c, v) && SecondAlike(f, g, c, same)
    requires gpa / SUPERPAGE_1G == 5
    ensures Walk(f, Sv39x4, c.rootBase, gpa, acc) == Walk(g, Sv39x4, c.rootBase, gpa, acc)
  {
    SecondFrameTable(f, g, c, v, same, gpa, acc, gpa / SUPERPAGE_2M % 512);
    BothDown(f, g, c, v, same, gpa, acc, 5, c.s2Base + 0x4000);
  }

  lemma SecondFrameMiddle(f: Fetch, g: Fetch, c: Config, v: View, same: bool, gpa: nat, acc: Access, j: nat, i: nat)
    requires c.Sized() && c.s2Base % PAGE == 0 && v.Valid() && HoldsSecond(f, c, v) && SecondAlike(f, g, c, same)
    requires j < 512 && i < 512 && gpa / SUPERPAGE_2M % 512 == j && gpa / PAGE % 512 == i
    requires same || (j != 0 && j != 511) || (i != SWITCH1 && i != SWITCH2)
    ensures WalkFrom(f, Sv39x4, c.s2Base + 0x1000, 1, gpa, acc) == WalkFrom(g, Sv39x4, c.s2Base + 0x1000, 1, gpa, acc)
  {
    var middle := c.s2Base + 0x1000;
    SecondMiddle(f, c, v, j);
    assert f(c.s2Base + 8 * (512 + j)) == g(c.s2Base + 8 * (512 + j));
    if j == 0 || j == 1 || j == 511 {
      var table := c.s2Base + (if j == 1 then 0x3000 else 0x2000);
      StepDown(f, Sv39x4, middle, 1, gpa, acc, table);
      StepDown(g, Sv39x4, middle, 1, gpa, acc, table);
      SecondFramePage(f, g, c, same, gpa, acc, if j == 1 then 1536 else 1024, i);
    } else {
      LastStep(f, g, Sv39x4, middle, 1, gpa, acc);
    }
  }

  lemma SecondFramePage(f: Fetch, g: Fetch, c: Config, same: bool, gpa: nat, acc: Access, row: nat, i: nat)
    requires SecondAlike(f, g, c, same) && (row == 1024 || row == 1536) && i < 512 && gpa / PAGE % 512 == i
    requires same || row == 1536 || (i != SWITCH1 && i != SWITCH2)
    ensures WalkFrom(f, Sv39x4, c.s2Base + 8 * row, 0, gpa, acc) == WalkFrom(g, Sv39x4, c.s2Base + 8 * row, 0, gpa, acc)
  {
    assert f(c.s2Base + 8 * (row + i)) == g(c.s2Base + 8 * (row + i));
    LastStep(f, g, Sv39x4, c.s2Base + 8 * row, 0, gpa, acc);
  }

  lemma SecondFramePages(f: Fetch, g: Fetch, c: Config, v: View, same: bool, gpa: nat, acc: Access)
    requires c.Valid() && c.PermTable() && v.Valid() && HoldsSecond(f, c, v) && SecondAlike(f, g, c, same)
    requires (gpa / SUPERPAGE_1G == 4 || gpa / SUPERPAGE_1G == 2047) && (same || !SwitchAlias(gpa))
    ensures Walk(f, Sv39x4, c.rootBase, gpa, acc) == Walk(g, Sv39x4, c.rootBase, gpa, acc)
  {
    var t, j, i, r := Parts(gpa);
    Indices(gpa, t, j, i, r);
    assert same || (j != 0 && j != 511) || (i != SWITCH1 && i != SWITCH2) by {
      Bits.DivUnique(j * SUPERPAGE_2M + i * PAGE + r, SUPERPAGE_2M, j, i * PAGE + r);
      Bits.DivUnique(i * PAGE + r, PAGE, i, r);
    }
    SecondFrameMiddle(f, g, c, v, same, gpa, acc, j, i);
    BothDown(f, g, c, v, same, gpa, acc, t, c.s2Base + 0x1000);
  }

  lemma SecondFrameRest(f: Fetch, g: Fetch, c: Config, v: View, same: bool, gpa: nat, acc: Access)
    requires c.Valid() && c.PermTable() && v.Valid() && HoldsSecond(f, c, v) && SecondAlike(f, g, c, same)
    requires gpa / SUPERPAGE_1G >= 6 && gpa / SUPERPAGE_1G != 2047
    ensures Walk(f, Sv39x4, c.rootBase, gpa, acc) == Walk(g, Sv39x4, c.rootBase, gpa, acc)
  {
    if InRange(Sv39x4, gpa) {
      var t, j, i, r := Parts(gpa);
      Indices(gpa, t, j, i, r);
      assert RootPte(c, t) == INVALID;
      assert f(c.rootBase + 8 * t) == Got(INVALID);
      LastStep(f, g, Sv39x4, c.rootBase, 2, gpa, acc);
    }
  }

  /** Every guest physical address but the aliases of the two pages keeps its second-stage result in every state
      of a swap, for any size of memory. */
  lemma SwapsFrameSecond(c: Config, v: View, w: View, gpa: nat, acc: Access)
    requires c.Valid() && c.PermTable() && v.Valid() && w.Valid()
    requires !SwitchAlias(gpa) || SameSecond(v, w)
    ensures Second(c, v, gpa, acc) == Second(c, w, gpa, acc)
  {
    var f, g, t, same := ImageMemory(c, v), ImageMemory(c, w), gpa / SUPERPAGE_1G, SameSecond(v, w);
    if t < 4 {
      SecondBelow4G(c, v, gpa, acc);
      SecondBelow4G(c, w, gpa, acc);
    } else {
      ImageHolds(c, v);
      ImagesAlike(c, v, w);
      if t == 5 {
        SecondFrameTop(f, g, c, v, same, gpa, acc);
      } else if t == 4 || t == 2047 {
        SecondFramePages(f, g, c, v, same, gpa, acc);
      } else {
        SecondFrameRest(f, g, c, v, same, gpa, acc);
      }
    }
  }

  lemma SwapsFrameFirst(c: Config, v: View, w: View, va: nat, acc: Access)
    requires c.Valid() && c.PermTable() && v.Valid() && w.Valid()
    requires !SwitchPage(va) || (v.p1 == w.p1 && v.p2 == w.p2)
    ensures First(c, v, va, acc) == First(c, w, va, acc)
  {
    FirstIs(c, v, va, acc);
    FirstIs(c, w, va, acc);
    if !SwitchPage(va) {
      FirstTargetFrame(c, v, w, va);
    } else {
      FirstTargetSame(c, v, w, va);
    }
  }

  lemma FirstTargetSame(c: Config, v: View, w: View, va: nat)
    requires c.Sized() && v.Valid() && w.Valid() && v.p1 == w.p1 && v.p2 == w.p2
    ensures FirstTarget(c, v, va) == FirstTarget(c, w, va)
  {
  }

  /** The first stage sends pages outside the pair to themselves, never onto an alias. */
  lemma NeverOntoAlias(c: Config, v: View, va: nat, acc: Access)
    requires c.Valid() && c.PermTable() && v.Valid() && !SwitchPage(va)
    requires First(c, v, va, acc).Mapped?
    ensures First(c, v, va, acc).pa == va && !SwitchAlias(va)
  {
    FirstIs(c, v, va, acc);
    FirstTargetFrame(c, v, v, va);
    NotAlias(c, v, va);
  }

  /** Every guest virtual address but the two pages keeps its whole result in every state of a swap. */
  lemma SwapsFrame(c: Config, v: View, w: View, va: nat, acc: Access)
    requires c.Nestable() && c.PermTable() && v.Valid() && w.Valid() && !SwitchPage(va)
    ensures Translate(c, v, va, acc) == Translate(c, w, va, acc)
  {
    NestedAgrees(c, v, va, acc);
    NestedAgrees(c, w, va, acc);
    SwapsFrameFirst(c, v, w, va, acc);
    if First(c, v, va, acc).Mapped? {
      NeverOntoAlias(c, v, va, acc);
      SwapsFrameSecond(c, v, w, va, acc);
    }
  }

  /** The first stage maps nothing onto the other aliases. */
  lemma NotAlias(c: Config, v: View, va: nat)
    requires c.Valid() && v.Valid() && !SwitchPage(va) && FirstTarget(c, v, va).Some?
    ensures !SwitchAlias(va)
  {
    if va / SUPERPAGE_1G == 4 {
      Bits.DivUnique(va, SUPERPAGE_1G, 4, va - 4 * SUPERPAGE_1G);
    }
  }

  // ---------------------------------------------------------------------------------------------
  // Aliases.

  /** Below the top level, a walk sees only the low bits of the address. */
  lemma LowBitsDecide(f: Fetch, stage: Stage, table: nat, a: nat, b: nat, acc: Access)
    requires a % SUPERPAGE_2M == b % SUPERPAGE_2M
    ensures WalkFrom(f, stage, table, 0, a, acc) == WalkFrom(f, stage, table, 0, b, acc)
  {
    var a', b', r := a / SUPERPAGE_2M, b / SUPERPAGE_2M, a % SUPERPAGE_2M;
    Bits.DivUnique(a, PAGE, 512 * a' + r / PAGE, r % PAGE);
    Bits.DivUnique(b, PAGE, 512 * b' + r / PAGE, r % PAGE);
    Bits.DivUnique(512 * a' + r / PAGE, 512, a', r / PAGE);
    Bits.DivUnique(512 * b' + r / PAGE, 512, b', r / PAGE);
  }

  lemma MiddleBitsDecide(f: Fetch, stage: Stage, table: nat, a: nat, b: nat, acc: Access)
    requires a % SUPERPAGE_1G == b % SUPERPAGE_1G
    ensures WalkFrom(f, stage, table, 1, a, acc) == WalkFrom(f, stage, table, 1, b, acc)
  {
    var r := a % SUPERPAGE_1G;
    MiddleIndex(a, r);
    MiddleIndex(b, r);
    var got := f(table + 8 * (r / SUPERPAGE_2M));
    if got.Got? {
      var step := Interpret(stage, got.p, 1, acc);
      if step.Down? {
        LowBitsDecide(f, stage, step.table, a, b, acc);
      }
    }
  }

  lemma MiddleIndex(a: nat, r: nat)
    requires r == a % SUPERPAGE_1G
    ensures a / SUPERPAGE_2M % 512 == r / SUPERPAGE_2M && a % SUPERPAGE_2M == r % SUPERPAGE_2M
  {
    var q := a / SUPERPAGE_1G;
    Bits.DivUnique(a, SUPERPAGE_2M, 512 * q + r / SUPERPAGE_2M, r % SUPERPAGE_2M);
    Bits.DivUnique(512 * q + r / SUPERPAGE_2M, 512, q, r / SUPERPAGE_2M);
  }

  /** Two entries of a table that point to the same next table make aliases of the regions below them. */
  lemma SamePointerTop(f: Fetch, c: Config, v: View, o: nat, acc: Access)
    requires c.Sized() && v.Valid() && HoldsSecond(f, c, v) && c.s2Base % PAGE == 0
    requires o < SUPERPAGE_1G
    ensures Walk(f, Sv39x4, c.rootBase, 4 * SUPERPAGE_1G + o, acc)
         == Walk(f, Sv39x4, c.rootBase, 2047 * SUPERPAGE_1G + o, acc)
  {
    var a, b, table := 4 * SUPERPAGE_1G + o, 2047 * SUPERPAGE_1G + o, c.s2Base + 0x1000;
    Bits.DivUnique(a, SUPERPAGE_1G, 4, o);
    Bits.DivUnique(b, SUPERPAGE_1G, 2047, o);
    assert RootPte(c, 4) == PointerTo(table) && RootPte(c, 2047) == PointerTo(table);
    StepDown(f, Sv39x4, c.rootBase, 2, a, acc, table);
    StepDown(f, Sv39x4, c.rootBase, 2, b, acc, table);
    MiddleBitsDecide(f, Sv39x4, table, a, b, acc);
  }

  lemma SamePointerMiddle(f: Fetch, c: Config, v: View, o: nat, acc: Access)
    requires c.Sized() && v.Valid() && HoldsSecond(f, c, v) && c.s2Base % PAGE == 0
    requires o < SUPERPAGE_2M
    ensures Walk(f, Sv39x4, c.rootBase, 4 * SUPERPAGE_1G + o, acc)
         == Walk(f, Sv39x4, c.rootBase, 4 * SUPERPAGE_1G + 511 * SUPERPAGE_2M + o, acc)
  {
    var a, b := 4 * SUPERPAGE_1G + o, 4 * SUPERPAGE_1G + 511 * SUPERPAGE_2M + o;
    DownToPages(f, c, v, a, 0, o, acc);
    DownToPages(f, c, v, b, 511, o, acc);
    Bits.DivUnique(a, SUPERPAGE_2M, 2048, o);
    Bits.DivUnique(b, SUPERPAGE_2M, 2048 + 511, o);
    LowBitsDecide(f, Sv39x4, c.s2Base + 0x2000, a, b, acc);
  }

  lemma DownToPages(f: Fetch, c: Config, v: View, gpa: nat, j: nat, o: nat, acc: Access)
    requires c.Sized() && v.Valid() && HoldsSecond(f, c, v) && c.s2Base % PAGE == 0
    requires (j == 0 || j == 511) && o < SUPERPAGE_2M && gpa == 4 * SUPERPAGE_1G + j * SUPERPAGE_2M + o
    ensures Walk(f, Sv39x4, c.rootBase, gpa, acc) == WalkFrom(f, Sv39x4, c.s2Base + 0x2000, 0, gpa, acc)
  {
    var table := c.s2Base + 0x1000;
    Bits.DivUnique(gpa, SUPERPAGE_1G, 4, j * SUPERPAGE_2M + o);
    Bits.DivUnique(gpa, SUPERPAGE_2M, 2048 + j, o);
    assert RootPte(c, 4) == PointerTo(table);
    StepDown(f, Sv39x4, c.rootBase, 2, gpa, acc, table);
    SecondMiddle(f, c, v, j);
    StepDown(f, Sv39x4, table, 1, gpa, acc, c.s2Base + 0x2000);
  }

  /** At every state of the swaps, the gigabyte through root entry 4 and the one through root entry 2047
      translate equal offsets alike, and so do the 2 MiB through slots 0 and 511 of the table below: one test
      page has four guest physical addresses, the last of them `s1_page_base_limit`. */
  lemma Aliases(c: Config, v: View, page: nat, o: nat, acc: Access)
    requires c.Valid() && c.PermTable() && v.Valid() && page < TEST_PAGE_MAX && o < PAGE
    ensures Second(c, v, PageBaseLimit(page).value + o, acc) == Second(c, v, VirtPageBase(page).value + o, acc)
  {
    var f := ImageMemory(c, v);
    ImageHolds(c, v);
    var low := page * PAGE + o;
    SamePointerMiddle(f, c, v, low, acc);
    SamePointerTop(f, c, v, 511 * SUPERPAGE_2M + low, acc);
  }

  lemma AliasWindows(c: Config, v: View, o: nat, acc: Access)
    requires c.Valid() && c.PermTable() && v.Valid() && o < SUPERPAGE_1G
    ensures Second(c, v, 4 * SUPERPAGE_1G + o, acc) == Second(c, v, 2047 * SUPERPAGE_1G + o, acc)
    ensures o < SUPERPAGE_2M ==>
      Second(c, v, 4 * SUPERPAGE_1G + o, acc) == Second(c, v, 4 * SUPERPAGE_1G + 511 * SUPERPAGE_2M + o, acc)
  {
    var f := ImageMemory(c, v);
    ImageHolds(c, v);
    SamePointerTop(f, c, v, o, acc);
    if o < SUPERPAGE_2M {
      SamePointerMiddle(f, c, v, o, acc);
    }
  }

  // ---------------------------------------------------------------------------------------------
  // The shape of the tables.

  /** What a walker may ask of a PTE found at `level` in tables that span `[lo, hi)`. */
  predicate WellFormed(p: Pte, level: nat, lo: nat, hi: nat)
    requires level < 3
  {
    p.rights.v ==>
      && !p.reserved && !p.g && (p.rights.w ==> p.rights.r)
      && if level > 0 && !p.rights.r && !p.rights.x
         then !p.rights.u && !p.a && !p.d && lo <= p.ppn * PAGE && p.ppn * PAGE + PAGE <= hi
         else p.a && p.d && p.ppn * PAGE % LevelSize(level) == 0
  }

  /** The same by the bits of the word. */
  predicate WellFormedWord(w: nat, level: nat, lo: nat, hi: nat)
    requires level < 3
  {
    Bits.Bit(w, 0) ==>
      && w < 0x40_0000_0000_0000 && !Bits.Bit(w, 5) && (Bits.Bit(w, 2) ==> Bits.Bit(w, 1))
      && if level > 0 && !Bits.Bit(w, 1) && !Bits.Bit(w, 3)
         then !Bits.Bit(w, 4) && !Bits.Bit(w, 6) && !Bits.Bit(w, 7)
              && lo <= w / 1024 * 0x1000 && w / 1024 * 0x1000 + 0x1000 <= hi
         else Bits.Bit(w, 6) && Bits.Bit(w, 7)
              && w / 1024 % (if level == 0 then 1 else if level == 1 then 512 else 512 * 512) == 0
  }

  lemma WellFormedByBits(w: nat, level: nat, lo: nat, hi: nat)
    requires level < 3
    ensures WellFormedWord(w, level, lo, hi) <==> WellFormed(DecodePte(w), level, lo, hi)
  {
    FlagBits(w);
    Bits.BitIs(w, 5);
    if w < 0x40_0000_0000_0000 {
      FieldFits(w);
      PagesFit(w / 1024, level);
    }
  }

  function S1Level(k: nat): (l: nat)
    ensures l < 3
  {
    if k < 512 then 2 else if k < 1536 || k >= 2560 then 1 else 0
  }

  lemma LeafShape(p: Pte, addr: nat, t: Rights, level: nat, lo: nat, hi: nat)
    requires level < 3 && p == LeafTo(addr, t) && addr % PAGE == 0 && (t.w ==> t.r) && (level == 0 || (t.v && t.r))
    ensures WellFormed(p, level, lo, hi) <==> (t.v ==> addr % LevelSize(level) == 0)
  {
  }

  lemma PointerShape(p: Pte, table: nat, level: nat, lo: nat, hi: nat)
    requires 0 < level < 3 && p == PointerTo(table) && table % PAGE == 0
    ensures WellFormed(p, level, lo, hi) <==> lo <= table && table + PAGE <= hi
  {
  }

  lemma FirstRootShape(c: Config, v: View, k: nat)
    requires c.Sized() && v.Valid() && c.s1Base % PAGE == 0 && k < 512
    ensures WellFormed(S1Pte(c, v, k), 2, c.s1Base, c.s1Base + 0x6000)
  {
  }

  lemma FirstMiddleShape(c: Config, v: View, k: nat)
    requires c.Sized() && v.Valid() && c.s1Base % PAGE == 0 && (512 <= k < 1536 || 2560 <= k < 3072)
    ensures WellFormed(S1Pte(c, v, k), 1, c.s1Base, c.s1Base + 0x6000)
  {
  }

  lemma FirstPagesShape(c: Config, v: View, k: nat)
    requires c.Sized() && c.PermTable() && v.Valid() && 1536 <= k < 2560
    ensures WellFormed(S1Pte(c, v, k), 0, c.s1Base, c.s1Base + 0x6000)
  {
    var page := if k < 2048 then v.FirstSlot(k - 1536) else k - 2048;
    var base := if k < 2048 then TEST_VPAGE_BASE else TEST_VPAGE_BASE + SUPERPAGE_2M;
    PageAddress(base, page);
    PermRights(c, page);
    LeafShape(S1Pte(c, v, k), base + page * PAGE, RightsOf(Perm1(c, page)), 0, c.s1Base, c.s1Base + 0x6000);
  }

  /** Init establishes, and the swaps keep, first-stage tables whose pointers carry only V and a PPN and stay
      among the tables, and whose leaves are aligned, have A and D set and never W without R. */
  lemma FirstStageWellFormed(c: Config, v: View, k: nat)
    requires c.Valid() && c.PermTable() && v.Valid() && k < 3072
    ensures WellFormedWord(S1Entry(c, v, k), S1Level(k), c.s1Base, c.s1Base + 0x6000)
  {
    WellFormedByBits(S1Entry(c, v, k), S1Level(k), c.s1Base, c.s1Base + 0x6000);
    DecodeS1(c, v, k);
    if k < 512 {
      FirstRootShape(c, v, k);
    } else if 1536 <= k < 2560 {
      FirstPagesShape(c, v, k);
    } else {
      FirstMiddleShape(c, v, k);
    }
  }

  function S2Level(k: nat): (l: nat)
    ensures l < 3
  {
    if k < 1024 || k >= 2048 then 1 else 0
  }

  lemma SecondRootShape(c: Config, k: nat)
    requires c.s2Base % PAGE == 0 && k < 2048
    ensures WellFormed(RootPte(c, k), 2, c.s2Base, c.s2Base + 0x5000)
  {
  }

  lemma SecondMiddleShape(c: Config, v: View, k: nat)
    requires c.Sized() && v.Valid() && c.s2Base % PAGE == 0 && c.memBase % SUPERPAGE_1G == 0 && k < 1024
    ensures WellFormed(S2Pte(c, v, k), 1, c.s2Base, c.s2Base + 0x5000)
  {
    var p, lo, hi := S2Pte(c, v, k), c.s2Base, c.s2Base + 0x5000;
    if p == INVALID {
    } else if k < 512 {
      SuperpageAddress(c.memBase, k);
      Superpage2M(c.memBase, k);
      LeafShape(p, c.memBase + k * SUPERPAGE_2M, URWX, 1, lo, hi);
    } else {
      PointerShape(p, c.s2Base + (if k == 513 then 0x3000 else 0x2000), 1, lo, hi);
    }
  }

  lemma SecondPagesShape(c: Config, v: View, k: nat)
    requires c.Sized() && c.PermTable() && c.PageAligned() && c.memBase % SUPERPAGE_1G == 0
    requires v.Valid() && 1024 <= k < 2048
    ensures WellFormed(S2Pte(c, v, k), 0, c.s2Base, c.s2Base + 0x5000)
  {
    var page := if k < 1536 then v.SecondSlot(k - 1024) else k - 1536;
    var base := c.TestPpageBase();
    assert base % PAGE == 0 by { TestPpageAligned(c); }
    PageAddress(base, page);
    PermRights(c, page);
    LeafShape(S2Pte(c, v, k), base + page * PAGE, RightsOf(Perm2(c, page)), 0, c.s2Base, c.s2Base + 0x5000);
  }

  lemma SecondTopShape(c: Config, v: View, k: nat)
    requires c.Sized() && c.PageAligned() && c.memBase % SUPERPAGE_1G == 0
    requires v.Valid() && 2048 <= k < 2560
    ensures WellFormed(S2Pte(c, v, k), 1, c.s2Base, c.s2Base + 0x5000) <==> c.SuperpageAligned()
  {
    var base := c.TestPpageBase();
    TestPpageAligned(c);
    SuperpageAddress(base, k - 2048);
    Superpage2M(base, k - 2048);
    LeafShape(S2Pte(c, v, k), base + (k - 2048) * SUPERPAGE_2M, URWX, 1, c.s2Base, c.s2Base + 0x5000);
  }

  /** The second-stage tables are well formed in every slot exactly when the upper half of memory starts on a
      superpage: the leaves of the 5 GiB window, and only they, depend on it. */
  lemma SecondStageWellFormed(c: Config, v: View, k: nat)
    requires c.Valid() && c.PermTable() && c.PageAligned() && v.Valid()
    ensures k < 2048 ==> WellFormedWord(RootEntry(c, k), 2, c.s2Base, c.s2Base + 0x5000)
    ensures k < 2560 ==>
      (WellFormedWord(S2Entry(c, v, k), S2Level(k), c.s2Base, c.s2Base + 0x5000)
       <==> (k < 2048 || c.SuperpageAligned()))
  {
    if k < 2048 {
      WellFormedByBits(RootEntry(c, k), 2, c.s2Base, c.s2Base + 0x5000);
      DecodeRoot(c, k);
      SecondRootShape(c, k);
    }
    if k < 2560 {
      WellFormedByBits(S2Entry(c, v, k), S2Level(k), c.s2Base, c.s2Base + 0x5000);
      DecodeS2(c, v, k);
      if k < 1024 {
        SecondMiddleShape(c, v, k);
      } else if k < 2048 {
        SecondPagesShape(c, v, k);
      } else {
        SecondTopShape(c, v, k);
      }
    }
  }

  /** A valid leaf that a user may use; the second stage refuses any other. */
  predicate LeafHasUser(p: Pte) {
    p.rights.v && (p.rights.r || p.rights.x) ==> p.rights.u
  }

  /** All valid second-stage leaves have U set, in every state of the swaps, exactly when the permission table
      gives U to every page whose second-stage entry is a valid leaf. */
  lemma SecondLeavesHaveUser(c: Config, v: View)
    requires c.Valid() && c.PermTable() && c.PageAligned() && v.Valid()
    ensures (forall k: nat | k < 2048 :: LeafHasUser(RootPte(c, k)))
    ensures (forall k: nat | k < 2560 :: LeafHasUser(S2Pte(c, v, k)))
       <==> (forall page: nat | page < TEST_PAGE_MAX :: LeafHasUser(LeafTo(0, RightsOf(Perm2(c, page)))))
  {
    forall page: nat | page < TEST_PAGE_MAX
      ensures S2Pte(c, v, 1536 + page).rights == RightsOf(Perm2(c, page))
    {
    }
    forall k: nat | k < 2560
      ensures if 1024 <= k < 1536 then S2Pte(c, v, k).rights == RightsOf(Perm2(c, v.SecondSlot(k - 1024)))
              else 1536 <= k < 2048 || LeafHasUser(S2Pte(c, v, k))
    {
    }
    if forall k: nat | k < 2560 :: LeafHasUser(S2Pte(c, v, k)) {
      forall page: nat | page < TEST_PAGE_MAX
        ensures LeafHasUser(LeafTo(0, RightsOf(Perm2(c, page))))
      {
        assert LeafHasUser(S2Pte(c, v, 1536 + page));
      }
    } else {
      var k: nat :| k < 2560 && !LeafHasUser(S2Pte(c, v, k));
      var page := if k < 1536 then v.SecondSlot(k - 1024) else k - 1536;
      assert !LeafHasUser(LeafTo(0, RightsOf(Perm2(c, page))));
    }
  }
}
