/** The runs that the results on the IOTLB speak of do happen: the rounds of `iotinval` from every initial state, with
    the IOMMU's own steps anywhere among them. And what each of those steps does. */
module IotlbTest {
  import Commands
  import Rings
  import opened PageWalk
  import opened PageTables
  import opened Translation
  import opened TwoStage
  import opened Swaps
  import opened Iotlb
  import opened IotlbSafety
  import opened IotlbRuns

  // ---------------------------------------------------------------------------------------------
  // Runs in pieces.

  lemma {:induction false} RunPieces(m: Machine, s: State, a: seq<Event>, b: seq<Event>)
    requires Shaped(s)
    ensures Possible(m, s, a + b) <==> Possible(m, s, a) && Possible(m, After(m, s, a), b)
    ensures Possible(m, s, a + b) ==> After(m, s, a + b) == After(m, After(m, s, a), b)
    decreases |a|
  {
    if a == [] {
      assert a + b == b;
    } else {
      assert (a + b)[1..] == a[1..] + b;
      if Enabled(m, s, a[0]) {
        RunPieces(m, Next(m, s, a[0]), a[1..], b);
      }
    }
  }

  lemma {:induction false} DriverPieces(a: seq<Event>, b: seq<Event>)
    ensures DriverSteps(a + b) == DriverSteps(a) + DriverSteps(b)
    decreases |a|
  {
    if a == [] {
      assert a + b == b;
    } else {
      assert (a + b)[1..] == a[1..] + b;
      DriverPieces(a[1..], b);
    }
  }

  /** A fill for a context, of some page, or an eviction of any lines. */
  predicate OwnStep(m: Machine, e: Event) {
    || e.Evict?
    || ((e.FillFirst? || e.FillCombined?) && e.key.ctx in m.contexts && e.key.page % 0x1000 == 0)
    || (e.FillSecond? && e.ctx in m.contexts && e.gpage % 0x1000 == 0)
  }

  predicate OwnSteps(m: Machine, es: seq<Event>) {
    forall i :: 0 <= i < |es| ==> OwnStep(m, es[i])
  }

  /** Alike but for the caches. */
  predicate SameControl(s: State, t: State) {
    s.tables == t.tables && s.driver == t.driver && s.ring == t.ring
  }

  lemma OwnStepRuns(m: Machine, s: State, e: Event)
    requires Shaped(s) && OwnStep(m, e)
    ensures Enabled(m, s, e) && SameControl(s, Next(m, s, e))
  {
  }

  lemma {:induction false} OwnStepsRun(m: Machine, s: State, es: seq<Event>)
    requires Shaped(s) && OwnSteps(m, es)
    ensures Possible(m, s, es) && SameControl(s, After(m, s, es)) && DriverSteps(es) == []
    decreases |es|
  {
    if es != [] {
      OwnStepRuns(m, s, es[0]);
      OwnStepsRun(m, Next(m, s, es[0]), es[1..]);
    }
  }

  lemma {:induction false} ControlRuns(m: Machine, s: State, t: State, es: seq<Event>)
    requires Shaped(s) && Shaped(t) && SameControl(s, t) && Possible(m, s, es)
    ensures Possible(m, t, es) && SameControl(After(m, s, es), After(m, t, es))
    decreases |es|
  {
    if es != [] {
      ControlRuns(m, Next(m, s, es[0]), Next(m, t, es[0]), es[1..]);
    }
  }

  /** Wherever a run may be interrupted the IOMMU may fill and evict what it likes: between the two stores of a swap,
      with an invalidation owed, with one queued. The rest of the run goes on with the same tables and queue. */
  lemma OwnStepsAnywhere(m: Machine, s: State, a: seq<Event>, own: seq<Event>, b: seq<Event>)
    requires Shaped(s) && Possible(m, s, a + b) && OwnSteps(m, own)
    ensures Possible(m, s, a + own + b) && DriverSteps(a + own + b) == DriverSteps(a + b)
    ensures SameControl(After(m, s, a + own + b), After(m, s, a + b))
  {
    RunPieces(m, s, a, b);
    var t := After(m, s, a);
    OwnStepsRun(m, t, own);
    ControlRuns(m, t, After(m, t, own), b);
    RunPieces(m, s, a, own);
    RunPieces(m, s, a + own, b);
    DriverPieces(a, own);
    DriverPieces(a + own, b);
    DriverPieces(a, b);
  }

  // ---------------------------------------------------------------------------------------------
  // The rounds happen.

  predicate AtRest(s: State) {
    Shaped(s) && s.driver == Idle && s.ring.head == s.ring.tail
  }

  /** The driver's round, and the IOMMU executing its command. */
  function RoundDone(g: bv64, p: bv64, r: Swap): seq<Event> {
    Round(g, p, r) + [Execute]
  }

  /** From rest any legal command can be queued and executed. */
  lemma QueueAndExecute(m: Machine, s: State, cmd: Command)
    requires AtRest(s) && !Commands.Decode(cmd).Illegal?
    ensures Possible(m, s, [Queue(cmd), Execute]) && AtRest(After(m, s, [Queue(cmd), Execute]))
  {
    Rings.EmptyIff(s.ring);
    Rings.PushItems(s.ring, cmd);
    var t := Next(m, s, Queue(cmd));
    Rings.EmptyIff(t.ring);
    Rings.PopItems(t.ring);
    var u := Next(m, t, Execute);
    Rings.EmptyIff(u.ring);
    assert [Queue(cmd), Execute] == [Queue(cmd)] + [Execute];
    assert Possible(m, t, [Execute]) && After(m, t, [Execute]) == u by { LastEvent(m, t, Execute); }
    StepFirst(m, s, Queue(cmd), [Execute]);
  }

  lemma LastEvent(m: Machine, s: State, e: Event)
    requires Shaped(s) && Enabled(m, s, e)
    ensures Possible(m, s, [e]) && After(m, s, [e]) == Next(m, s, e)
  {
    assert [e][1..] == [];
  }

  lemma SwapRuns(m: Machine, s: State, r: Swap)
    requires AtRest(s)
    ensures var es := if r == SwapFirst then [BeginFirst, EndFirst] else [BeginSecond, EndSecond];
      Possible(m, s, es) && AtRest(After(m, s, es))
  {
    var begin, end := if r == SwapFirst then BeginFirst else BeginSecond, if r == SwapFirst then EndFirst else EndSecond;
    var t := Next(m, s, begin);
    LastEvent(m, t, end);
    StepFirst(m, s, begin, [end]);
    assert [begin, end] == [begin] + [end];
  }

  lemma RoundRuns(m: Machine, s: State, g: bv64, p: bv64, r: Swap)
    requires AtRest(s) && Identifiers(g, p)
    ensures Possible(m, s, RoundDone(g, p, r)) && AtRest(After(m, s, RoundDone(g, p, r)))
    ensures DriverSteps(RoundDone(g, p, r)) == Round(g, p, r)
  {
    var swap := if r == SwapFirst then [BeginFirst, EndFirst] else [BeginSecond, EndSecond];
    var cmd := if r == SwapFirst then VmaCommand(g, p) else GvmaCommand(g);
    SwapRuns(m, s, r);
    assert !Commands.Decode(cmd).Illegal? by {
      VmaClears(g, p, Commands.Decode(VmaCommand(g, p)));
      GvmaClears(g, Commands.Decode(GvmaCommand(g)));
    }
    QueueAndExecute(m, After(m, s, swap), cmd);
    RunPieces(m, s, swap, [Queue(cmd), Execute]);
    assert RoundDone(g, p, r) == swap + [Queue(cmd), Execute];
    RoundSteps(g, p, r);
  }

  lemma RoundSteps(g: bv64, p: bv64, r: Swap)
    ensures DriverSteps(RoundDone(g, p, r)) == Round(g, p, r)
  {
    var es := Round(g, p, r);
    DriverPieces(es, [Execute]);
    assert es == [es[0]] + ([es[1]] + [es[2]]);
    DriverPieces([es[0]], [es[1]] + [es[2]]);
    DriverPieces([es[1]], [es[2]]);
    OneStep(es[0]);
    OneStep(es[1]);
    OneStep(es[2]);
    OneStep(Execute);
  }

  lemma OneStep(e: Event)
    ensures DriverSteps([e]) == if ByIommu(e) then [] else [e]
  {
    assert [e][1..] == [];
  }

  /** The whole test: some fills and evictions, then a round, and so on, with fills at the end as well. */
  function TestRun(own: seq<Event>, g: bv64, p: bv64, rounds: seq<Swap>): seq<Event> {
    if rounds == [] then own else own + RoundDone(g, p, rounds[0]) + TestRun(own, g, p, rounds[1..])
  }

  lemma {:induction false} TestRuns(m: Machine, s: State, own: seq<Event>, g: bv64, p: bv64, rounds: seq<Swap>)
    requires AtRest(s) && Identifiers(g, p) && OwnSteps(m, own)
    ensures var es := TestRun(own, g, p, rounds);
      Possible(m, s, es) && AtRest(After(m, s, es)) && DriverSteps(es) == Script(g, p, rounds)
    decreases |rounds|
  {
    OwnStepsRun(m, s, own);
    if rounds != [] {
      var block, rest := own + RoundDone(g, p, rounds[0]), TestRun(own, g, p, rounds[1..]);
      BlockRuns(m, s, own, g, p, rounds[0]);
      TestRuns(m, After(m, s, block), own, g, p, rounds[1..]);
      RunPieces(m, s, block, rest);
      DriverPieces(block, rest);
    }
  }

  lemma BlockRuns(m: Machine, s: State, own: seq<Event>, g: bv64, p: bv64, r: Swap)
    requires AtRest(s) && Identifiers(g, p) && OwnSteps(m, own)
    ensures var es := own + RoundDone(g, p, r);
      Possible(m, s, es) && AtRest(After(m, s, es)) && DriverSteps(es) == Round(g, p, r)
  {
    OwnStepsRun(m, s, own);
    RoundRuns(m, After(m, s, own), g, p, r);
    RunPieces(m, s, own, RoundDone(g, p, r));
    DriverPieces(own, RoundDone(g, p, r));
    assert [] + Round(g, p, r) == Round(g, p, r);
  }

  /** From every initial state, with any fills and evictions before each swap and at the end, any number of rounds is a
      possible run that ends with the queue drained, and each page is then answered as the rounds say. */
  lemma RoundsHappen(m: Machine, s: State, own: seq<Event>, g: bv64, p: bv64, rounds: seq<Swap>,
                     ctx: Tag, first: bool, o: nat, acc: Access)
    requires m.Valid() && m.c.PageAligned() && Initial(m, s) && Settles(m, g, p) && OwnSteps(m, own) && o < PAGE
    ensures var es := TestRun(own, g, p, rounds);
      && Possible(m, s, es) && DriverSteps(es) == Script(g, p, rounds)
      && After(m, s, es).ring.head == After(m, s, es).ring.tail
      && Lookup(m, After(m, s, es), ctx, VirtPageBase(Pick(first)).value + o, acc)
         == PageResult(m.c, GuestPage(rounds, first), FinalPage(rounds, first), o, acc)
  {
    TestRuns(m, s, own, g, p, rounds);
    IotinvalRounds(m, s, TestRun(own, g, p, rounds), g, p, rounds, ctx, first, o, acc);
  }

  /** The steps with which a device's transfer to a page fills the IOTLB. */
  function Fills(ctx: Tag, page: nat, acc: Access): seq<Event> {
    [FillFirst(FirstKey(ctx, page, acc)), FillSecond(ctx, page, acc), FillCombined(FirstKey(ctx, page, acc))]
  }

  /** The fills of the test's two pairs of transfers: IOTINVAL_R1 and R2 are read, SWITCH1 and SWITCH2 written. */
  function TestFills(ctx: Tag): seq<Event> {
    var read, write := Access(Read, false, false), Access(Write, false, false);
    Fills(ctx, 0x1_0001_0000, read) + Fills(ctx, 0x1_0001_B000, write)
    + Fills(ctx, 0x1_0001_1000, read) + Fills(ctx, 0x1_0001_C000, write)
  }

  lemma TestFillsAreOwn(m: Machine, ctx: Tag)
    requires ctx in m.contexts
    ensures OwnSteps(m, TestFills(ctx))
  {
  }

  // ---------------------------------------------------------------------------------------------
  // What the IOMMU's steps do.

  /** IOTINVAL.VMA drops exactly the non-global first-stage lines of its context, and the combined ones. */
  lemma VmaDrops(s: State, g: bv64, p: bv64, k: FirstKey)
    requires Shaped(s) && Identifiers(g, p)
    ensures var t := Executed(s, Commands.Decode(VmaCommand(g, p)));
      && (k in t.first <==> k in s.first && (k.ctx != Tag(g, p) || s.first[k].global))
      && (k in t.combined <==> k in s.combined && (k.ctx != Tag(g, p) || s.combined[k].global))
      && t.second == s.second && t.ring == s.ring.Pop()
  {
    var d := Commands.Decode(VmaCommand(g, p));
    VmaClears(g, p, d);
    assert Executed(s, d).second == s.second;
  }

  /** IOTINVAL.GVMA drops exactly the second-stage lines of its guest, and the combined ones. */
  lemma GvmaDrops(s: State, g: bv64, k: FirstKey, h: SecondKey)
    requires Shaped(s) && Identifiers(g, 0)
    ensures var t := Executed(s, Commands.Decode(GvmaCommand(g)));
      && t.first == s.first && t.ring == s.ring.Pop()
      && (h in t.second <==> h in s.second && h.gscid != g)
      && (k in t.combined <==> k in s.combined && k.ctx.gscid != g)
  {
    var d := Commands.Decode(GvmaCommand(g));
    GvmaClears(g, d);
    assert Executed(s, d).first == s.first;
  }

  /** A walk through PTEs with G set makes a global line, which no invalidation by PSCID would drop: that the driver's
      tables have none of them is what `IotlbSafety.NotGlobal` is about. */
  lemma GlobalLines(m: Machine, s: State, k: FirstKey)
    requires Shaped(s) && s.first == map[] && Enabled(m, s, FillFirst(k)) && Enabled(m, s, FillCombined(k))
    requires forall a :: CachedFetch(m, s, k.ctx.gscid)(a).Got? ==> CachedFetch(m, s, k.ctx.gscid)(a).p.g
    requires FirstWalk(m, s, k.ctx, k.page, k.acc).Mapped?
    requires forall a :: CachedFetch(m, s, k.ctx.gscid)(a).Fault? ==> !CachedFetch(m, s, k.ctx.gscid)(a).o.Mapped?
    ensures Next(m, s, FillFirst(k)).first[k].global && Next(m, s, FillCombined(k)).combined[k].global
  {
    assert MeetsGlobal(CachedFetch(m, s, k.ctx.gscid), Sv39, m.c.s1Base, 2, k.page, k.acc);
  }

  /** A walk depends on what it fetches alone. */
  lemma {:induction false} SameFetches(f: Fetch, g: Fetch, stage: Stage, table: nat, level: nat, va: nat, acc: Access)
    requires level < 3 && forall a :: f(a) == g(a)
    ensures WalkFrom(f, stage, table, level, va, acc) == WalkFrom(g, stage, table, level, va, acc)
    decreases level
  {
    var got := f(table + 8 * Index(stage, level, va));
    if got.Got? {
      var step := Interpret(stage, got.p, level, acc);
      if step.Down? && level > 0 {
        SameFetches(f, g, stage, step.table, level - 1, va, acc);
      }
      SameStep(f, g, stage, table, level, va, acc, step);
    }
  }

  lemma FetchUncached(m: Machine, s: State, gscid: bv64, a: nat)
    requires s.second == map[]
    ensures CachedFetch(m, s, gscid)(a) == Through(Memory(m.c, s.tables), m.c.rootBase)(a)
  {
    var slot := SecondLookup(m, s, gscid, a, Access(Read, false, false));
    assert slot == Walk(Memory(m.c, s.tables), Sv39x4, m.c.rootBase, a, Access(Read, false, false));
    match slot
    case Mapped(_) =>
    case PageFault =>
    case GuestFault =>
    case AccessFault =>
  }

  /** With nothing cached, in whatever state, the answer is the uncached walk. */
  lemma NothingCached(m: Machine, s: State, ctx: Tag, va: nat, acc: Access)
    requires Shaped(s) && s.first == map[] && s.second == map[] && s.combined == map[]
    ensures Lookup(m, s, ctx, va, acc) == Uncached(m, s, va, acc)
  {
    var f := Memory(m.c, s.tables);
    var g, h := CachedFetch(m, s, ctx.gscid), Through(f, m.c.rootBase);
    forall a
      ensures g(a) == h(a)
    {
      FetchUncached(m, s, ctx.gscid, a);
    }
    if InRange(Sv39, va) {
      SameFetches(g, h, Sv39, m.c.s1Base, 2, va, acc);
    }
  }

  /** So is it after an eviction of everything. */
  lemma EvictionRestores(m: Machine, s: State, ctx: Tag, va: nat, acc: Access)
    requires Shaped(s)
    ensures var t := Next(m, s, Evict(s.first.Keys, s.second.Keys, s.combined.Keys));
      Lookup(m, t, ctx, va, acc) == Uncached(m, s, va, acc)
  {
    var t := Next(m, s, Evict(s.first.Keys, s.second.Keys, s.combined.Keys));
    assert t.first == map[] && t.second == map[] && t.combined == map[];
    NothingCached(m, t, ctx, va, acc);
  }

  /** A single stale first-stage line is enough for a stale answer. */
  lemma StaleFirstLine(m: Machine, s: State, k: FirstKey)
    requires m.Valid() && Initial(m, s) && k.ctx in m.contexts && k.page % PAGE == 0
    ensures var es := [FillFirst(k), BeginFirst, EndFirst];
      Possible(m, s, es) && Lookup(m, After(m, s, es), k.ctx, k.page, k.acc) == Translate(m.c, UNSWAPPED, k.page, k.acc)
  {
    var es := [FillFirst(k), BeginFirst, EndFirst];
    var t := Next(m, s, es[0]);
    var u := Next(m, Next(m, t, es[1]), es[2]);
    ThreeSteps(m, s, es[0], es[1], es[2]);
    assert Inv(m, u) by {
      InitialInv(m, s);
      RunKeeps(m, s, es);
    }
    assert FirstLookup(m, s, k.ctx, k.page, k.acc) == First(m.c, UNSWAPPED, k.page, k.acc) by {
      InitialInv(m, s);
      NothingDue(m, s, k.ctx);
      FirstLookupOk(m, s, UNSWAPPED, k.ctx, k.page, k.acc);
    }
    assert PageOf(k.page) == k.page && k.page % PAGE == 0;
    assert FirstLookup(m, u, k.ctx, k.page, k.acc) == First(m.c, UNSWAPPED, k.page, k.acc);
    TranslateParts(m.c, UNSWAPPED, k.page, k.acc);
    var first := First(m.c, UNSWAPPED, k.page, k.acc);
    if first.Mapped? {
      SwapsFrameSecond(m.c, UNSWAPPED, ViewOf(u), first.pa, k.acc);
    }
  }

  /** And so is a single stale second-stage line. */
  lemma StaleSecondLine(m: Machine, s: State, ctx: Tag, acc: Access)
    requires m.Valid() && m.c.PageAligned() && Initial(m, s) && ctx in m.contexts
    ensures var page := VirtPageBase(SWITCH1).value;
      var es := [FillSecond(ctx, page, acc), BeginSecond, EndSecond];
      && Possible(m, s, es)
      && Lookup(m, After(m, s, es), ctx, page, acc) == PageResult(m.c, SWITCH1, SWITCH1, 0, acc)
      && Uncached(m, After(m, s, es), page, acc) == PageResult(m.c, SWITCH1, SWITCH2, 0, acc)
  {
    var page := VirtPageBase(SWITCH1).value;
    var es := [FillSecond(ctx, page, acc), BeginSecond, EndSecond];
    var t := Next(m, s, es[0]);
    SecondSwapKeepsLines(m, t);
    var u := Next(m, Next(m, t, es[1]), es[2]);
    ThreeSteps(m, s, es[0], es[1], es[2]);
    assert Inv(m, u) by {
      InitialInv(m, s);
      RunKeeps(m, s, es);
    }
    assert t.second == map[SecondKey(ctx.gscid, page, acc) := Second(m.c, UNSWAPPED, page, acc)] by {
      FilledSecond(m, s, ctx, page, acc);
    }
    SecondStale(m, s, u, ctx, page, acc);
    UnswappedHome(m.c, acc);
    UncachedSecondSwapped(m, u, acc);
  }

  lemma SecondSwapKeepsLines(m: Machine, s: State)
    requires Shaped(s) && s.driver == Idle
    ensures Next(m, s, BeginSecond).driver.InSecond?
    ensures var t := Next(m, Next(m, s, BeginSecond), EndSecond);
      && t.first == s.first && t.second == s.second && t.combined == s.combined
      && t.driver == Idle && t.swaps1 == s.swaps1 && t.swaps2 == s.swaps2 + 1
  {
  }

  lemma FilledSecond(m: Machine, s: State, ctx: Tag, page: nat, acc: Access)
    requires m.Valid() && Initial(m, s) && ctx in m.contexts && page % PAGE == 0
    ensures Next(m, s, FillSecond(ctx, page, acc)).second
         == map[SecondKey(ctx.gscid, page, acc) := Second(m.c, UNSWAPPED, page, acc)]
  {
    InitialInv(m, s);
    NothingDue(m, s, ctx);
    SecondLookupOk(m, s, UNSWAPPED, ctx.gscid, page, acc);
  }

  lemma UncachedSecondSwapped(m: Machine, s: State, acc: Access)
    requires m.Valid() && m.c.PageAligned() && Shaped(s) && TablesOk(m, s)
    requires s.driver == Idle && s.swaps1 == 0 && s.swaps2 == 1
    ensures Uncached(m, s, VirtPageBase(SWITCH1).value, acc) == PageResult(m.c, SWITCH1, SWITCH2, 0, acc)
  {
    PageOutcome(m.c, ViewOf(s), SWITCH1, 0, acc);
  }

  lemma SecondStale(m: Machine, s: State, u: State, ctx: Tag, page: nat, acc: Access)
    requires m.Valid() && m.c.PageAligned() && Inv(m, u) && page == VirtPageBase(SWITCH1).value
    requires ViewOf(u).p1 == SWITCH1 && ViewOf(u).p2 == SWITCH2
    requires u.first == map[] && u.combined == map[]
    requires u.second == map[SecondKey(ctx.gscid, page, acc) := Second(m.c, UNSWAPPED, page, acc)]
    ensures Lookup(m, u, ctx, page, acc) == Translate(m.c, UNSWAPPED, page, acc)
  {
    assert page == 0x1_0001_B000 && PageOf(page) == page && page % PAGE == 0;
    var first := First(m.c, UNSWAPPED, page, acc);
    assert FirstLookup(m, u, ctx, page, acc) == first by {
      FirstWalkOk(m, u, ViewOf(u), ctx, page, acc);
      SwapsFrameFirst(m.c, ViewOf(u), UNSWAPPED, page, acc);
    }
    assert first.Mapped? ==> first.pa == page by { HomePage(m.c, page, acc); }
    assert SecondLookup(m, u, ctx.gscid, page, acc) == Second(m.c, UNSWAPPED, page, acc) by {
      ShiftNone(Second(m.c, UNSWAPPED, page, acc));
    }
    TranslateParts(m.c, UNSWAPPED, page, acc);
  }

  lemma ShiftNone(o: Outcome)
    ensures Shift(o, 0) == o
  {
  }

  lemma HomePage(c: Config, page: nat, acc: Access)
    requires c.Valid() && c.PermTable() && page == VirtPageBase(SWITCH1).value
    ensures First(c, UNSWAPPED, page, acc).Mapped? ==> First(c, UNSWAPPED, page, acc).pa == page
  {
    FirstIs(c, UNSWAPPED, page, acc);
    FirstPageTarget(c, UNSWAPPED, page, 0, SWITCH1, 0);
  }
}
