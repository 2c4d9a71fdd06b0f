/** The `iotinval` test in every interleaving: rounds of swap and invalidate by the driver against an IOMMU
    that walks, caches, evicts and executes whenever it likes. */
module IotlbRuns {
  import Bits
  import Commands
  import Rings
  import DC = DeviceContext
  import opened PageWalk
  import opened PageTables
  import opened TableWords
  import opened Translation
  import opened TwoStage
  import opened Swaps
  import opened Iotlb
  import opened IotlbSafety

  // ---------------------------------------------------------------------------------------------
  // The driver's part of a run.

  /** Steps the IOMMU takes by itself. */
  predicate ByIommu(e: Event) {
    e.Execute? || e.FillFirst? || e.FillSecond? || e.FillCombined? || e.Evict?
  }

  function DriverSteps(es: seq<Event>): seq<Event> {
    if es == [] then [] else (if ByIommu(es[0]) then [] else [es[0]]) + DriverSteps(es[1..])
  }

  datatype Phase = Outside | WithinFirst | WithinSecond

  /** The part of the state that only the driver changes: progress and debts. */
  datatype Ledger = Ledger(phase: Phase, swaps1: nat, swaps2: nat, owedFirst: set<Tag>, owedSecond: set<bv64>)

  function LedgerOf(s: State): Ledger {
    var phase := match s.driver
      case Idle => Outside
      case InFirst(_) => WithinFirst
      case InSecond(_) => WithinSecond;
    Ledger(phase, s.swaps1, s.swaps2, s.owedFirst, s.owedSecond)
  }

  function LedgerNext(m: Machine, l: Ledger, e: Event): Ledger {
    match e
    case BeginFirst => l.(phase := WithinFirst, owedFirst := l.owedFirst + m.contexts)
    case EndFirst => l.(phase := Outside, swaps1 := l.swaps1 + 1, owedFirst := l.owedFirst + m.contexts)
    case BeginSecond => l.(phase := WithinSecond, owedSecond := l.owedSecond + m.Gscids())
    case EndSecond => l.(phase := Outside, swaps2 := l.swaps2 + 1, owedSecond := l.owedSecond + m.Gscids())
    case Queue(cmd) => Settled(l, Commands.Decode(cmd))
    case _ => l
  }

  function Settled(l: Ledger, d: Commands.Decoded): Ledger {
    l.(owedFirst := (set x | x in l.owedFirst && !ClearsFirst(d, x)),
       owedSecond := (set g | g in l.owedSecond && !ClearsSecond(d, g)))
  }

  function LedgerAfter(m: Machine, l: Ledger, es: seq<Event>): Ledger
    decreases |es|
  {
    if es == [] then l else LedgerAfter(m, LedgerNext(m, l, es[0]), es[1..])
  }

  lemma LedgerStep(m: Machine, s: State, e: Event)
    requires Shaped(s) && Enabled(m, s, e)
    ensures LedgerOf(Next(m, s, e)) == LedgerNext(m, LedgerOf(s), e)
  {
  }

  lemma LedgerIgnoresIommu(m: Machine, l: Ledger, e: Event)
    requires ByIommu(e)
    ensures LedgerNext(m, l, e) == l
  {
  }

  lemma LedgerCons(m: Machine, l: Ledger, e: Event, rest: seq<Event>)
    ensures LedgerAfter(m, l, [e] + rest) == LedgerAfter(m, LedgerNext(m, l, e), rest)
  {
  }

  /** However the IOMMU interleaves, progress and debts depend on the driver's steps alone. */
  lemma {:induction false} LedgerRun(m: Machine, s: State, es: seq<Event>)
    requires Shaped(s) && Possible(m, s, es)
    ensures LedgerOf(After(m, s, es)) == LedgerAfter(m, LedgerOf(s), DriverSteps(es))
    decreases |es|
  {
    if es != [] {
      var t := Next(m, s, es[0]);
      LedgerStep(m, s, es[0]);
      LedgerRun(m, t, es[1..]);
      if ByIommu(es[0]) {
        LedgerIgnoresIommu(m, LedgerOf(s), es[0]);
        assert DriverSteps(es) == DriverSteps(es[1..]);
      } else {
        LedgerCons(m, LedgerOf(s), es[0], DriverSteps(es[1..]));
      }
    }
  }

  // ---------------------------------------------------------------------------------------------
  // Rounds of swap and invalidate.

  /** The two invalidations of `iotinval`. */
  function VmaCommand(g: bv64, p: bv64): Command {
    Commands.IotinvalVma(false, true, true, 0, g, p)
  }

  function GvmaCommand(g: bv64): Command {
    Commands.IotinvalGvma(false, true, 0, g)
  }

  predicate Identifiers(g: bv64, p: bv64) {
    g < 0x1_0000 && p < 0x10_0000
  }

  lemma VmaClears(g: bv64, p: bv64, d: Commands.Decoded)
    requires Identifiers(g, p) && d == Commands.Decode(VmaCommand(g, p))
    ensures d == Commands.Vma(false, true, true, 0, g, p)
  {
  }

  lemma GvmaClears(g: bv64, d: Commands.Decoded)
    requires g < 0x1_0000 && d == Commands.Decode(GvmaCommand(g))
    ensures d == Commands.Gvma(false, true, 0, g)
  {
  }

  /** The one IOTINVAL.VMA settles the debt of every context exactly when all contexts share its GSCID and
      its PSCID, and the one IOTINVAL.GVMA exactly when they share its GSCID. */
  lemma SharedIdentifiers(m: Machine, l: Ledger, g: bv64, p: bv64)
    requires Identifiers(g, p) && l.owedFirst == m.contexts && l.owedSecond == m.Gscids()
    ensures LedgerNext(m, l, Queue(VmaCommand(g, p))).owedFirst == {} <==> m.contexts <= {Tag(g, p)}
    ensures LedgerNext(m, l, Queue(GvmaCommand(g))).owedSecond == {} <==> m.Gscids() <= {g}
  {
  }

  lemma SharedDecoded(m: Machine, l: Ledger, g: bv64, p: bv64, d: Commands.Decoded, d': Commands.Decoded)
    requires d == Commands.Vma(false, true, true, 0, g, p) && d' == Commands.Gvma(false, true, 0, g)
    requires l.owedFirst <= m.contexts && l.owedSecond <= m.Gscids()
    ensures m.contexts <= {Tag(g, p)} ==> Settled(l, d).owedFirst == {}
    ensures m.Gscids() <= {g} ==> Settled(l, d').owedSecond == {}
    ensures Settled(l, d).owedFirst == {} && l.owedFirst == m.contexts ==> m.contexts <= {Tag(g, p)}
    ensures Settled(l, d').owedSecond == {} && l.owedSecond == m.Gscids() ==> m.Gscids() <= {g}
    ensures Settled(l, d).owedSecond == l.owedSecond && Settled(l, d').owedFirst == l.owedFirst
  {
  }

  /** What the driver does in one round: swap one stage's PTEs, then queue the stage's invalidation. */
  function Round(g: bv64, p: bv64, r: Swap): seq<Event> {
    match r
    case SwapFirst => [BeginFirst, EndFirst, Queue(VmaCommand(g, p))]
    case SwapSecond => [BeginSecond, EndSecond, Queue(GvmaCommand(g))]
  }

  function Script(g: bv64, p: bv64, rounds: seq<Swap>): seq<Event> {
    if rounds == [] then [] else Round(g, p, rounds[0]) + Script(g, p, rounds[1..])
  }

  predicate Settles(m: Machine, g: bv64, p: bv64) {
    Identifiers(g, p) && m.contexts <= {Tag(g, p)}
  }

  /** What the IOTLB tags the lines of a device with: the identifiers in its context. */
  function TagOf(d: DC.Context): Tag
    requires d.gscid < 0x1_0000 && d.pscid < 0x10_0000
  {
    Tag(d.gscid as bv64, d.pscid as bv64)
  }

  /** The tags of all devices that have a context in the directory. */
  function TagsOf(ddt: seq<DC.Dc>): set<Tag> {
    set i | 0 <= i < |ddt| && DC.ReadDc(ddt[i]).Present? :: TagOf(DC.ReadDc(ddt[i]).context)
  }

  /** The driver's directory after init and any run of context setters. */
  function Directory(p: DC.Setup, before: seq<DC.Dc>, ss: seq<DC.Setter>): (ddt: seq<DC.Dc>)
    requires p.Valid() && |before| == DC.DDT_N_ENTRIES
    ensures |ddt| == DC.DDT_N_ENTRIES
  {
    DC.SetRun(p, DC.InitAll(p, before), ss)
  }

  lemma DeviceTag(p: DC.Setup, before: seq<DC.Dc>, ss: seq<DC.Setter>, i: nat)
    requires p.Valid() && |before| == DC.DDT_N_ENTRIES && i < DC.DDT_N_ENTRIES
    ensures var d := DC.ReadDc(Directory(p, before, ss)[i]);
      && (d.Present? <==> DC.InUse(i))
      && (d.Present? ==> TagOf(d.context) == Tag(p.gscids[i] as bv64, p.pscids[i] as bv64))
  {
    DC.ContextAfter(p, before, ss, i);
  }

  /** Whatever setters have run, the two commands of `iotinval` settle the debts of all devices exactly when the
      arrays give all of them the identifiers in the commands. */
  lemma DirectorySettles(c: Config, p: DC.Setup, before: seq<DC.Dc>, ss: seq<DC.Setter>, g: bv64, q: bv64)
    requires p.Valid() && |before| == DC.DDT_N_ENTRIES && Identifiers(g, q)
    ensures Settles(Machine(c, TagsOf(Directory(p, before, ss))), g, q)
       <==> forall i | DC.DID_MIN <= i <= DC.DID_MAX :: p.gscids[i] as bv64 == g && p.pscids[i] as bv64 == q
  {
    var ddt := Directory(p, before, ss);
    forall i: nat | i < DC.DDT_N_ENTRIES
      ensures DC.ReadDc(ddt[i]).Present? <==> DC.InUse(i)
      ensures DC.InUse(i) ==> TagOf(DC.ReadDc(ddt[i]).context) == Tag(p.gscids[i] as bv64, p.pscids[i] as bv64)
    {
      DeviceTag(p, before, ss, i);
    }
    forall i: nat | DC.InUse(i)
      ensures Tag(p.gscids[i] as bv64, p.pscids[i] as bv64) in TagsOf(ddt)
    {
      assert TagOf(DC.ReadDc(ddt[i]).context) in TagsOf(ddt);
    }
  }

  // src/rv_iommu_dc.c:58-93
  const GSCID_ARRAY: seq<nat> := [
    0xABC, 0xABC, 0xABC, 0xABC, 0xABC, 0xABC, 0xABC, 0xABC,
    0xABC, 0xABC, 0xABC, 0xABC, 0xABC, 0xABC, 0xABC, 0xABC]
  const PSCID_ARRAY: seq<nat> := [
    0xDEF, 0xDEF, 0xDEF, 0xDEF, 0xDEF, 0xDEF, 0xDEF, 0xDEF,
    0xDEF, 0xDEF, 0xDEF, 0xDEF, 0xDEF, 0xDEF, 0xDEF, 0xDEF]

  /** The driver's own arrays do. */
  lemma DriverSettles(c: Config, p: DC.Setup, before: seq<DC.Dc>, ss: seq<DC.Setter>)
    requires p.Valid() && |before| == DC.DDT_N_ENTRIES
    requires p.gscids == GSCID_ARRAY && p.pscids == PSCID_ARRAY
    ensures Settles(Machine(c, TagsOf(Directory(p, before, ss))), 0xABC, 0xDEF)
  {
    forall i: nat | i < 16
      ensures p.gscids[i] == 0xABC && p.pscids[i] == 0xDEF
    {
      DriverIdentifiers(i);
    }
    SharedSettle(c, p, before, ss, 0xABC, 0xDEF, 0xABC, 0xDEF);
  }

  lemma DriverIdentifiers(i: nat)
    requires i < 16
    ensures GSCID_ARRAY[i] == 0xABC && PSCID_ARRAY[i] == 0xDEF
  {
  }

  lemma SharedSettle(c: Config, p: DC.Setup, before: seq<DC.Dc>, ss: seq<DC.Setter>, x: nat, y: nat, g: bv64, q: bv64)
    requires p.Valid() && |before| == DC.DDT_N_ENTRIES && Identifiers(g, q)
    requires forall i: nat | i < 16 :: p.gscids[i] == x && p.pscids[i] == y
    requires x < 0x1_0000 && y < 0x10_0000 && x as bv64 == g && y as bv64 == q
    ensures Settles(Machine(c, TagsOf(Directory(p, before, ss))), g, q)
  {
    DirectorySettles(c, p, before, ss, g, q);
  }

  lemma {:induction false} RoundLedger(m: Machine, l: Ledger, g: bv64, p: bv64, r: Swap, rest: seq<Event>)
    requires Settles(m, g, p) && l.owedFirst == {} && l.owedSecond == {} && l.phase == Outside
    ensures LedgerAfter(m, l, Round(g, p, r) + rest)
         == LedgerAfter(m, if r == SwapFirst then l.(swaps1 := l.swaps1 + 1) else l.(swaps2 := l.swaps2 + 1), rest)
  {
    var es := Round(g, p, r) + rest;
    var l1 := LedgerNext(m, l, es[0]);
    var l2 := LedgerNext(m, l1, es[1]);
    assert es[1..] == [es[1]] + ([es[2]] + rest);
    LedgerCons(m, l, es[0], [es[1]] + ([es[2]] + rest));
    assert es == [es[0]] + ([es[1]] + ([es[2]] + rest));
    LedgerCons(m, l1, es[1], [es[2]] + rest);
    LedgerCons(m, l2, es[2], rest);
    var d, d' := Commands.Decode(VmaCommand(g, p)), Commands.Decode(GvmaCommand(g));
    VmaClears(g, p, d);
    GvmaClears(g, d');
    assert m.Gscids() <= {g};
    SharedDecoded(m, l2, g, p, d, d');
  }

  lemma {:induction false} ScriptLedger(m: Machine, l: Ledger, g: bv64, p: bv64, rounds: seq<Swap>)
    requires Settles(m, g, p) && l.owedFirst == {} && l.owedSecond == {} && l.phase == Outside
    ensures LedgerAfter(m, l, Script(g, p, rounds))
         == l.(swaps1 := l.swaps1 + Count(rounds, SwapFirst), swaps2 := l.swaps2 + Count(rounds, SwapSecond))
    decreases |rounds|
  {
    if rounds != [] {
      RoundLedger(m, l, g, p, rounds[0], Script(g, p, rounds[1..]));
      var l' := if rounds[0] == SwapFirst then l.(swaps1 := l.swaps1 + 1) else l.(swaps2 := l.swaps2 + 1);
      ScriptLedger(m, l', g, p, rounds[1..]);
    }
  }

  lemma RoundsLedger(m: Machine, s: State, es: seq<Event>, g: bv64, p: bv64, rounds: seq<Swap>)
    requires m.Valid() && Initial(m, s) && Possible(m, s, es)
    requires Settles(m, g, p) && DriverSteps(es) == Script(g, p, rounds)
    ensures var t := After(m, s, es);
      && t.owedFirst == {} && t.owedSecond == {} && t.driver == Idle
      && t.swaps1 == Count(rounds, SwapFirst) && t.swaps2 == Count(rounds, SwapSecond)
  {
    LedgerRun(m, s, es);
    ScriptLedger(m, LedgerOf(s), g, p, rounds);
  }

  /** Any number of rounds, in any order, under any interleaving with the IOMMU: once the queue has drained,
      every request is answered as by a walk of the tables as they are now. */
  lemma RoundsCoherent(m: Machine, s: State, es: seq<Event>, g: bv64, p: bv64, rounds: seq<Swap>,
                       ctx: Tag, va: nat, acc: Access)
    requires m.Valid() && Initial(m, s) && Possible(m, s, es)
    requires Settles(m, g, p) && DriverSteps(es) == Script(g, p, rounds)
    requires After(m, s, es).ring.head == After(m, s, es).ring.tail
    ensures Lookup(m, After(m, s, es), ctx, va, acc) == TranslateAfter(m.c, rounds, va, acc)
  {
    var t := After(m, s, es);
    RoundsLedger(m, s, es, g, p, rounds);
    DrainedCoherent(m, s, es, ctx, va, acc);
    InitialInv(m, s);
    RunKeeps(m, s, es);
    assert ViewOf(t) == ViewAfter(UNSWAPPED, rounds);
    RunImage(m.c, UNSWAPPED, rounds, ViewOf(t));
  }

  /** What `iotinval` checks, for any number of rounds: with the queue drained, SWITCH1 (or SWITCH2) is written
      on its own physical page after an even number of rounds and on the other's after an odd number, as far
      as the two PTEs on the way grant it. */
  lemma IotinvalRounds(m: Machine, s: State, es: seq<Event>, g: bv64, p: bv64, rounds: seq<Swap>,
                       ctx: Tag, first: bool, o: nat, acc: Access)
    requires m.Valid() && m.c.PageAligned() && Initial(m, s) && Possible(m, s, es)
    requires Settles(m, g, p) && DriverSteps(es) == Script(g, p, rounds)
    requires After(m, s, es).ring.head == After(m, s, es).ring.tail && o < PAGE
    ensures Lookup(m, After(m, s, es), ctx, VirtPageBase(Pick(first)).value + o, acc)
         == PageResult(m.c, GuestPage(rounds, first), FinalPage(rounds, first), o, acc)
  {
    RoundsCoherent(m, s, es, g, p, rounds, ctx, VirtPageBase(Pick(first)).value + o, acc);
    SwitchParity(m.c, rounds, first, o, acc);
  }

  // ---------------------------------------------------------------------------------------------
  // The invalidations are needed, and they do complete.

  /** Cache a page, then swap the first stage without an invalidation. */
  function FillAndSwap(k: FirstKey): seq<Event> {
    [FillCombined(k), BeginFirst, EndFirst]
  }

  lemma FillAndSwapRun(m: Machine, s: State, k: FirstKey)
    requires m.Valid() && Initial(m, s) && Enabled(m, s, FillCombined(k))
    ensures Possible(m, s, FillAndSwap(k))
    ensures var u := After(m, s, FillAndSwap(k));
      u.combined == Next(m, s, FillCombined(k)).combined && u.driver == Idle && u.swaps1 == 1 && u.swaps2 == 0
  {
    SwapKeepsLines(m, Next(m, s, FillCombined(k)));
    ThreeSteps(m, s, FillCombined(k), BeginFirst, EndFirst);
  }

  /** Without the invalidation the answer goes stale: fill, swap, ask again, and the request is still sent by
      the old PTE, where the tables now say otherwise. */
  lemma StaleWithoutInvalidation(m: Machine, s: State, k: FirstKey)
    requires m.Valid() && m.c.PageAligned() && Initial(m, s) && k.ctx in m.contexts && k.page == VirtPageBase(SWITCH1).value
    ensures Possible(m, s, FillAndSwap(k))
    ensures Lookup(m, After(m, s, FillAndSwap(k)), k.ctx, k.page, k.acc) == PageResult(m.c, SWITCH1, SWITCH1, 0, k.acc)
    ensures Uncached(m, After(m, s, FillAndSwap(k)), k.page, k.acc) == PageResult(m.c, SWITCH2, SWITCH2, 0, k.acc)
  {
    FillAndSwapRun(m, s, k);
    var u := After(m, s, FillAndSwap(k));
    FilledAnswer(m, s, Next(m, s, FillCombined(k)), u, k);
    UnswappedHome(m.c, k.acc);
    assert TablesOk(m, u) by {
      InitialInv(m, s);
      RunKeeps(m, s, FillAndSwap(k));
    }
    UncachedSwapped(m, u, k.acc);
  }

  lemma ThreeSteps(m: Machine, s: State, d: Event, e: Event, f: Event)
    requires Shaped(s) && Enabled(m, s, d) && Enabled(m, Next(m, s, d), e) && Enabled(m, Next(m, Next(m, s, d), e), f)
    ensures Possible(m, s, [d, e, f])
    ensures After(m, s, [d, e, f]) == Next(m, Next(m, Next(m, s, d), e), f)
  {
    var t := Next(m, s, d);
    var u := Next(m, t, e);
    assert Possible(m, u, [f]) && After(m, u, [f]) == Next(m, u, f);
    StepFirst(m, t, e, [f]);
    assert [d] + ([e] + [f]) == [d, e, f];
    StepFirst(m, s, d, [e] + [f]);
  }

  lemma StepFirst(m: Machine, s: State, e: Event, rest: seq<Event>)
    requires Shaped(s) && Enabled(m, s, e) && Possible(m, Next(m, s, e), rest)
    ensures Possible(m, s, [e] + rest)
    ensures After(m, s, [e] + rest) == After(m, Next(m, s, e), rest)
  {
  }

  lemma SwapKeepsLines(m: Machine, s: State)
    requires Shaped(s) && s.driver == Idle
    ensures Next(m, s, BeginFirst).driver.InFirst?
    ensures var t := Next(m, Next(m, s, BeginFirst), EndFirst);
      t.combined == s.combined && t.driver == Idle && t.swaps1 == s.swaps1 + 1 && t.swaps2 == s.swaps2
  {
  }

  lemma UnswappedHome(c: Config, acc: Access)
    requires c.Nestable() && c.PermTable() && c.PageAligned()
    ensures Translate(c, UNSWAPPED, VirtPageBase(SWITCH1).value, acc) == PageResult(c, SWITCH1, SWITCH1, 0, acc)
  {
    PageOutcome(c, UNSWAPPED, SWITCH1, 0, acc);
  }

  /** After one swap of the first stage SWITCH1 leads to the other page. */
  lemma UncachedSwapped(m: Machine, s: State, acc: Access)
    requires m.Valid() && m.c.PageAligned() && Shaped(s) && TablesOk(m, s)
    requires s.driver == Idle && s.swaps1 == 1 && s.swaps2 == 0
    ensures Uncached(m, s, VirtPageBase(SWITCH1).value, acc) == PageResult(m.c, SWITCH2, SWITCH2, 0, acc)
  {
    PageOutcome(m.c, ViewOf(s), SWITCH1, 0, acc);
  }

  lemma FilledAnswer(m: Machine, s: State, t: State, u: State, k: FirstKey)
    requires m.Valid() && Initial(m, s) && k.ctx in m.contexts && k.page % PAGE == 0
    requires t == Next(m, s, FillCombined(k)) && u.combined == t.combined
    requires SwitchPage(k.page)
    ensures Lookup(m, u, k.ctx, k.page, k.acc) == Translate(m.c, UNSWAPPED, k.page, k.acc)
  {
    assert PageOf(k.page) == k.page && k.page % PAGE == 0;
    assert Lookup(m, u, k.ctx, k.page, k.acc) == TwoLookups(m, s, k.ctx, k.page, k.acc);
    InitialInv(m, s);
    NothingDue(m, s, k.ctx);
    TwoLookupsOk(m, s, UNSWAPPED, k.ctx, k.page, k.acc);
  }

  lemma NothingDue(m: Machine, s: State, ctx: Tag)
    requires m.Valid() && Initial(m, s)
    ensures !DueFirst(s, ctx) && !DueSecond(s, ctx.gscid)
  {
  }

  predicate AllLegal(q: seq<Command>) {
    forall i :: 0 <= i < |q| ==> !Commands.Decode(q[i]).Illegal?
  }

  function Executes(n: nat): (es: seq<Event>)
    ensures |es| == n
  {
    if n == 0 then [] else [Execute] + Executes(n - 1)
  }

  /** A queue of legal commands drains in as many steps as it is long, and changes nothing else the driver
      relies on. */
  lemma {:induction false} Drains(m: Machine, s: State)
    requires Shaped(s) && AllLegal(s.ring.Items())
    ensures var es := Executes(|s.ring.Items()|);
      && Possible(m, s, es)
      && After(m, s, es).ring.head == After(m, s, es).ring.tail
      && After(m, s, es).tables == s.tables && LedgerOf(After(m, s, es)) == LedgerOf(s)
    decreases |s.ring.Items()|
  {
    Rings.EmptyIff(s.ring);
    if s.ring.Items() != [] {
      ExecuteLegal(m, s);
      var t := Next(m, s, Execute);
      Drains(m, t);
      StepFirst(m, s, Execute, Executes(|t.ring.Items()|));
    }
  }

  lemma ExecuteLegal(m: Machine, s: State)
    requires Shaped(s) && AllLegal(s.ring.Items()) && s.ring.Items() != []
    ensures Enabled(m, s, Execute)
    ensures var t := Next(m, s, Execute);
      && t.ring.Items() == s.ring.Items()[1..] && AllLegal(t.ring.Items())
      && t.tables == s.tables && LedgerOf(t) == LedgerOf(s)
  {
    Rings.EmptyIff(s.ring);
    Rings.PopItems(s.ring);
  }
}
