/** The IOTLB against the page tables: the driver swaps PTEs one store at a time and queues invalidations
    (the `iotinval` test), while the IOMMU walks, caches, evicts and executes commands at its own pace. */
module Iotlb {
  import Bits
  import Commands
  import Rings
  import opened PageWalk
  import opened PageTables
  import opened Translation
  import opened TwoStage
  import opened Swaps

  type Command = Commands.Command

  /** The two identifiers a device context attaches to what is cached on its behalf. */
  datatype Tag = Tag(gscid: bv64, pscid: bv64)

  /** What does not change in a run. Both stages are on in every context. */
  datatype Machine = Machine(c: Config, contexts: set<Tag>) {
    predicate Valid() {
      c.Nestable() && c.PermTable()
    }

    function Gscids(): set<bv64> {
      set x | x in contexts :: x.gscid
    }
  }

  datatype FirstKey = FirstKey(ctx: Tag, page: nat, acc: Access)
  datatype SecondKey = SecondKey(gscid: bv64, page: nat, acc: Access)

  /** A cached outcome for the first byte of a page. `global`: some PTE on the way had G set. */
  datatype Line = Line(out: Outcome, global: bool)

  /** Where the driver is in a swap; `temp` is its local copy of the first PTE. */
  datatype Driver = Idle | InFirst(temp: nat) | InSecond(temp: nat)

  /** `first` caches first-stage results, `second` second-stage results, `combined` those of both. The debts
      are the contexts and guests for which tables were changed and no invalidation has been queued yet. */
  datatype State = State(
    tables: Tables, driver: Driver, swaps1: nat, swaps2: nat,
    ring: Rings.Ring<Command>, owedFirst: set<Tag>, owedSecond: set<bv64>,
    first: map<FirstKey, Line>, second: map<SecondKey, Outcome>, combined: map<FirstKey, Line>)

  predicate Shaped(s: State) {
    s.ring.Valid() && |s.tables.s1| == 3072 && |s.tables.s2| == 2560
  }

  // ---------------------------------------------------------------------------------------------
  // Lookups: a cached line, whether stale or not, goes before a walk.

  function PageOf(a: nat): (p: nat)
    ensures p % PAGE == 0 && a == p + a % PAGE
  {
    PAGE * (a / PAGE)
  }

  function SecondLookup(m: Machine, s: State, gscid: bv64, gpa: nat, acc: Access): Outcome {
    var key := SecondKey(gscid, PageOf(gpa), acc);
    if key in s.second then Shift(s.second[key], gpa % PAGE)
    else Walk(Memory(m.c, s.tables), Sv39x4, m.c.rootBase, gpa, acc)
  }

  /** A first-stage PTE fetch goes through the second-stage cache as well. */
  function CachedFetch(m: Machine, s: State, gscid: bv64): Fetch {
    (a: nat) =>
      var slot := SecondLookup(m, s, gscid, a, Access(Read, false, false));
      if slot.Mapped? then Memory(m.c, s.tables)(slot.pa) else Fault(slot)
  }

  function FirstWalk(m: Machine, s: State, ctx: Tag, va: nat, acc: Access): Outcome {
    Walk(CachedFetch(m, s, ctx.gscid), Sv39, m.c.s1Base, va, acc)
  }

  function FirstLookup(m: Machine, s: State, ctx: Tag, va: nat, acc: Access): Outcome {
    var key := FirstKey(ctx, PageOf(va), acc);
    if key in s.first then Shift(s.first[key].out, va % PAGE) else FirstWalk(m, s, ctx, va, acc)
  }

  /** Translation from the two single-stage caches and walks. */
  function TwoLookups(m: Machine, s: State, ctx: Tag, va: nat, acc: Access): Outcome {
    var first := FirstLookup(m, s, ctx, va, acc);
    if first.Mapped? then SecondLookup(m, s, ctx.gscid, first.pa, acc) else first
  }

  /** What the IOMMU answers to a request. */
  function Lookup(m: Machine, s: State, ctx: Tag, va: nat, acc: Access): Outcome {
    var key := FirstKey(ctx, PageOf(va), acc);
    if key in s.combined then Shift(s.combined[key].out, va % PAGE) else TwoLookups(m, s, ctx, va, acc)
  }

  /** Whether a walk meets a PTE with G set. */
  function MeetsGlobal(f: Fetch, stage: Stage, table: nat, level: nat, va: nat, acc: Access): bool
    requires level < 3
    decreases level
  {
    match f(table + 8 * Index(stage, level, va))
    case Fault(o) => false
    case Got(p) =>
      p.rights.v && (p.g ||
        match Interpret(stage, p, level, acc)
        case Fail => false
        case Down(t) => level > 0 && MeetsGlobal(f, stage, t, level - 1, va, acc)
        case Leaf(base) => false)
  }

  function FirstGlobal(m: Machine, s: State, ctx: Tag, va: nat, acc: Access): bool {
    var key := FirstKey(ctx, PageOf(va), acc);
    if key in s.first then s.first[key].global
    else InRange(Sv39, va) && MeetsGlobal(CachedFetch(m, s, ctx.gscid), Sv39, m.c.s1Base, 2, va, acc)
  }

  // ---------------------------------------------------------------------------------------------
  // Invalidations (section 3.1.1 of the RISC-V IOMMU specification 1.0). All lines belong to guests: a VMA
  // without GV is for host address spaces and touches none of them.

  predicate HitsFirst(d: Commands.Decoded, k: FirstKey, global: bool) {
    && d.Vma? && d.gv && d.gscid == k.ctx.gscid
    && (d.pscv ==> d.pscid == k.ctx.pscid && !global)
    && (d.av ==> d.page as nat * PAGE == k.page)
  }

  predicate HitsSecond(d: Commands.Decoded, k: SecondKey) {
    && d.Gvma?
    && (d.gv ==> d.gscid == k.gscid && (d.av ==> d.page as nat * PAGE == k.page))
  }

  /** A combined line does not know its guest physical address, so GVMA drops it whatever the address. */
  predicate HitsCombined(d: Commands.Decoded, k: FirstKey, global: bool) {
    HitsFirst(d, k, global) || (d.Gvma? && (d.gv ==> d.gscid == k.ctx.gscid))
  }

  /** Drops every non-global line of the context. */
  predicate ClearsFirst(d: Commands.Decoded, ctx: Tag) {
    d.Vma? && d.gv && !d.av && d.gscid == ctx.gscid && (d.pscv ==> d.pscid == ctx.pscid)
  }

  predicate ClearsSecond(d: Commands.Decoded, gscid: bv64) {
    d.Gvma? && (d.gv ==> !d.av && d.gscid == gscid)
  }

  // ---------------------------------------------------------------------------------------------
  // Steps.

  datatype Event =
    | BeginFirst | EndFirst | BeginSecond | EndSecond
    | Queue(cmd: Command)
    | Execute
    | FillFirst(key: FirstKey) | FillSecond(ctx: Tag, gpage: nat, acc: Access) | FillCombined(key: FirstKey)
    | Evict(keys1: set<FirstKey>, keys2: set<SecondKey>, keys: set<FirstKey>)

  /** The swaps are straight-line code; the driver keeps at most 63 commands outstanding. */
  predicate Enabled(m: Machine, s: State, e: Event)
    requires Shaped(s)
  {
    match e
    case BeginFirst => s.driver == Idle
    case EndFirst => s.driver.InFirst?
    case BeginSecond => s.driver == Idle
    case EndSecond => s.driver.InSecond?
    case Queue(_) => |s.ring.Items()| < Rings.N - 1
    case Execute => s.ring.head != s.ring.tail
    case FillFirst(k) => k.ctx in m.contexts && k.page % PAGE == 0
    case FillSecond(ctx, gpage, _) => ctx in m.contexts && gpage % PAGE == 0
    case FillCombined(k) => k.ctx in m.contexts && k.page % PAGE == 0
    case Evict(_, _, _) => true
  }

  /** The IOMMU stops at a command it finds illegal; any other it takes off the queue. */
  function Executed(s: State, d: Commands.Decoded): State
    requires Shaped(s)
  {
    if d.Illegal? then s
    else s.(ring := s.ring.Pop(),
            first := (map k | k in s.first && !HitsFirst(d, k, s.first[k].global) :: s.first[k]),
            second := (map k | k in s.second && !HitsSecond(d, k) :: s.second[k]),
            combined := (map k | k in s.combined && !HitsCombined(d, k, s.combined[k].global) :: s.combined[k]))
  }

  function Queued(s: State, cmd: Command, d: Commands.Decoded): State
    requires Shaped(s)
  {
    s.(ring := s.ring.Push(cmd),
       owedFirst := (set x | x in s.owedFirst && !ClearsFirst(d, x)),
       owedSecond := (set g | g in s.owedSecond && !ClearsSecond(d, g)))
  }

  function Next(m: Machine, s: State, e: Event): (t: State)
    requires Shaped(s) && Enabled(m, s, e)
    ensures Shaped(t)
  {
    match e
    case BeginFirst =>
      s.(driver := InFirst(s.tables.s1[S1_SWITCH1]),
         tables := s.tables.(s1 := s.tables.s1[S1_SWITCH1 := s.tables.s1[S1_SWITCH2]]),
         owedFirst := s.owedFirst + m.contexts)
    case EndFirst =>
      s.(driver := Idle, swaps1 := s.swaps1 + 1,
         tables := s.tables.(s1 := s.tables.s1[S1_SWITCH2 := s.driver.temp]),
         owedFirst := s.owedFirst + m.contexts)
    case BeginSecond =>
      s.(driver := InSecond(s.tables.s2[S2_SWITCH1]),
         tables := s.tables.(s2 := s.tables.s2[S2_SWITCH1 := s.tables.s2[S2_SWITCH2]]),
         owedSecond := s.owedSecond + m.Gscids())
    case EndSecond =>
      s.(driver := Idle, swaps2 := s.swaps2 + 1,
         tables := s.tables.(s2 := s.tables.s2[S2_SWITCH2 := s.driver.temp]),
         owedSecond := s.owedSecond + m.Gscids())
    case Queue(cmd) => Queued(s, cmd, Commands.Decode(cmd))
    case Execute => Executed(s, Commands.Decode(s.ring.slots[s.ring.head]))
    case FillFirst(k) =>
      s.(first := s.first[k := Line(FirstLookup(m, s, k.ctx, k.page, k.acc), FirstGlobal(m, s, k.ctx, k.page, k.acc))])
    case FillSecond(ctx, gpage, acc) =>
      s.(second := s.second[SecondKey(ctx.gscid, gpage, acc) := SecondLookup(m, s, ctx.gscid, gpage, acc)])
    case FillCombined(k) =>
      s.(combined := s.combined[k := Line(TwoLookups(m, s, k.ctx, k.page, k.acc), FirstGlobal(m, s, k.ctx, k.page, k.acc))])
    case Evict(keys1, keys2, keys) =>
      s.(first := s.first - keys1, second := s.second - keys2, combined := s.combined - keys)
  }

  predicate Possible(m: Machine, s: State, es: seq<Event>)
    requires Shaped(s)
    decreases |es|
  {
    es == [] || (Enabled(m, s, es[0]) && Possible(m, Next(m, s, es[0]), es[1..]))
  }

  function After(m: Machine, s: State, es: seq<Event>): (t: State)
    requires Shaped(s) && Possible(m, s, es)
    ensures Shaped(t)
    decreases |es|
  {
    if es == [] then s else After(m, Next(m, s, es[0]), es[1..])
  }

  /** Tables as init leaves them, nothing cached, queued or owed. */
  predicate Initial(m: Machine, s: State)
    requires m.Valid()
  {
    && s.tables == Image(m.c, UNSWAPPED) && s.driver == Idle && s.swaps1 == 0 && s.swaps2 == 0
    && s.ring.Valid() && s.ring.head == s.ring.tail && s.owedFirst == {} && s.owedSecond == {}
    && s.first == map[] && s.second == map[] && s.combined == map[]
  }

  // ---------------------------------------------------------------------------------------------
  // The invariant.

  /** Which PTE is in which slot, also in the middle of a swap. */
  function ViewOf(s: State): (v: View)
    ensures v.Valid()
  {
    var v := SwappedView(UNSWAPPED, s.swaps1, s.swaps2);
    match s.driver
    case Idle => v
    case InFirst(_) => View(v.p2, v.p2, v.q1, v.q2)
    case InSecond(_) => View(v.p1, v.p2, v.q2, v.q2)
  }

  ghost predicate TablesOk(m: Machine, s: State)
    requires m.Valid()
  {
    var v := SwappedView(UNSWAPPED, s.swaps1, s.swaps2);
    && s.tables == Image(m.c, ViewOf(s))
    && (s.driver.InFirst? ==> s.driver.temp == S1Entry(m.c, v, S1_SWITCH1))
    && (s.driver.InSecond? ==> s.driver.temp == S2Entry(m.c, v, S2_SWITCH1))
  }

  /** An invalidation of the context's first-stage lines is owed or queued. */
  ghost predicate DueFirst(s: State, ctx: Tag)
    requires Shaped(s)
  {
    ctx in s.owedFirst || SomeClearsFirst(s.ring.Items(), ctx)
  }

  ghost predicate DueSecond(s: State, gscid: bv64)
    requires Shaped(s)
  {
    gscid in s.owedSecond || SomeClearsSecond(s.ring.Items(), gscid)
  }

  ghost predicate SomeClearsFirst(q: seq<Command>, ctx: Tag) {
    exists i :: 0 <= i < |q| && ClearsFirst(Commands.Decode(q[i]), ctx)
  }

  ghost predicate SomeClearsSecond(q: seq<Command>, gscid: bv64) {
    exists i :: 0 <= i < |q| && ClearsSecond(Commands.Decode(q[i]), gscid)
  }

  ghost predicate FirstLineOk(m: Machine, s: State, v: View, k: FirstKey, l: Line)
    requires m.Valid() && Shaped(s) && v.Valid()
  {
    && k.ctx in m.contexts && k.page % PAGE == 0 && !l.global
    && (l.out == First(m.c, v, k.page, k.acc) || (SwitchPage(k.page) && DueFirst(s, k.ctx)))
  }

  ghost predicate SecondLineOk(m: Machine, s: State, v: View, k: SecondKey, out: Outcome)
    requires m.Valid() && Shaped(s) && v.Valid()
  {
    && k.gscid in m.Gscids() && k.page % PAGE == 0
    && (out == Second(m.c, v, k.page, k.acc) || (SwitchAlias(k.page) && DueSecond(s, k.gscid)))
  }

  ghost predicate CombinedLineOk(m: Machine, s: State, v: View, k: FirstKey, l: Line)
    requires m.Valid() && Shaped(s) && v.Valid()
  {
    && k.ctx in m.contexts && k.page % PAGE == 0 && !l.global
    && (l.out == Translate(m.c, v, k.page, k.acc)
        || (SwitchPage(k.page) && (DueFirst(s, k.ctx) || DueSecond(s, k.ctx.gscid))))
  }

  /** Every line equals the current walk or is covered by an invalidation queued or still owed. */
  ghost predicate LinesOk(m: Machine, s: State, v: View)
    requires m.Valid() && Shaped(s) && v.Valid()
  {
    && (forall k | k in s.first :: FirstLineOk(m, s, v, k, s.first[k]))
    && (forall k | k in s.second :: SecondLineOk(m, s, v, k, s.second[k]))
    && (forall k | k in s.combined :: CombinedLineOk(m, s, v, k, s.combined[k]))
  }

  ghost predicate Inv(m: Machine, s: State)
    requires m.Valid()
  {
    Shaped(s) && TablesOk(m, s) && LinesOk(m, s, ViewOf(s))
  }

  // ---------------------------------------------------------------------------------------------
  lemma TranslateParts(c: Config, v: View, va: nat, acc: Access)
    requires c.Nestable() && c.PermTable() && v.Valid()
    ensures var first := First(c, v, va, acc);
      Translate(c, v, va, acc) == if first.Mapped? then Second(c, v, first.pa, acc) else first
  {
    NestedAgrees(c, v, va, acc);
  }

  // ---------------------------------------------------------------------------------------------
  // Lookups under the invariant.

  lemma AliasByPage(gpa: nat)
    ensures SwitchAlias(PageOf(gpa)) <==> SwitchAlias(gpa)
  {
    var p, o := PageOf(gpa), gpa % PAGE;
    var r := p % SUPERPAGE_1G;
    var q := r % SUPERPAGE_2M;
    AlignedRemainder(SUPERPAGE_1G, p);
    AlignedRemainder(SUPERPAGE_2M, r);
    assert gpa / SUPERPAGE_1G == p / SUPERPAGE_1G && gpa % SUPERPAGE_1G == r + o by { SplitDivMod(SUPERPAGE_1G, p, o); }
    assert (r + o) / SUPERPAGE_2M == r / SUPERPAGE_2M && (r + o) % SUPERPAGE_2M == q + o by {
      SplitDivMod(SUPERPAGE_2M, r, o);
    }
    assert (q + o) / PAGE == q / PAGE by { SplitDivMod(PAGE, q, o); }
  }

  lemma AlignedRemainder(size: nat, p: nat)
    requires size == SUPERPAGE_1G || size == SUPERPAGE_2M
    requires p % PAGE == 0
    ensures p % size % PAGE == 0
  {
    var q, r := p / size, p % size;
    assert p == size * q + r;
  }

  lemma SecondByPage(c: Config, v: View, gpa: nat, acc: Access)
    requires c.Valid() && v.Valid()
    ensures Second(c, v, gpa, acc) == Shift(Second(c, v, PageOf(gpa), acc), gpa % PAGE)
  {
    MemoryFaults(c, Image(c, v));
    WalkByPage(ImageMemory(c, v), Sv39x4, c.rootBase, PageOf(gpa), gpa % PAGE, acc);
  }

  lemma FirstByPage(c: Config, v: View, va: nat, acc: Access)
    requires c.Valid() && v.Valid()
    ensures First(c, v, va, acc) == Shift(First(c, v, PageOf(va), acc), va % PAGE)
  {
    MemoryFaults(c, Image(c, v));
    WalkByPage(ImageMemory(c, v), Sv39, c.s1Base, PageOf(va), va % PAGE, acc);
  }

  lemma BothByPage(c: Config, v: View, va: nat, acc: Access)
    requires c.Valid() && v.Valid()
    ensures Translate(c, v, va, acc) == Shift(Translate(c, v, PageOf(va), acc), va % PAGE)
  {
    MemoryFaults(c, Image(c, v));
    NestedByPage(ImageMemory(c, v), c.s1Base, c.rootBase, PageOf(va), va % PAGE, acc);
  }

  lemma SecondLookupOk(m: Machine, s: State, v: View, gscid: bv64, gpa: nat, acc: Access)
    requires m.Valid() && Shaped(s) && v.Valid() && s.tables == Image(m.c, v) && LinesOk(m, s, v)
    ensures SecondLookup(m, s, gscid, gpa, acc) == Second(m.c, v, gpa, acc) || (SwitchAlias(gpa) && DueSecond(s, gscid))
  {
    var key := SecondKey(gscid, PageOf(gpa), acc);
    if key in s.second {
      assert SecondLineOk(m, s, v, key, s.second[key]);
      SecondByPage(m.c, v, gpa, acc);
      AliasByPage(gpa);
    }
  }

  lemma LowNotAlias(a: nat)
    requires a < 4 * SUPERPAGE_1G
    ensures !SwitchAlias(a)
  {
  }

  lemma FetchOk(m: Machine, s: State, v: View, gscid: bv64, a: nat)
    requires m.Valid() && Shaped(s) && v.Valid() && s.tables == Image(m.c, v) && LinesOk(m, s, v)
    requires FirstStageMemory(m.c, v)(a).Got?
    ensures CachedFetch(m, s, gscid)(a) == FirstStageMemory(m.c, v)(a)
  {
    FirstStageMapped(m.c, v, a);
    LowNotAlias(a);
    SecondLookupOk(m, s, v, gscid, a, Access(Read, false, false));
  }

  /** PTE fetches never meet a stale second-stage line, so a first-stage walk is always up to date. */
  lemma FirstWalkOk(m: Machine, s: State, v: View, ctx: Tag, va: nat, acc: Access)
    requires m.Valid() && Shaped(s) && v.Valid() && s.tables == Image(m.c, v) && LinesOk(m, s, v)
    ensures FirstWalk(m, s, ctx, va, acc) == First(m.c, v, va, acc)
  {
    var h, g := FirstStageMemory(m.c, v), CachedFetch(m, s, ctx.gscid);
    forall a | h(a).Got?
      ensures g(a) == h(a)
    {
      FetchOk(m, s, v, ctx.gscid, a);
    }
    FirstStageIs(m.c, v, va, acc);
    FirstIs(m.c, v, va, acc);
    if InRange(Sv39, va) {
      WalkFromAgrees(h, g, Sv39, m.c.s1Base, 2, va, acc);
    }
  }

  lemma SwitchByPage(va: nat)
    ensures SwitchPage(PageOf(va)) <==> SwitchPage(va)
  {
  }

  lemma FirstLookupOk(m: Machine, s: State, v: View, ctx: Tag, va: nat, acc: Access)
    requires m.Valid() && Shaped(s) && v.Valid() && s.tables == Image(m.c, v) && LinesOk(m, s, v)
    ensures FirstLookup(m, s, ctx, va, acc) == First(m.c, v, va, acc) || (SwitchPage(va) && DueFirst(s, ctx))
  {
    var key := FirstKey(ctx, PageOf(va), acc);
    if key in s.first {
      assert FirstLineOk(m, s, v, key, s.first[key]);
      FirstByPage(m.c, v, va, acc);
      SwitchByPage(va);
    } else {
      FirstWalkOk(m, s, v, ctx, va, acc);
    }
  }

  lemma TwoLookupsOk(m: Machine, s: State, v: View, ctx: Tag, va: nat, acc: Access)
    requires m.Valid() && Shaped(s) && v.Valid() && s.tables == Image(m.c, v) && LinesOk(m, s, v)
    ensures TwoLookups(m, s, ctx, va, acc) == Translate(m.c, v, va, acc)
         || (SwitchPage(va) && (DueFirst(s, ctx) || DueSecond(s, ctx.gscid)))
  {
    FirstLookupOk(m, s, v, ctx, va, acc);
    TranslateParts(m.c, v, va, acc);
    var first := First(m.c, v, va, acc);
    if FirstLookup(m, s, ctx, va, acc) == first && first.Mapped? {
      SecondLookupOk(m, s, v, ctx.gscid, first.pa, acc);
      if !SwitchPage(va) {
        NeverOntoAlias(m.c, v, va, acc);
      }
    }
  }

  lemma LookupOk(m: Machine, s: State, v: View, ctx: Tag, va: nat, acc: Access)
    requires m.Valid() && Shaped(s) && v.Valid() && s.tables == Image(m.c, v) && LinesOk(m, s, v)
    ensures Lookup(m, s, ctx, va, acc) == Translate(m.c, v, va, acc)
         || (SwitchPage(va) && (DueFirst(s, ctx) || DueSecond(s, ctx.gscid)))
  {
    var key := FirstKey(ctx, PageOf(va), acc);
    if key in s.combined {
      assert CombinedLineOk(m, s, v, key, s.combined[key]);
      BothByPage(m.c, v, va, acc);
      SwitchByPage(va);
    } else {
      TwoLookupsOk(m, s, v, ctx, va, acc);
    }
  }
}
