/** Every step of the driver and of the IOMMU keeps the IOTLB invariant, and what follows for whole runs. */
module IotlbSafety {
  import Bits
  import Commands
  import Rings
  import opened PageWalk
  import opened PageTables
  import opened TableWords
  import opened Translation
  import opened TwoStage
  import opened Swaps
  import opened Iotlb

  // ---------------------------------------------------------------------------------------------
  // The stores of a swap.

  lemma BeginFirstImage(c: Config, v: View, w: View)
    requires c.Sized() && v.Valid() && w == View(v.p2, v.p2, v.q1, v.q2)
    ensures S1Image(c, v)[S1_SWITCH1 := S1Image(c, v)[S1_SWITCH2]] == S1Image(c, w)
  {
  }

  lemma EndFirstImage(c: Config, v: View, w: View, u: View)
    requires c.Sized() && v.Valid() && w == View(v.p2, v.p2, v.q1, v.q2) && u == View(v.p2, v.p1, v.q1, v.q2)
    ensures S1Image(c, w)[S1_SWITCH2 := S1Entry(c, v, S1_SWITCH1)] == S1Image(c, u)
  {
  }

  lemma BeginSecondImage(c: Config, v: View, w: View)
    requires c.Sized() && v.Valid() && w == View(v.p1, v.p2, v.q2, v.q2)
    ensures S2Image(c, v)[S2_SWITCH1 := S2Image(c, v)[S2_SWITCH2]] == S2Image(c, w)
  {
  }

  lemma EndSecondImage(c: Config, v: View, w: View, u: View)
    requires c.Sized() && v.Valid() && w == View(v.p1, v.p2, v.q2, v.q2) && u == View(v.p1, v.p2, v.q2, v.q1)
    ensures S2Image(c, w)[S2_SWITCH2 := S2Entry(c, v, S2_SWITCH1)] == S2Image(c, u)
  {
  }

  predicate Store(e: Event) {
    e.BeginFirst? || e.EndFirst? || e.BeginSecond? || e.EndSecond?
  }

  lemma StoreTablesFirst(m: Machine, s: State, e: Event)
    requires m.Valid() && Shaped(s) && TablesOk(m, s) && (e.BeginFirst? || e.EndFirst?) && Enabled(m, s, e)
    ensures TablesOk(m, Next(m, s, e))
    ensures ViewOf(s).q1 == ViewOf(Next(m, s, e)).q1 && ViewOf(s).q2 == ViewOf(Next(m, s, e)).q2
  {
    var v, w, u := SwappedView(UNSWAPPED, s.swaps1, s.swaps2), ViewOf(s), ViewOf(Next(m, s, e));
    ImagesApart(m.c, w, u);
    if e.BeginFirst? {
      BeginFirstImage(m.c, v, u);
      assert S1Image(m.c, v)[S1_SWITCH1] == S1Entry(m.c, v, S1_SWITCH1);
    } else {
      EndFirstImage(m.c, v, w, u);
    }
  }

  lemma StoreTablesSecond(m: Machine, s: State, e: Event)
    requires m.Valid() && Shaped(s) && TablesOk(m, s) && (e.BeginSecond? || e.EndSecond?) && Enabled(m, s, e)
    ensures TablesOk(m, Next(m, s, e))
    ensures ViewOf(s).p1 == ViewOf(Next(m, s, e)).p1 && ViewOf(s).p2 == ViewOf(Next(m, s, e)).p2
  {
    var v, w, u := SwappedView(UNSWAPPED, s.swaps1, s.swaps2), ViewOf(s), ViewOf(Next(m, s, e));
    ImagesApart(m.c, w, u);
    if e.BeginSecond? {
      BeginSecondImage(m.c, v, u);
      assert S2Image(m.c, v)[S2_SWITCH1] == S2Entry(m.c, v, S2_SWITCH1);
    } else {
      EndSecondImage(m.c, v, w, u);
    }
  }

  /** Caches and queue as before, and no debt forgotten. */
  predicate SameCaches(s: State, t: State) {
    t.first == s.first && t.second == s.second && t.combined == s.combined && t.ring == s.ring
    && s.owedFirst <= t.owedFirst && s.owedSecond <= t.owedSecond
  }

  lemma StoreFirstLines(m: Machine, s: State, v: View, t: State, w: View)
    requires m.Valid() && Shaped(s) && Shaped(t) && v.Valid() && w.Valid() && LinesOk(m, s, v)
    requires SameCaches(s, t) && m.contexts <= t.owedFirst && v.q1 == w.q1 && v.q2 == w.q2
    ensures LinesOk(m, t, w)
  {
    forall k | k in t.first
      ensures FirstLineOk(m, t, w, k, t.first[k])
    {
      assert FirstLineOk(m, s, v, k, s.first[k]);
      if !SwitchPage(k.page) {
        SwapsFrameFirst(m.c, v, w, k.page, k.acc);
      }
    }
    forall k | k in t.second
      ensures SecondLineOk(m, t, w, k, t.second[k])
    {
      assert SecondLineOk(m, s, v, k, s.second[k]);
      SwapsFrameSecond(m.c, v, w, k.page, k.acc);
    }
    forall k | k in t.combined
      ensures CombinedLineOk(m, t, w, k, t.combined[k])
    {
      assert CombinedLineOk(m, s, v, k, s.combined[k]);
      if !SwitchPage(k.page) {
        SwapsFrame(m.c, v, w, k.page, k.acc);
      }
    }
  }

  lemma StoreSecondLines(m: Machine, s: State, v: View, t: State, w: View)
    requires m.Valid() && Shaped(s) && Shaped(t) && v.Valid() && w.Valid() && LinesOk(m, s, v)
    requires SameCaches(s, t) && m.Gscids() <= t.owedSecond && v.p1 == w.p1 && v.p2 == w.p2
    ensures LinesOk(m, t, w)
  {
    forall k | k in t.first
      ensures FirstLineOk(m, t, w, k, t.first[k])
    {
      assert FirstLineOk(m, s, v, k, s.first[k]);
      SwapsFrameFirst(m.c, v, w, k.page, k.acc);
    }
    forall k | k in t.second
      ensures SecondLineOk(m, t, w, k, t.second[k])
    {
      assert SecondLineOk(m, s, v, k, s.second[k]);
      if !SwitchAlias(k.page) {
        SwapsFrameSecond(m.c, v, w, k.page, k.acc);
      }
    }
    forall k | k in t.combined
      ensures CombinedLineOk(m, t, w, k, t.combined[k])
    {
      assert CombinedLineOk(m, s, v, k, s.combined[k]);
      if !SwitchPage(k.page) {
        SwapsFrame(m.c, v, w, k.page, k.acc);
      }
    }
  }

  lemma StoreKeeps(m: Machine, s: State, e: Event)
    requires m.Valid() && Inv(m, s) && Store(e) && Enabled(m, s, e)
    ensures Inv(m, Next(m, s, e))
  {
    var t := Next(m, s, e);
    if e.BeginFirst? || e.EndFirst? {
      StoreTablesFirst(m, s, e);
      StoreFirstLines(m, s, ViewOf(s), t, ViewOf(t));
    } else {
      StoreTablesSecond(m, s, e);
      StoreSecondLines(m, s, ViewOf(s), t, ViewOf(t));
    }
  }

  // ---------------------------------------------------------------------------------------------
  // The command queue.

  lemma QueuedFirst(q: seq<Command>, cmd: Command, ctx: Tag)
    ensures SomeClearsFirst(q + [cmd], ctx) <==> SomeClearsFirst(q, ctx) || ClearsFirst(Commands.Decode(cmd), ctx)
  {
    var r := q + [cmd];
    if SomeClearsFirst(q, ctx) {
      var i :| 0 <= i < |q| && ClearsFirst(Commands.Decode(q[i]), ctx);
      assert r[i] == q[i];
    }
    assert r[|q|] == cmd;
  }

  lemma QueuedSecond(q: seq<Command>, cmd: Command, gscid: bv64)
    ensures SomeClearsSecond(q + [cmd], gscid) <==> SomeClearsSecond(q, gscid) || ClearsSecond(Commands.Decode(cmd), gscid)
  {
    var r := q + [cmd];
    if SomeClearsSecond(q, gscid) {
      var i :| 0 <= i < |q| && ClearsSecond(Commands.Decode(q[i]), gscid);
      assert r[i] == q[i];
    }
    assert r[|q|] == cmd;
  }

  lemma HeadFirst(q: seq<Command>, ctx: Tag)
    requires q != []
    ensures SomeClearsFirst(q, ctx) ==> ClearsFirst(Commands.Decode(q[0]), ctx) || SomeClearsFirst(q[1..], ctx)
  {
  }

  lemma HeadSecond(q: seq<Command>, gscid: bv64)
    requires q != []
    ensures SomeClearsSecond(q, gscid) ==> ClearsSecond(Commands.Decode(q[0]), gscid) || SomeClearsSecond(q[1..], gscid)
  {
  }

  /** Lines stay good from `s` to `t` if those kept are as before and only those due in `t` were due. */
  lemma LinesCarry(m: Machine, s: State, t: State, v: View)
    requires m.Valid() && Shaped(s) && Shaped(t) && v.Valid() && LinesOk(m, s, v)
    requires forall k | k in t.first ::
      k in s.first && t.first[k] == s.first[k] && (DueFirst(s, k.ctx) ==> DueFirst(t, k.ctx))
    requires forall k | k in t.second ::
      k in s.second && t.second[k] == s.second[k] && (DueSecond(s, k.gscid) ==> DueSecond(t, k.gscid))
    requires forall k | k in t.combined ::
      (k in s.combined && t.combined[k] == s.combined[k]
       && (DueFirst(s, k.ctx) ==> DueFirst(t, k.ctx)) && (DueSecond(s, k.ctx.gscid) ==> DueSecond(t, k.ctx.gscid)))
    ensures LinesOk(m, t, v)
  {
  }

  lemma QueueDueFirst(s: State, cmd: Command, t: State, ctx: Tag)
    requires Shaped(s) && Shaped(t) && t == Queued(s, cmd, Commands.Decode(cmd))
    requires t.ring.Items() == s.ring.Items() + [cmd]
    ensures DueFirst(s, ctx) ==> DueFirst(t, ctx)
  {
    QueuedFirst(s.ring.Items(), cmd, ctx);
  }

  lemma QueueDueSecond(s: State, cmd: Command, t: State, gscid: bv64)
    requires Shaped(s) && Shaped(t) && t == Queued(s, cmd, Commands.Decode(cmd))
    requires t.ring.Items() == s.ring.Items() + [cmd]
    ensures DueSecond(s, gscid) ==> DueSecond(t, gscid)
  {
    QueuedSecond(s.ring.Items(), cmd, gscid);
  }

  lemma QueueKeeps(m: Machine, s: State, cmd: Command)
    requires m.Valid() && Inv(m, s) && Enabled(m, s, Queue(cmd))
    ensures Inv(m, Next(m, s, Queue(cmd)))
  {
    var t := Next(m, s, Queue(cmd));
    Rings.PushItems(s.ring, cmd);
    forall ctx
      ensures DueFirst(s, ctx) ==> DueFirst(t, ctx)
    {
      QueueDueFirst(s, cmd, t, ctx);
    }
    forall gscid
      ensures DueSecond(s, gscid) ==> DueSecond(t, gscid)
    {
      QueueDueSecond(s, cmd, t, gscid);
    }
    LinesCarry(m, s, t, ViewOf(s));
  }

  lemma ExecuteDue(s: State, d: Commands.Decoded, t: State, ctx: Tag)
    requires Shaped(s) && s.ring.head != s.ring.tail && d == Commands.Decode(s.ring.slots[s.ring.head])
    requires Shaped(t) && t == Executed(s, d)
    ensures DueFirst(s, ctx) ==> DueFirst(t, ctx) || ClearsFirst(d, ctx)
    ensures DueSecond(s, ctx.gscid) ==> DueSecond(t, ctx.gscid) || ClearsSecond(d, ctx.gscid)
  {
    if !d.Illegal? {
      Rings.PopItems(s.ring);
      HeadFirst(s.ring.Items(), ctx);
      HeadSecond(s.ring.Items(), ctx.gscid);
    }
  }

  /** What was due for a line that survives a command is still due: the command was not the one. */
  lemma ExecuteLines(m: Machine, s: State, d: Commands.Decoded, t: State, v: View)
    requires m.Valid() && Shaped(s) && v.Valid() && LinesOk(m, s, v)
    requires Shaped(t) && t == Executed(s, d)
    requires forall ctx :: DueFirst(s, ctx) ==> DueFirst(t, ctx) || ClearsFirst(d, ctx)
    requires forall g :: DueSecond(s, g) ==> DueSecond(t, g) || ClearsSecond(d, g)
    ensures LinesOk(m, t, v)
  {
    forall k | k in t.first
      ensures k in s.first && t.first[k] == s.first[k] && (DueFirst(s, k.ctx) ==> DueFirst(t, k.ctx))
    {
      assert FirstLineOk(m, s, v, k, s.first[k]);
    }
    forall k | k in t.second
      ensures k in s.second && t.second[k] == s.second[k] && (DueSecond(s, k.gscid) ==> DueSecond(t, k.gscid))
    {
    }
    forall k | k in t.combined
      ensures k in s.combined && t.combined[k] == s.combined[k]
      ensures (DueFirst(s, k.ctx) ==> DueFirst(t, k.ctx)) && (DueSecond(s, k.ctx.gscid) ==> DueSecond(t, k.ctx.gscid))
    {
      assert CombinedLineOk(m, s, v, k, s.combined[k]);
    }
    LinesCarry(m, s, t, v);
  }

  lemma ExecuteKeeps(m: Machine, s: State)
    requires m.Valid() && Inv(m, s) && Enabled(m, s, Execute)
    ensures Inv(m, Next(m, s, Execute))
  {
    var t, d := Next(m, s, Execute), Commands.Decode(s.ring.slots[s.ring.head]);
    forall ctx
      ensures DueFirst(s, ctx) ==> DueFirst(t, ctx) || ClearsFirst(d, ctx)
    {
      ExecuteDue(s, d, t, ctx);
    }
    forall g
      ensures DueSecond(s, g) ==> DueSecond(t, g) || ClearsSecond(d, g)
    {
      ExecuteDue(s, d, t, Tag(g, 0));
    }
    ExecuteLines(m, s, d, t, ViewOf(s));
  }

  // ---------------------------------------------------------------------------------------------
  // Fills and evictions.

  /** No PTE of `s1pt` has G set. */
  lemma NoGlobalPte(c: Config, v: View, a: nat)
    requires c.Valid() && c.PermTable() && v.Valid()
    requires FirstStageMemory(c, v)(a).Got?
    ensures !FirstStageMemory(c, v)(a).p.g
  {
    var k := SlotIndex(c.s1Base, S1Image(c, v), a);
    DecodeS1(c, v, k);
    assert FirstStageMemory(c, v)(c.s1Base + 8 * k) == Got(S1Pte(c, v, k)) by { SlotAt(c.s1Base, S1Image(c, v), k); }
  }

  function SlotIndex(base: nat, table: seq<nat>, a: nat): (k: nat)
    requires Slot(base, table, a).Got?
    ensures k < |table| && a == base + 8 * k
  {
    (a - base) / 8
  }

  /** A walk that stays inside the PTEs `h` knows, none of which has G set, meets none that has. */
  lemma {:induction false} NeverMeetsGlobal(h: Fetch, g: Fetch, stage: Stage, table: nat, level: nat, va: nat, acc: Access)
    requires level < 3
    requires forall a | h(a).Got? :: g(a) == h(a) && !h(a).p.g
    requires forall a :: h(a).Fault? ==> h(a).o == AccessFault
    requires WalkFrom(h, stage, table, level, va, acc) != AccessFault
    ensures !MeetsGlobal(g, stage, table, level, va, acc)
    decreases level
  {
    var slot := table + 8 * Index(stage, level, va);
    if h(slot).Got? {
      var step := Interpret(stage, h(slot).p, level, acc);
      if step.Down? && level > 0 {
        assert WalkFrom(h, stage, step.table, level - 1, va, acc) != AccessFault;
        NeverMeetsGlobal(h, g, stage, step.table, level - 1, va, acc);
      }
      NoGlobalStep(g, stage, table, level, va, acc, step);
    }
  }

  lemma NoGlobalStep(g: Fetch, stage: Stage, table: nat, level: nat, va: nat, acc: Access, step: Step)
    requires level < 3
    requires var slot := table + 8 * Index(stage, level, va);
      g(slot).Got? && !g(slot).p.g && step == Interpret(stage, g(slot).p, level, acc)
    requires step.Down? && level > 0 ==> !MeetsGlobal(g, stage, step.table, level - 1, va, acc)
    ensures !MeetsGlobal(g, stage, table, level, va, acc)
  {
  }

  /** So no line is exempt from an invalidation by PSCID. */
  lemma NotGlobal(m: Machine, s: State, v: View, ctx: Tag, va: nat, acc: Access)
    requires m.Valid() && Shaped(s) && v.Valid() && s.tables == Image(m.c, v) && LinesOk(m, s, v)
    ensures !FirstGlobal(m, s, ctx, va, acc)
  {
    var key := FirstKey(ctx, PageOf(va), acc);
    if key in s.first {
      assert FirstLineOk(m, s, v, key, s.first[key]);
    } else {
      var h, g := FirstStageMemory(m.c, v), CachedFetch(m, s, ctx.gscid);
      forall a | h(a).Got?
        ensures g(a) == h(a) && !h(a).p.g
      {
        FetchOk(m, s, v, ctx.gscid, a);
        NoGlobalPte(m.c, v, a);
      }
      FirstStageIs(m.c, v, va, acc);
      if InRange(Sv39, va) {
        NeverMeetsGlobal(h, g, Sv39, m.c.s1Base, 2, va, acc);
      }
    }
  }

  lemma FillFirstLines(m: Machine, s: State, v: View, k: FirstKey)
    requires m.Valid() && Shaped(s) && v.Valid() && s.tables == Image(m.c, v) && LinesOk(m, s, v)
    requires Enabled(m, s, FillFirst(k))
    ensures LinesOk(m, Next(m, s, FillFirst(k)), v)
  {
    var t := Next(m, s, FillFirst(k));
    FirstLookupOk(m, s, v, k.ctx, k.page, k.acc);
    NotGlobal(m, s, v, k.ctx, k.page, k.acc);
    assert FirstLineOk(m, t, v, k, t.first[k]);
    LinesCarry(m, s, t.(first := s.first), v);
    assert forall j | j in s.first :: FirstLineOk(m, s, v, j, s.first[j]) ==> FirstLineOk(m, t, v, j, s.first[j]);
  }

  lemma FillSecondLines(m: Machine, s: State, v: View, ctx: Tag, gpage: nat, acc: Access)
    requires m.Valid() && Shaped(s) && v.Valid() && s.tables == Image(m.c, v) && LinesOk(m, s, v)
    requires Enabled(m, s, FillSecond(ctx, gpage, acc))
    ensures LinesOk(m, Next(m, s, FillSecond(ctx, gpage, acc)), v)
  {
    var t, k := Next(m, s, FillSecond(ctx, gpage, acc)), SecondKey(ctx.gscid, gpage, acc);
    SecondLookupOk(m, s, v, ctx.gscid, gpage, acc);
    assert ctx.gscid in m.Gscids();
    assert SecondLineOk(m, t, v, k, t.second[k]);
    LinesCarry(m, s, t.(second := s.second), v);
    assert forall j | j in s.second :: SecondLineOk(m, s, v, j, s.second[j]) ==> SecondLineOk(m, t, v, j, s.second[j]);
  }

  lemma FillCombinedLines(m: Machine, s: State, v: View, k: FirstKey)
    requires m.Valid() && Shaped(s) && v.Valid() && s.tables == Image(m.c, v) && LinesOk(m, s, v)
    requires Enabled(m, s, FillCombined(k))
    ensures LinesOk(m, Next(m, s, FillCombined(k)), v)
  {
    var t := Next(m, s, FillCombined(k));
    TwoLookupsOk(m, s, v, k.ctx, k.page, k.acc);
    NotGlobal(m, s, v, k.ctx, k.page, k.acc);
    assert CombinedLineOk(m, t, v, k, t.combined[k]);
    LinesCarry(m, s, t.(combined := s.combined), v);
    assert forall j | j in s.combined ::
      CombinedLineOk(m, s, v, j, s.combined[j]) ==> CombinedLineOk(m, t, v, j, s.combined[j]);
  }

  // ---------------------------------------------------------------------------------------------
  // All steps, and whole runs.

  /** Every single store of a swap, every command written, whatever it is, and every step of the IOMMU keeps
      the invariant: each line of the IOTLB equals the current walk, or belongs to one of the two swapped
      pages and is covered by an invalidation that is queued or still owed. */
  lemma StepKeeps(m: Machine, s: State, e: Event)
    requires m.Valid() && Inv(m, s) && Enabled(m, s, e)
    ensures Inv(m, Next(m, s, e))
  {
    match e
    case Queue(cmd) => QueueKeeps(m, s, cmd);
    case Execute => ExecuteKeeps(m, s);
    case FillFirst(k) => FillFirstLines(m, s, ViewOf(s), k);
    case FillSecond(ctx, gpage, acc) => FillSecondLines(m, s, ViewOf(s), ctx, gpage, acc);
    case FillCombined(k) => FillCombinedLines(m, s, ViewOf(s), k);
    case Evict(_, _, _) => LinesCarry(m, s, Next(m, s, e), ViewOf(s));
    case _ => StoreKeeps(m, s, e);
  }

  lemma {:induction false} RunKeeps(m: Machine, s: State, es: seq<Event>)
    requires m.Valid() && Inv(m, s) && Possible(m, s, es)
    ensures Inv(m, After(m, s, es))
    decreases |es|
  {
    if es != [] {
      StepKeeps(m, s, es[0]);
      RunKeeps(m, Next(m, s, es[0]), es[1..]);
    }
  }

  lemma InitialInv(m: Machine, s: State)
    requires m.Valid() && Initial(m, s)
    ensures Inv(m, s)
  {
  }

  /** The uncached walk of the current tables. */
  function Uncached(m: Machine, s: State, va: nat, acc: Access): Outcome {
    Nested(Memory(m.c, s.tables), m.c.s1Base, m.c.rootBase, va, acc)
  }

  /** In every reachable state, also in the middle of a swap, an answer can differ from the uncached walk only
      for one of the two swapped pages, and only while an invalidation is owed or queued for the context. */
  lemma AnswersCoherent(m: Machine, s: State, es: seq<Event>, ctx: Tag, va: nat, acc: Access)
    requires m.Valid() && Initial(m, s) && Possible(m, s, es)
    ensures var t := After(m, s, es);
      Lookup(m, t, ctx, va, acc) == Uncached(m, t, va, acc)
      || (0x1_0001_B000 <= va < 0x1_0001_D000 && (DueFirst(t, ctx) || DueSecond(t, ctx.gscid)))
  {
    InitialInv(m, s);
    RunKeeps(m, s, es);
    var t := After(m, s, es);
    LookupOk(m, t, ViewOf(t), ctx, va, acc);
  }

  /** Once the head has caught the tail with no invalidation owed, every translation of every context is the
      uncached walk. */
  lemma DrainedCoherent(m: Machine, s: State, es: seq<Event>, ctx: Tag, va: nat, acc: Access)
    requires m.Valid() && Initial(m, s) && Possible(m, s, es)
    requires var t := After(m, s, es); t.ring.head == t.ring.tail && t.owedFirst == {} && t.owedSecond == {}
    ensures var t := After(m, s, es); Lookup(m, t, ctx, va, acc) == Uncached(m, t, va, acc)
  {
    AnswersCoherent(m, s, es, ctx, va, acc);
  }
}
