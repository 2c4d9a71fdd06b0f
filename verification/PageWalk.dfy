/** A reference translation process: the Sv39 and Sv39x4 walks of sections 4.3.2, 4.4, 8.5 and 8.5.1
    of the RISC-V Privileged Architecture (20211203). */
module PageWalk {
  import Bits

  datatype Kind = Read | Write | Exec

  /** `sum` lets a supervisor access touch user pages. */
  datatype Access = Access(kind: Kind, supervisor: bool, sum: bool)

  datatype Outcome = Mapped(pa: nat) | PageFault | GuestFault | AccessFault

  /** What reading a PTE address gives: the PTE, or the fault met on the way to it. */
  datatype Fetched = Got(p: Pte) | Fault(o: Outcome)

  type Fetch = nat -> Fetched

  datatype Stage = Sv39 | Sv39x4

  const PAGE: nat := 0x1000

  /** Bytes mapped by a leaf at each level. */
  function LevelSize(level: nat): (size: nat)
    requires level < 3
    ensures size > 0
  {
    if level == 0 then 0x1000 else if level == 1 then 0x20_0000 else 0x4000_0000
  }

  /** The V, R, W, X and U flags. */
  datatype Rights = Rights(v: bool, r: bool, w: bool, x: bool, u: bool)

  /** `reserved` says that one of bits 63 to 54 is set. */
  datatype Pte = Pte(ppn: nat, rights: Rights, g: bool, a: bool, d: bool, reserved: bool)

  function RightsOf(p: nat): Rights {
    Rights(p % 2 == 1, p / 2 % 2 == 1, p / 4 % 2 == 1, p / 8 % 2 == 1, p / 16 % 2 == 1)
  }

  function DecodePte(p: nat): Pte {
    Pte(p / 1024 % 0x1000_0000_0000, RightsOf(p), p / 32 % 2 == 1, p / 64 % 2 == 1, p / 128 % 2 == 1,
        p >= 0x40_0000_0000_0000)
  }

  predicate KindAllowed(t: Rights, kind: Kind) {
    match kind
    case Read => t.r
    case Write => t.w
    case Exec => t.x
  }

  /** Leaf permission with MXR clear. In the second stage every access counts as a user access. */
  predicate Allows(stage: Stage, t: Rights, acc: Access) {
    && KindAllowed(t, acc.kind)
    && (if stage == Sv39 && acc.supervisor then t.u ==> acc.sum && acc.kind != Exec else t.u)
  }

  datatype Step = Fail | Down(table: nat) | Leaf(base: nat)

  /** What one PTE means at `level`; a leaf gives the base of the region it maps. */
  function Interpret(stage: Stage, p: Pte, level: nat, acc: Access): Step
    requires level < 3
  {
    if !p.rights.v || (p.rights.w && !p.rights.r) || p.reserved then Fail
    else if !p.rights.r && !p.rights.x then
      if level == 0 || p.a || p.d || p.rights.u then Fail else Down(p.ppn * PAGE)
    else if !Allows(stage, p.rights, acc) then Fail
    else if (p.ppn * PAGE) % LevelSize(level) != 0 then Fail
    else if !p.a || (acc.kind == Write && !p.d) then Fail
    else Leaf(p.ppn * PAGE)
  }

  // ---------------------------------------------------------------------------------------------
  // The same by the bits of the word in memory.

  /** The flag that allows an access of this kind: R is bit 1, W bit 2, X bit 3. */
  function KindBit(kind: Kind): nat {
    match kind
    case Read => 1
    case Write => 2
    case Exec => 3
  }

  /** V, U and the flag of the kind are set. */
  predicate UserMay(word: nat, kind: Kind) {
    Bits.Bit(word, 0) && Bits.Bit(word, 4) && Bits.Bit(word, KindBit(kind))
  }

  /** V and the flag of the kind are set, and a page with U set is met with SUM only, and not executed. */
  predicate SupervisorMay(word: nat, acc: Access) {
    && Bits.Bit(word, 0) && Bits.Bit(word, KindBit(acc.kind))
    && (Bits.Bit(word, 4) ==> acc.sum && acc.kind != Exec)
  }

  /** Who may do what: the second stage treats every access as a user's. */
  predicate May(stage: Stage, word: nat, acc: Access) {
    if stage == Sv39 && acc.supervisor then SupervisorMay(word, acc) else UserMay(word, acc.kind)
  }

  lemma FlagBits(word: nat)
    ensures RightsOf(word)
         == Rights(Bits.Bit(word, 0), Bits.Bit(word, 1), Bits.Bit(word, 2), Bits.Bit(word, 3), Bits.Bit(word, 4))
    ensures Bits.Bit(word, 6) <==> word / 64 % 2 == 1
    ensures Bits.Bit(word, 7) <==> word / 128 % 2 == 1
  {
    Bits.BitIs(word, 1);
    Bits.BitIs(word, 2);
    Bits.BitIs(word, 3);
    Bits.BitIs(word, 4);
    Bits.BitIs(word, 6);
    Bits.BitIs(word, 7);
    assert Bits.Pow2(3) == 8 && Bits.Pow2(7) == 128;
  }

  lemma AllowsByBits(stage: Stage, word: nat, acc: Access)
    ensures RightsOf(word).v && Allows(stage, RightsOf(word), acc) <==> May(stage, word, acc)
  {
    FlagBits(word);
  }

  /** A word is a leaf for an access exactly if no bit above 53 is set, V and one of R and X are, W comes with R,
      the access is allowed, the page number fits the level, and A, and for writes D, is set. It is a pointer
      exactly if no bit above 53 is set, V is, R, W, X, U, A and D are not, and the level is not the last. */
  lemma WordsByBits(stage: Stage, word: nat, level: nat, acc: Access)
    requires level < 3
    ensures Interpret(stage, DecodePte(word), level, acc).Leaf? <==>
      && word < 0x40_0000_0000_0000 && (Bits.Bit(word, 1) || Bits.Bit(word, 3)) && (Bits.Bit(word, 2) ==> Bits.Bit(word, 1))
      && May(stage, word, acc)
      && word / 1024 % (if level == 0 then 1 else if level == 1 then 512 else 512 * 512) == 0
      && Bits.Bit(word, 6) && (acc.kind == Write ==> Bits.Bit(word, 7))
    ensures Interpret(stage, DecodePte(word), level, acc).Down? <==>
      && word < 0x40_0000_0000_0000 && level > 0 && Bits.Bit(word, 0)
      && !Bits.Bit(word, 1) && !Bits.Bit(word, 2) && !Bits.Bit(word, 3)
      && !Bits.Bit(word, 4) && !Bits.Bit(word, 6) && !Bits.Bit(word, 7)
    ensures Interpret(stage, DecodePte(word), level, acc).Leaf? ==>
      Interpret(stage, DecodePte(word), level, acc).base == word / 1024 * 0x1000
    ensures Interpret(stage, DecodePte(word), level, acc).Down? ==>
      Interpret(stage, DecodePte(word), level, acc).table == word / 1024 * 0x1000
  {
    FlagBits(word);
    AllowsByBits(stage, word, acc);
    if word < 0x40_0000_0000_0000 {
      FieldFits(word);
      PagesFit(word / 1024, level);
    }
  }

  lemma FieldFits(word: nat)
    requires word < 0x40_0000_0000_0000
    ensures word / 1024 % 0x1000_0000_0000 == word / 1024
  {
    assert word / 1024 < 0x1000_0000_0000;
  }

  lemma PagesFit(ppn: nat, level: nat)
    requires level < 3
    ensures ppn * PAGE % LevelSize(level) == 0
       <==> ppn % (if level == 0 then 1 else if level == 1 then 512 else 512 * 512) == 0
  {
    var n := if level == 0 then 1 else if level == 1 then 512 else 512 * 512;
    var q, r := ppn / n, ppn % n;
    assert ppn == n * q + r;
    if level == 0 {
      Bits.DivUnique(ppn * PAGE, 0x1000, q, r * PAGE);
    } else if level == 1 {
      Bits.DivUnique(ppn * PAGE, 0x20_0000, q, r * PAGE);
    } else {
      Bits.DivUnique(ppn * PAGE, 0x4000_0000, q, r * PAGE);
    }
  }

  // ---------------------------------------------------------------------------------------------
  // Walks.

  /** The root table of Sv39x4 is four times wider than the others. */
  function Index(stage: Stage, level: nat, va: nat): (i: nat)
    requires level < 3
    ensures i < 2048 && (stage == Sv39 ==> i < 512)
  {
    if stage == Sv39x4 && level == 2 then va / 0x4000_0000 % 2048 else va / LevelSize(level) % 512
  }

  function FaultOf(stage: Stage): Outcome {
    if stage == Sv39 then PageFault else GuestFault
  }

  /** One stage of translation from the table at `table`. */
  function WalkFrom(f: Fetch, stage: Stage, table: nat, level: nat, va: nat, acc: Access): Outcome
    requires level < 3
    decreases level
  {
    match f(table + 8 * Index(stage, level, va))
    case Fault(o) => o
    case Got(p) =>
      match Interpret(stage, p, level, acc)
      case Fail => FaultOf(stage)
      case Down(t) => if level == 0 then FaultOf(stage) else WalkFrom(f, stage, t, level - 1, va, acc)
      case Leaf(base) => Mapped(base + va % LevelSize(level))
  }

  /** Sv39: bits 63 to 39 repeat bit 38. Sv39x4: guest physical addresses have 41 bits. */
  predicate InRange(stage: Stage, va: nat) {
    match stage
    case Sv39 => va < 0x40_0000_0000 || 0xFFFF_FFC0_0000_0000 <= va < 0x1_0000_0000_0000_0000
    case Sv39x4 => va < 0x200_0000_0000
  }

  function Walk(f: Fetch, stage: Stage, root: nat, va: nat, acc: Access): Outcome {
    if InRange(stage, va) then WalkFrom(f, stage, root, 2, va, acc) else FaultOf(stage)
  }

  /** First-stage tables hold guest physical addresses: with both stages on, fetching a PTE is itself
      a second-stage read. */
  function Through(f: Fetch, root2: nat): Fetch {
    (a: nat) =>
      match Walk(f, Sv39x4, root2, a, Access(Read, false, false))
      case Mapped(spa) => f(spa)
      case PageFault => Fault(PageFault)
      case GuestFault => Fault(GuestFault)
      case AccessFault => Fault(AccessFault)
  }

  /** Hand a first-stage outcome to the second stage. */
  function Then(f: Fetch, root2: nat, first: Outcome, acc: Access): Outcome {
    if first.Mapped? then Walk(f, Sv39x4, root2, first.pa, acc) else first
  }

  /** Full translation as the hardware does it. */
  function Nested(f: Fetch, root1: nat, root2: nat, va: nat, acc: Access): Outcome {
    Then(f, root2, Walk(Through(f, root2), Sv39, root1, va, acc), acc)
  }

  /** The two walks one after the other, the first reading its tables directly. */
  function Composed(f: Fetch, root1: nat, root2: nat, va: nat, acc: Access): Outcome {
    Then(f, root2, Walk(f, Sv39, root1, va, acc), acc)
  }

  /** Cause codes of the fault queue (section 3.2 of the RISC-V IOMMU specification 1.0). */
  function Cause(o: Outcome, kind: Kind): nat
    requires !o.Mapped?
  {
    match (o, kind)
    case (PageFault, Exec) => 12
    case (PageFault, Read) => 13
    case (PageFault, Write) => 15
    case (GuestFault, Exec) => 20
    case (GuestFault, Read) => 21
    case (GuestFault, Write) => 23
    case (AccessFault, Exec) => 1
    case (AccessFault, Read) => 5
    case (AccessFault, Write) => 7
  }

  /** The fault an unsuccessful walk may end in. */
  ghost predicate Proper(f: Fetch) {
    forall a :: f(a).Fault? ==> !f(a).o.Mapped?
  }

  // ---------------------------------------------------------------------------------------------
  // Translation works page by page.

  /** `o` moved `off` bytes up. */
  function Shift(o: Outcome, off: nat): Outcome {
    if o.Mapped? then Mapped(o.pa + off) else o
  }

  lemma SplitDivMod(size: nat, base: nat, off: nat)
    requires size == 0x1000 || size == 0x20_0000 || size == 0x4000_0000
    requires base % PAGE == 0 && off < PAGE
    ensures (base + off) / size == base / size
    ensures (base + off) % size == base % size + off
  {
    var q, r := base / size, base % size;
    if size == 0x1000 {
      RoomInPage(1, base, q, r, off);
    } else if size == 0x20_0000 {
      RoomInPage(0x200, base, q, r, off);
    } else {
      RoomInPage(0x4_0000, base, q, r, off);
    }
    Bits.DivUnique(base + off, size, q, r + off);
  }

  lemma RoomInPage(pages: nat, base: nat, q: nat, r: nat, off: nat)
    requires pages == 1 || pages == 0x200 || pages == 0x4_0000
    requires base == PAGE * pages * q + r && r < PAGE * pages && base % PAGE == 0 && off < PAGE
    ensures r + off < PAGE * pages
  {
    var b := base / PAGE;
    assert base == PAGE * b;
    assert r == PAGE * (b - pages * q);
  }

  lemma InRangeByPage(stage: Stage, base: nat, off: nat)
    requires base % PAGE == 0 && off < PAGE
    ensures InRange(stage, base + off) == InRange(stage, base)
  {
    var b := base / PAGE;
    assert base == 0x1000 * b;
  }

  lemma SamePage(stage: Stage, level: nat, base: nat, off: nat)
    requires level < 3 && base % PAGE == 0 && off < PAGE
    ensures Index(stage, level, base + off) == Index(stage, level, base)
    ensures (base + off) % LevelSize(level) == base % LevelSize(level) + off
  {
    SplitDivMod(LevelSize(level), base, off);
  }

  lemma {:induction false} WalkFromByPage(f: Fetch, stage: Stage, table: nat, level: nat, base: nat, off: nat, acc: Access)
    requires level < 3 && base % PAGE == 0 && off < PAGE
    requires Proper(f)
    ensures WalkFrom(f, stage, table, level, base + off, acc) == Shift(WalkFrom(f, stage, table, level, base, acc), off)
    decreases level
  {
    var i := Index(stage, level, base);
    assert Index(stage, level, base + off) == i by { SamePage(stage, level, base, off); }
    var got := f(table + 8 * i);
    if got.Got? {
      var step := Interpret(stage, got.p, level, acc);
      match step {
        case Fail =>
        case Down(t) =>
          if level > 0 {
            WalkFromByPage(f, stage, t, level - 1, base, off, acc);
          }
        case Leaf(at) =>
          SamePage(stage, level, base, off);
      }
    }
  }

  lemma WalkByPage(f: Fetch, stage: Stage, root: nat, base: nat, off: nat, acc: Access)
    requires base % PAGE == 0 && off < PAGE
    requires Proper(f)
    ensures Walk(f, stage, root, base + off, acc) == Shift(Walk(f, stage, root, base, acc), off)
  {
    InRangeByPage(stage, base, off);
    if InRange(stage, base) {
      WalkFromByPage(f, stage, root, 2, base, off, acc);
    }
  }

  lemma LeafAligned(stage: Stage, p: Pte, level: nat, acc: Access)
    requires level < 3
    requires Interpret(stage, p, level, acc).Leaf?
    ensures Interpret(stage, p, level, acc).base % PAGE == 0
  {
  }

  lemma SizeModPage(level: nat, base: nat, va: nat)
    requires level < 3 && base % PAGE == 0
    ensures (base + va % LevelSize(level)) % PAGE == va % PAGE
  {
    var q, r := va / LevelSize(level), va % LevelSize(level);
    var pages := if level == 0 then 1 else if level == 1 then 512 else 0x4_0000;
    assert va == PAGE * (pages * q) + r;
    assert r == PAGE * (r / PAGE) + r % PAGE;
    Bits.DivUnique(va, PAGE, pages * q + r / PAGE, r % PAGE);
    Bits.DivUnique(base + r, PAGE, base / PAGE + r / PAGE, r % PAGE);
  }

  /** A successful walk keeps the offset in the page, whatever the tables hold. */
  lemma {:induction false} WalkFromOffset(f: Fetch, stage: Stage, table: nat, level: nat, va: nat, acc: Access)
    requires level < 3
    requires Proper(f)
    requires WalkFrom(f, stage, table, level, va, acc).Mapped?
    ensures WalkFrom(f, stage, table, level, va, acc).pa % PAGE == va % PAGE
    decreases level
  {
    var p := f(table + 8 * Index(stage, level, va)).p;
    match Interpret(stage, p, level, acc)
    case Leaf(base) =>
      LeafAligned(stage, p, level, acc);
      SizeModPage(level, base, va);
    case Down(t) =>
      WalkFromOffset(f, stage, t, level - 1, va, acc);
  }

  /** Translation is uniform within a page: the two outcomes fault alike, or the addresses differ by the
      offset. This is what lets a page-sized cache entry stand for the walk. */
  lemma NestedByPage(f: Fetch, root1: nat, root2: nat, base: nat, off: nat, acc: Access)
    requires base % PAGE == 0 && off < PAGE
    requires Proper(f)
    ensures Nested(f, root1, root2, base + off, acc) == Shift(Nested(f, root1, root2, base, acc), off)
  {
    ThroughProper(f, root2);
    var g := Through(f, root2);
    WalkByPage(g, Sv39, root1, base, off, acc);
    var first := Walk(g, Sv39, root1, base, acc);
    if first.Mapped? {
      WalkFromOffset(g, Sv39, root1, 2, base, acc);
      WalkByPage(f, Sv39x4, root2, first.pa, off, acc);
    }
  }

  lemma ThroughProper(f: Fetch, root2: nat)
    requires Proper(f)
    ensures Proper(Through(f, root2))
  {
    var g := Through(f, root2);
    forall a | g(a).Fault?
      ensures !g(a).o.Mapped?
    {
      var slot := Walk(f, Sv39x4, root2, a, Access(Read, false, false));
      if slot.Mapped? {
        assert g(a) == f(slot.pa);
      }
    }
  }

  // ---------------------------------------------------------------------------------------------
  // Nested against composed.

  /** A walk that stays inside the tables `f` knows depends on nothing else. */
  lemma {:induction false} WalkFromAgrees(f: Fetch, g: Fetch, stage: Stage, table: nat, level: nat, va: nat, acc: Access)
    requires level < 3
    requires forall a :: f(a).Got? ==> g(a) == f(a)
    requires forall a :: f(a).Fault? ==> f(a).o == AccessFault
    requires WalkFrom(f, stage, table, level, va, acc) != AccessFault
    ensures WalkFrom(g, stage, table, level, va, acc) == WalkFrom(f, stage, table, level, va, acc)
    decreases level
  {
    var got := f(table + 8 * Index(stage, level, va));
    if got.Got? {
      var step := Interpret(stage, got.p, level, acc);
      if step.Down? && level > 0 {
        WalkFromAgrees(f, g, stage, step.table, level - 1, va, acc);
      }
      SameStep(f, g, stage, table, level, va, acc, step);
    }
  }

  /** Two walks that fetch the same PTE, and go on alike below it, end alike. */
  lemma SameStep(f: Fetch, g: Fetch, stage: Stage, table: nat, level: nat, va: nat, acc: Access, step: Step)
    requires level < 3
    requires var slot := table + 8 * Index(stage, level, va);
      f(slot).Got? && g(slot) == f(slot) && step == Interpret(stage, f(slot).p, level, acc)
    requires step.Down? && level > 0 ==>
      WalkFrom(g, stage, step.table, level - 1, va, acc) == WalkFrom(f, stage, step.table, level - 1, va, acc)
    ensures WalkFrom(g, stage, table, level, va, acc) == WalkFrom(f, stage, table, level, va, acc)
  {
  }

  /** Where `h` reads those PTEs of `f` that the second stage maps to their own addresses, and the first stage
      needs no others, translating the PTE fetches changes nothing: same address, same class of fault. */
  lemma NestedIsComposed(f: Fetch, h: Fetch, root1: nat, root2: nat, va: nat, acc: Access)
    requires forall a | h(a).Got? :: f(a) == h(a) && Walk(f, Sv39x4, root2, a, Access(Read, false, false)) == Mapped(a)
    requires forall a :: h(a).Fault? ==> h(a).o == AccessFault
    requires Walk(h, Sv39, root1, va, acc) != AccessFault
    ensures Nested(f, root1, root2, va, acc) == Composed(f, root1, root2, va, acc)
    ensures Walk(Through(f, root2), Sv39, root1, va, acc) == Walk(h, Sv39, root1, va, acc) == Walk(f, Sv39, root1, va, acc)
  {
    var g := Through(f, root2);
    forall a | h(a).Got?
      ensures g(a) == h(a)
    {
    }
    if InRange(Sv39, va) {
      WalkFromAgrees(h, f, Sv39, root1, 2, va, acc);
      WalkFromAgrees(h, g, Sv39, root1, 2, va, acc);
    }
  }
}
