/** The command queue and the fault queue: rings of 64 slots in memory whose indices wrap only because the
    index registers keep six bits. */
module Rings {
  import opened Bits
  import opened Commands

  const N: nat := 64

  /** A ring by value: what the memory behind it holds and its two index registers. */
  datatype Ring<T> = Ring(slots: seq<T>, head: nat, tail: nat) {
    predicate Valid() {
      |slots| == N && head < N && tail < N
    }

    /** The entries written and not yet taken, oldest first. */
    function Items(): seq<T>
      requires Valid()
    {
      if head <= tail then slots[head..tail] else slots[head..] + slots[..tail]
    }

    /** Store an entry and step the tail register. */
    function Push(x: T): (r: Ring<T>)
      requires Valid()
      ensures r.Valid()
    {
      Ring(slots[tail := x], head, (tail + 1) % N)
    }

    function Pop(): (r: Ring<T>)
      requires Valid()
      ensures r.Valid()
    {
      Ring(slots, (head + 1) % N, tail)
    }
  }

  /** Up to 62 outstanding entries a push appends. At 63 the tail catches the head: the ring looks empty and
      all 64 entries are lost. Nothing in the driver checks. */
  lemma PushItems<T>(r: Ring<T>, x: T)
    requires r.Valid()
    ensures |r.Items()| < N
    ensures r.Push(x).Items() == if |r.Items()| < N - 1 then r.Items() + [x] else []
  {
  }

  lemma PopItems<T>(r: Ring<T>)
    requires r.Valid() && r.head != r.tail
    ensures r.Items() != [] && r.slots[r.head] == r.Items()[0]
    ensures r.Pop().Items() == r.Items()[1..]
  {
    var s := r.Pop();
    if r.head < r.tail {
      assert s.Items() == r.slots[r.head + 1..r.tail];
    } else if r.head + 1 < N {
      assert s.Items() == r.slots[r.head + 1..] + r.slots[..r.tail];
    } else {
      assert r.slots[r.head..] == [r.slots[r.head]];
      assert s.Items() == r.slots[..r.tail];
    }
  }

  lemma HeadThenPop<T>(r: Ring<T>)
    requires r.Valid() && r.head != r.tail
    ensures r.Items() == [r.slots[r.head]] + r.Pop().Items()
  {
    PopItems(r);
  }

  lemma EmptyIff<T>(r: Ring<T>)
    requires r.Valid()
    ensures r.Items() == [] <==> r.head == r.tail
  {
  }

  // ---------------------------------------------------------------------------------------------
  // Runs of the command queue.

  datatype CqStep<T> = Write(x: T) | Fetch

  /** A ring in the middle of a run: what has been written so far and what has been executed. */
  datatype CqRun<T> = CqRun(ring: Ring<T>, written: seq<T>, executed: seq<T>)

  function CqNext<T>(s: CqRun<T>, e: CqStep<T>): (t: CqRun<T>)
    requires s.ring.Valid()
    ensures t.ring.Valid()
  {
    match e
    case Write(x) => CqRun(s.ring.Push(x), s.written + [x], s.executed)
    case Fetch =>
      if s.ring.head == s.ring.tail then s
      else CqRun(s.ring.Pop(), s.written, s.executed + [s.ring.slots[s.ring.head]])
  }

  function CqAfter<T>(s: CqRun<T>, es: seq<CqStep<T>>): (t: CqRun<T>)
    requires s.ring.Valid()
    ensures t.ring.Valid()
    decreases |es|
  {
    if es == [] then s else CqAfter(CqNext(s, es[0]), es[1..])
  }

  /** No write of the run finds 63 commands outstanding. */
  predicate NeverFull<T>(s: CqRun<T>, es: seq<CqStep<T>>)
    requires s.ring.Valid()
    decreases |es|
  {
    es == [] ||
    ((es[0].Write? ==> |s.ring.Items()| < 63) && NeverFull(CqNext(s, es[0]), es[1..]))
  }

  lemma AppendBoth<T>(all: seq<T>, done: seq<T>, left: seq<T>, x: T)
    requires all == done + left
    ensures all + [x] == done + (left + [x])
  {
  }

  lemma MoveOne<T>(all: seq<T>, done: seq<T>, x: T, left: seq<T>)
    requires all == done + ([x] + left)
    ensures all == (done + [x]) + left
  {
  }

  lemma CqStepKeeps<T>(s: CqRun<T>, e: CqStep<T>)
    requires s.ring.Valid() && s.written == s.executed + s.ring.Items()
    requires e.Write? ==> |s.ring.Items()| < N - 1
    ensures var t := CqNext(s, e); t.written == t.executed + t.ring.Items()
  {
    if e.Write? {
      PushItems(s.ring, e.x);
      AppendBoth(s.written, s.executed, s.ring.Items(), e.x);
    } else if s.ring.head != s.ring.tail {
      HeadThenPop(s.ring);
      MoveOne(s.written, s.executed, s.ring.slots[s.ring.head], s.ring.Pop().Items());
    }
  }

  /** The ring refines a FIFO over every run that never finds it full, across any number of wraps: the
      IOMMU has executed exactly the commands written, in order, but for those still in the ring. */
  lemma {:induction false} CommandFifo<T>(s: CqRun<T>, es: seq<CqStep<T>>)
    requires s.ring.Valid() && NeverFull(s, es)
    requires s.written == s.executed + s.ring.Items()
    ensures var t := CqAfter(s, es); t.written == t.executed + t.ring.Items()
    decreases |es|
  {
    if es != [] {
      CqStepKeeps(s, es[0]);
      CommandFifo(CqNext(s, es[0]), es[1..]);
    }
  }

  /** What a run has lost it never gets back. */
  lemma {:induction false} OnceLostAlwaysShort<T>(s: CqRun<T>, es: seq<CqStep<T>>)
    requires s.ring.Valid() && |s.executed| + |s.ring.Items()| < |s.written|
    ensures var t := CqAfter(s, es); |t.executed| + |t.ring.Items()| < |t.written|
    decreases |es|
  {
    if es != [] {
      if es[0].Write? {
        PushItems(s.ring, es[0].x);
      } else if s.ring.head != s.ring.tail {
        PopItems(s.ring);
      }
      OnceLostAlwaysShort(CqNext(s, es[0]), es[1..]);
    }
  }

  /** A run of the ring is a FIFO exactly when no write of it finds 63 commands outstanding: after one that does,
      no later step makes up for what was lost. */
  lemma {:induction false} CommandFifoIff<T>(s: CqRun<T>, es: seq<CqStep<T>>)
    requires s.ring.Valid() && s.written == s.executed + s.ring.Items()
    ensures NeverFull(s, es) <==> CqAfter(s, es).written == CqAfter(s, es).executed + CqAfter(s, es).ring.Items()
    decreases |es|
  {
    if NeverFull(s, es) {
      CommandFifo(s, es);
    } else {
      if es[0].Write? && |s.ring.Items()| >= N - 1 {
        PushItems(s.ring, es[0].x);
        FullWriteLosesAll(s, es[0].x);
        OnceLostAlwaysShort(CqNext(s, es[0]), es[1..]);
      } else {
        CqStepKeeps(s, es[0]);
        CommandFifoIff(CqNext(s, es[0]), es[1..]);
      }
    }
  }

  /** At the first write that finds 63 outstanding the FIFO is broken: 64 written commands are neither
      executed nor in the ring. */
  lemma FullWriteLosesAll<T>(s: CqRun<T>, x: T)
    requires s.ring.Valid() && |s.ring.Items()| == N - 1
    requires s.written == s.executed + s.ring.Items()
    ensures var t := CqNext(s, Write(x));
      && t.executed + t.ring.Items() == s.executed
      && |t.written| == |t.executed| + N
  {
  }

  /** An unbounded queue, and what has been taken from it. */
  datatype Fifo<T> = Fifo(queue: seq<T>, taken: seq<T>)

  function FifoAfter<T>(f: Fifo<T>, es: seq<CqStep<T>>): Fifo<T>
    decreases |es|
  {
    if es == [] then f
    else if es[0].Write? then FifoAfter(Fifo(f.queue + [es[0].x], f.taken), es[1..])
    else if f.queue == [] then FifoAfter(f, es[1..])
    else FifoAfter(Fifo(f.queue[1..], f.taken + [f.queue[0]]), es[1..])
  }

  /** Over every run that never finds it full the ring is an unbounded queue: the same commands outstanding, and
      the same executed, after every fetch that finds one. */
  lemma {:induction false} RefinesFifo<T>(s: CqRun<T>, es: seq<CqStep<T>>)
    requires s.ring.Valid() && NeverFull(s, es)
    ensures var t := CqAfter(s, es);
      FifoAfter(Fifo(s.ring.Items(), s.executed), es) == Fifo(t.ring.Items(), t.executed)
    decreases |es|
  {
    if es != [] {
      EmptyIff(s.ring);
      if es[0].Write? {
        PushItems(s.ring, es[0].x);
      } else if s.ring.head != s.ring.tail {
        PopItems(s.ring);
      }
      RefinesFifo(CqNext(s, es[0]), es[1..]);
    }
  }

  /** How many fetches of a run find a command, starting with `n` outstanding. */
  function Hits<T>(n: nat, es: seq<CqStep<T>>): nat
    decreases |es|
  {
    if es == [] then 0
    else if es[0].Write? then Hits(n + 1, es[1..])
    else if n == 0 then Hits(0, es[1..])
    else 1 + Hits(n - 1, es[1..])
  }

  /** Progress: each fetch that finds a command executes one. */
  lemma {:induction false} EachHitExecutes<T>(s: CqRun<T>, es: seq<CqStep<T>>)
    requires s.ring.Valid() && NeverFull(s, es)
    ensures |CqAfter(s, es).executed| == |s.executed| + Hits(|s.ring.Items()|, es)
    decreases |es|
  {
    if es != [] {
      EmptyIff(s.ring);
      if es[0].Write? {
        PushItems(s.ring, es[0].x);
      } else if s.ring.head != s.ring.tail {
        PopItems(s.ring);
      }
      EachHitExecutes(CqNext(s, es[0]), es[1..]);
    }
  }

  /** As many fetches as commands are outstanding execute all that was written. */
  lemma {:induction false} FetchesExecuteAll<T>(s: CqRun<T>, es: seq<CqStep<T>>)
    requires s.ring.Valid() && s.written == s.executed + s.ring.Items()
    requires |es| == |s.ring.Items()| && forall i :: 0 <= i < |es| ==> es[i] == CqStep<T>.Fetch
    ensures var t := CqAfter(s, es); t.executed == t.written == s.written && t.ring.Items() == []
    decreases |es|
  {
    if es != [] {
      EmptyIff(s.ring);
      PopItems(s.ring);
      CqStepKeeps(s, es[0]);
      FetchesExecuteAll(CqNext(s, es[0]), es[1..]);
    }
  }

  // ---------------------------------------------------------------------------------------------
  // Runs of the fault queue.

  datatype FqStep<T> = Fault(x: T) | Read | ClearOverflow

  /** The fault queue in the middle of a run. `faults` are all that happened, `appended` those the IOMMU
      recorded, `positions` which faults those were, and `read` what the driver has read. */
  datatype FqRun<T> = FqRun(
    ring: Ring<T>, overflow: bool, faults: seq<T>, appended: seq<T>, positions: seq<nat>, read: seq<T>)

  /** The IOMMU drops a fault when the queue is full and sets fqof, and drops every fault while fqof is set. */
  function FqNext<T>(s: FqRun<T>, e: FqStep<T>): (t: FqRun<T>)
    requires s.ring.Valid()
    ensures t.ring.Valid()
  {
    match e
    case Fault(x) =>
      var s' := s.(faults := s.faults + [x]);
      if s.overflow then s'
      else if (s.ring.tail + 1) % N == s.ring.head then s'.(overflow := true)
      else s'.(ring := s.ring.Push(x), appended := s.appended + [x], positions := s.positions + [|s.faults|])
    case Read =>
      if s.ring.head == s.ring.tail then s
      else s.(ring := s.ring.Pop(), read := s.read + [s.ring.slots[s.ring.head]])
    case ClearOverflow => s.(overflow := false)
  }

  function FqAfter<T>(s: FqRun<T>, es: seq<FqStep<T>>): (t: FqRun<T>)
    requires s.ring.Valid()
    ensures t.ring.Valid()
    decreases |es|
  {
    if es == [] then s else FqAfter(FqNext(s, es[0]), es[1..])
  }

  /** `a` is the subsequence of `b` at the strictly increasing positions `at`. */
  predicate Embeds<T(==)>(a: seq<T>, b: seq<T>, at: seq<nat>) {
    && |at| == |a|
    && (forall i :: 0 <= i < |at| ==> at[i] < |b| && a[i] == b[at[i]])
    && (forall i, j :: 0 <= i < j < |at| ==> at[i] < at[j])
  }

  /** Nothing appended is lost or read twice, and appending keeps the order of the faults. */
  ghost predicate Conserved<T>(s: FqRun<T>)
    requires s.ring.Valid()
  {
    && s.appended == s.read + s.ring.Items()
    && Embeds(s.appended, s.faults, s.positions)
  }

  lemma FullIff<T>(r: Ring<T>)
    requires r.Valid()
    ensures (r.tail + 1) % N == r.head <==> |r.Items()| == N - 1
  {
  }

  lemma FqStepConserves<T>(s: FqRun<T>, e: FqStep<T>)
    requires s.ring.Valid() && Conserved(s)
    ensures Conserved(FqNext(s, e))
  {
    FqStepKeeps(s, e);
    EmbedsMore(s.appended, s.faults, s.positions, if e.Fault? then [e.x] else []);
  }

  lemma FqStepKeeps<T>(s: FqRun<T>, e: FqStep<T>)
    requires s.ring.Valid() && s.appended == s.read + s.ring.Items()
    ensures var t := FqNext(s, e); t.appended == t.read + t.ring.Items()
  {
    if e.Fault? {
      FullIff(s.ring);
      PushItems(s.ring, e.x);
      AppendBoth(s.appended, s.read, s.ring.Items(), e.x);
    } else if e.Read? && s.ring.head != s.ring.tail {
      HeadThenPop(s.ring);
      MoveOne(s.appended, s.read, s.ring.slots[s.ring.head], s.ring.Pop().Items());
    }
  }

  lemma EmbedsMore<T>(a: seq<T>, b: seq<T>, at: seq<nat>, xs: seq<T>)
    requires Embeds(a, b, at)
    ensures Embeds(a, b + xs, at)
    ensures forall x :: xs == [x] ==> Embeds(a + [x], b + [x], at + [|b|])
  {
  }

  /** Over every run the records read are, in order, the first of those appended, which are an
      order-preserving subsequence of the faults; what was appended and not read is still queued. */
  lemma {:induction false} FaultConservation<T>(s: FqRun<T>, es: seq<FqStep<T>>)
    requires s.ring.Valid() && Conserved(s)
    ensures var t := FqAfter(s, es);
      && t.appended == t.read + t.ring.Items()
      && Embeds(t.appended, t.faults, t.positions)
      && |t.read| <= |t.positions| && Embeds(t.read, t.faults, t.positions[..|t.read|])
    decreases |es|
  {
    if es != [] {
      FqStepConserves(s, es[0]);
      FaultConservation(FqNext(s, es[0]), es[1..]);
    } else {
      ReadEmbeds(s);
    }
  }

  lemma ReadEmbeds<T>(s: FqRun<T>)
    requires s.ring.Valid() && Conserved(s)
    ensures |s.read| <= |s.positions| && Embeds(s.read, s.faults, s.positions[..|s.read|])
  {
  }

  /** No fault of the run finds 63 records queued. */
  predicate NeverOverflows<T>(s: FqRun<T>, es: seq<FqStep<T>>)
    requires s.ring.Valid()
    decreases |es|
  {
    es == [] ||
    ((es[0].Fault? ==> |s.ring.Items()| < 63) && NeverOverflows(FqNext(s, es[0]), es[1..]))
  }

  /** A run loses a fault exactly when some fault finds the queue full: otherwise every fault has been read,
      in order, or is still queued. */
  lemma {:induction false} NothingDropped<T>(s: FqRun<T>, es: seq<FqStep<T>>)
    requires s.ring.Valid() && !s.overflow
    requires s.faults == s.appended == s.read + s.ring.Items()
    ensures NeverOverflows(s, es) <==> FqAfter(s, es).faults == FqAfter(s, es).appended
    ensures NeverOverflows(s, es) ==> FqAfter(s, es).faults == FqAfter(s, es).read + FqAfter(s, es).ring.Items()
    decreases |es|
  {
    if es != [] {
      var t := FqNext(s, es[0]);
      FullIff(s.ring);
      FqStepKeeps(s, es[0]);
      if es[0].Fault? && |s.ring.Items()| >= N - 1 {
        OnceDroppedAlwaysShort(t, es[1..]);
      } else {
        NothingDropped(t, es[1..]);
      }
    }
  }

  lemma {:induction false} OnceDroppedAlwaysShort<T>(s: FqRun<T>, es: seq<FqStep<T>>)
    requires s.ring.Valid() && |s.appended| < |s.faults|
    ensures |FqAfter(s, es).appended| < |FqAfter(s, es).faults|
    decreases |es|
  {
    if es != [] {
      OnceDroppedAlwaysShort(FqNext(s, es[0]), es[1..]);
    }
  }

  /** A fault is recorded exactly if fqof is clear and fewer than 63 records are queued. */
  lemma RecordedIff<T>(s: FqRun<T>, x: T)
    requires s.ring.Valid()
    ensures var t := FqNext(s, Fault(x));
      if !s.overflow && |s.ring.Items()| < 63
      then t.appended == s.appended + [x] && t.ring.Items() == s.ring.Items() + [x] && !t.overflow
      else t.appended == s.appended && t.ring.Items() == s.ring.Items() && t.overflow
  {
    FullIff(s.ring);
    PushItems(s.ring, x);
  }

  /** As many reads as records are queued read all that was recorded. */
  lemma {:induction false} ReadsTakeAll<T>(s: FqRun<T>, es: seq<FqStep<T>>)
    requires s.ring.Valid() && s.appended == s.read + s.ring.Items()
    requires |es| == |s.ring.Items()| && forall i :: 0 <= i < |es| ==> es[i] == FqStep<T>.Read
    ensures var t := FqAfter(s, es); t.read == t.appended == s.appended && t.ring.Items() == []
    decreases |es|
  {
    if es != [] {
      EmptyIff(s.ring);
      PopItems(s.ring);
      FqStepKeeps(s, es[0]);
      ReadsTakeAll(FqNext(s, es[0]), es[1..]);
    }
  }

  // ---------------------------------------------------------------------------------------------
  // The queues in memory.

  const CQ_PPN_MASK: nat := 0xFF_FFFF_FFFF_F000

  /** `(base & CQ_PPN_MASK) | offset` is the sum for a page-aligned base and an offset inside the page. */
  lemma SlotAddress(base: nat, offset: nat)
    requires base % 0x1000 == 0 && base < 0x100_0000_0000_0000 && offset < 0x1000
    ensures Or(And(base, CQ_PPN_MASK), offset) == base + offset
  {
    assert Pow2(12) == 0x1000;
    assert Pow2(44) == 0x1000_0000_0000 by { Pow2Values(); }
    assert Pow2(56) == 0x100_0000_0000_0000;
    AndKeeps(base, 12, 56);
    OrAdd(base, offset, 12);
  }

  /** The slots that 64-bit words in memory make up; the queue's memory is larger than its slots. */
  function CommandSlots(words: seq<bv64>): (s: seq<Command>)
    requires |words| >= 2 * N
    ensures |s| == N
  {
    seq(N, i requires 0 <= i < N => Command(words[2 * i], words[2 * i + 1]))
  }

  /** Storing two dwords replaces one slot. */
  lemma WithCommandSlots(words: seq<bv64>, i: nat, x: Command)
    requires |words| >= 2 * N && i < N
    ensures CommandSlots(words[2 * i := x.dw0][2 * i + 1 := x.dw1]) == CommandSlots(words)[i := x]
  {
  }

  class CommandQueue {
    const base: nat
    const mem: array<bv64>
    var cqh: nat
    var cqt: nat

    ghost predicate Valid()
      reads this
    {
      && base % 0x1000 == 0 && base < 0x100_0000_0000_0000
      && mem.Length == N * 2 * 8
      && cqh < N && cqt < N
    }

    ghost function AsRing(): (r: Ring<Command>)
      requires Valid()
      reads this, mem
      ensures r.Valid()
    {
      Ring(CommandSlots(mem[..]), cqh, cqt)
    }

    ghost function Pending(): seq<Command>
      requires Valid()
      reads this, mem
    {
      AsRing().Items()
    }

    /** `write64` to an address inside the queue's memory. */
    method Write64(addr: nat, x: bv64)
      requires Valid() && base <= addr < base + 8 * mem.Length && (addr - base) % 8 == 0
      modifies mem
      ensures mem[..] == old(mem[..])[(addr - base) / 8 := x]
    {
      mem[(addr - base) / 8] := x;
    }

    /** `cqt` in the register file keeps LOG2SZ bits. */
    method WriteCqt(x: nat)
      modifies this`cqt
      ensures cqt == x % N
    {
      cqt := x % N;
    }

    function EntryAddress(i: nat): (a: nat)
      requires Valid() && i < N
      reads this
      ensures a == base + 16 * i
    {
      SlotAddress(base, i * 16);
      Or(And(base, CQ_PPN_MASK), i * 16)
    }

    method WriteCommand(cmd: Command)
      requires Valid()
      modifies this`cqt, mem
      ensures Valid() && AsRing() == old(AsRing()).Push(cmd)
      ensures Pending() == if |old(Pending())| < N - 1 then old(Pending()) + [cmd] else []
    {
      ghost var before := AsRing();
      var t := cqt;
      var entry := EntryAddress(t);
      WithCommandSlots(mem[..], t, cmd);
      Write64(entry, cmd.dw0);
      Write64(entry + 8, cmd.dw1);
      t := t + 1;
      WriteCqt(t);
      PushItems(before, cmd);
    }

    /** `rv_iommu_cq_init`: the tail starts where the head is. */
    method Init()
      requires Valid()
      modifies this`cqt
      ensures Valid() && Pending() == []
    {
      WriteCqt(cqh);
    }

    /** The IOMMU takes the command at the head. */
    method Fetch() returns (cmd: Command)
      requires Valid() && cqh != cqt
      modifies this`cqh
      ensures Valid() && AsRing() == old(AsRing()).Pop() && cmd == old(AsRing()).slots[old(cqh)]
      ensures old(Pending()) == [cmd] + Pending()
    {
      ghost var before := AsRing();
      cmd := Command(mem[2 * cqh], mem[2 * cqh + 1]);
      assert cmd == before.slots[before.head];
      HeadThenPop(before);
      cqh := (cqh + 1) % N;
      assert AsRing() == before.Pop();
    }

    /** Any sequence of writes by the driver and fetches by the IOMMU: the memory holds, and the IOMMU gets, what
        the run of the ring says. */
    method Steps(es: seq<CqStep<Command>>) returns (executed: seq<Command>)
      requires Valid()
      modifies this`cqh, this`cqt, mem
      ensures Valid()
      ensures var t := CqAfter(CqRun(old(AsRing()), [], []), es); AsRing() == t.ring && executed == t.executed
    {
      executed := [];
      ghost var s := CqRun(AsRing(), [], []);
      ghost var first := s;
      for i := 0 to |es|
        invariant Valid() && s.ring == AsRing() && s.executed == executed
        invariant CqAfter(first, es) == CqAfter(s, es[i..])
      {
        assert es[i..][0] == es[i] && es[i..][1..] == es[i + 1..];
        s := CqNext(s, es[i]);
        if es[i].Write? {
          WriteCommand(es[i].x);
        } else if cqh != cqt {
          var cmd := Fetch();
          executed := executed + [cmd];
        }
      }
    }
  }

  /** A fault record of four dwords. */
  datatype Record = Record(dw0: bv64, dw1: bv64, dw2: bv64, dw3: bv64)

  function RecordAt(words: seq<bv64>, i: nat): Record
    requires |words| >= 4 * N && i < N
  {
    Record(words[4 * i], words[4 * i + 1], words[4 * i + 2], words[4 * i + 3])
  }

  function RecordSlots(words: seq<bv64>): (s: seq<Record>)
    requires |words| >= 4 * N
    ensures |s| == N
  {
    seq(N, i requires 0 <= i < N => RecordAt(words, i))
  }

  function WithRecord(words: seq<bv64>, i: nat, x: Record): (r: seq<bv64>)
    requires |words| >= 4 * N && i < N
    ensures |r| == |words|
  {
    words[4 * i := x.dw0][4 * i + 1 := x.dw1][4 * i + 2 := x.dw2][4 * i + 3 := x.dw3]
  }

  /** Storing four dwords replaces one slot. */
  lemma WithRecordSlots(words: seq<bv64>, i: nat, x: Record)
    requires |words| >= 4 * N && i < N
    ensures RecordSlots(WithRecord(words, i, x)) == RecordSlots(words)[i := x]
  {
  }

  class FaultQueue {
    const base: nat
    const mem: array<bv64>
    var fqh: nat
    var fqt: nat
    var fqof: bool

    ghost predicate Valid()
      reads this
    {
      && base % 0x1000 == 0 && base < 0x100_0000_0000_0000
      && mem.Length == N * 4 * 8
      && fqh < N && fqt < N
    }

    ghost function AsRing(): (r: Ring<Record>)
      requires Valid()
      reads this, mem
      ensures r.Valid()
    {
      Ring(RecordSlots(mem[..]), fqh, fqt)
    }

    ghost function Queued(): seq<Record>
      requires Valid()
      reads this, mem
    {
      AsRing().Items()
    }

    /** `read64` from an address inside the queue's memory. */
    method Read64(addr: nat) returns (x: bv64)
      requires Valid() && base <= addr < base + 8 * mem.Length && (addr - base) % 8 == 0
      ensures x == mem[(addr - base) / 8]
    {
      x := mem[(addr - base) / 8];
    }

    /** `fqh` in the register file keeps LOG2SZ bits. */
    method WriteFqh(x: nat)
      modifies this`fqh
      ensures fqh == x % N
    {
      fqh := x % N;
    }

    /** `rv_iommu_fq_init`: the head starts where the tail is. */
    method Init()
      requires Valid()
      modifies this`fqh
      ensures Valid() && Queued() == []
    {
      WriteFqh(fqt);
    }

    /** The driver takes the oldest record, or learns that there is none. */
    method ReadRecord(buf: array<bv64>) returns (status: int)
      requires Valid() && buf.Length == 4 && buf != mem
      modifies this`fqh, buf
      ensures Valid()
      ensures status == if old(Queued()) == [] then -1 else 0
      ensures status == 0 ==> old(Queued()) == [Record(buf[0], buf[1], buf[2], buf[3])] + Queued()
      ensures status == -1 ==> Queued() == [] && buf[..] == old(buf[..])
      ensures AsRing() == if status == -1 then old(AsRing()) else old(AsRing()).Pop()
      ensures status == 0 ==> old(fqh) != fqt && Record(buf[0], buf[1], buf[2], buf[3]) == old(AsRing()).slots[old(fqh)]
      ensures status == -1 ==> old(fqh) == fqt
    {
      ghost var before := AsRing();
      EmptyIff(before);
      var h, t := fqh, fqt;
      if h != t {
        LoadRecord(h, buf);
        h := h + 1;
        WriteFqh(h);
        HeadThenPop(before);
        return 0;
      }
      return -1;
    }

    function EntryAddress(i: nat): (a: nat)
      requires Valid() && i < N
      reads this
      ensures a == base + 32 * i
    {
      SlotAddress(base, i * 32);
      Or(And(base, CQ_PPN_MASK), i * 32)
    }

    method StoreRecord(i: nat, x: Record)
      requires Valid() && i < N
      modifies mem
      ensures mem[..] == WithRecord(old(mem[..]), i, x)
    {
      mem[4 * i], mem[4 * i + 1], mem[4 * i + 2], mem[4 * i + 3] := x.dw0, x.dw1, x.dw2, x.dw3;
    }

    method LoadRecord(i: nat, buf: array<bv64>)
      requires Valid() && i < N && buf.Length == 4 && buf != mem
      modifies buf
      ensures Record(buf[0], buf[1], buf[2], buf[3]) == RecordAt(mem[..], i)
    {
      var entry := EntryAddress(i);
      buf[0] := Read64(entry);
      buf[1] := Read64(entry + 8);
      buf[2] := Read64(entry + 16);
      buf[3] := Read64(entry + 24);
    }

    /** The IOMMU reports a fault (section 3.2). */
    method Report(x: Record)
      requires Valid()
      modifies this`fqt, this`fqof, mem
      ensures Valid()
      ensures if old(fqof) || |old(Queued())| == N - 1 then Queued() == old(Queued()) && fqof
              else Queued() == old(Queued()) + [x] && !fqof
      ensures AsRing() == if old(fqof) || |old(Queued())| == N - 1 then old(AsRing()) else old(AsRing()).Push(x)
    {
      ghost var before := AsRing();
      FullIff(before);
      if !fqof {
        if (fqt + 1) % N == fqh {
          fqof := true;
        } else {
          WithRecordSlots(mem[..], fqt, x);
          StoreRecord(fqt, x);
          fqt := (fqt + 1) % N;
          PushItems(before, x);
        }
      }
    }

    /** The driver writes one to fqof. */
    method ClearFqof()
      modifies this`fqof
      ensures !fqof
    {
      fqof := false;
    }

    /** One step, and what the driver reads in it. */
    method Step(e: FqStep<Record>, buf: array<bv64>) returns (read: seq<Record>)
      requires Valid() && buf.Length == 4 && buf != mem
      modifies this`fqh, this`fqt, this`fqof, mem, buf
      ensures Valid()
      ensures var t := FqNext(FqRun(old(AsRing()), old(fqof), [], [], [], []), e);
        AsRing() == t.ring && fqof == t.overflow && read == t.read
    {
      read := [];
      match e {
        case Fault(x) =>
          FullIff(AsRing());
          Report(x);
        case Read =>
          var status := ReadRecord(buf);
          if status == 0 {
            read := [Record(buf[0], buf[1], buf[2], buf[3])];
          }
        case ClearOverflow =>
          ClearFqof();
      }
    }

    /** Any sequence of faults, reads by the driver and clearings of fqof: the memory holds, and the driver gets,
        what the run of the ring says. */
    method Steps(es: seq<FqStep<Record>>, buf: array<bv64>) returns (read: seq<Record>)
      requires Valid() && buf.Length == 4 && buf != mem
      modifies this`fqh, this`fqt, this`fqof, mem, buf
      ensures Valid()
      ensures var t := FqAfter(FqRun(old(AsRing()), old(fqof), [], [], [], []), es);
        AsRing() == t.ring && fqof == t.overflow && read == t.read
    {
      read := [];
      ghost var s := FqRun(AsRing(), fqof, [], [], [], []);
      ghost var first := s;
      for i := 0 to |es|
        invariant Valid() && s.ring == AsRing() && s.overflow == fqof && s.read == read
        invariant FqAfter(first, es) == FqAfter(s, es[i..])
      {
        assert es[i..][0] == es[i] && es[i..][1..] == es[i + 1..];
        StepApart(s, es[i]);
        s := FqNext(s, es[i]);
        var more := Step(es[i], buf);
        read := read + more;
      }
    }
  }

  /** A step of the ring does not depend on what has been recorded and read before. */
  lemma StepApart<T>(s: FqRun<T>, e: FqStep<T>)
    requires s.ring.Valid()
    ensures var t, u := FqNext(s, e), FqNext(FqRun(s.ring, s.overflow, [], [], [], []), e);
      t.ring == u.ring && t.overflow == u.overflow && t.read == s.read + u.read
  {
  }
}
