/** The debug translation-request registers (src/rv_iommu.c:504-620; chapter 5 of the RISC-V IOMMU specification 1.0). */
module DebugInterface {
  import opened Bits

  // Bit numbers of the control register.
  const GO: nat := 0
  const PRIV: nat := 1
  const EXE: nat := 2
  const NW: nat := 3
  const PV: nat := 32
  const TR_REQ_CTL_DID_OFFSET: nat := 40
  const TR_REQ_CTL_DID_MASK: nat := 0xFFFF_FF00_0000_0000

  datatype Setter = Did(id: nat) | Pv(on: bool) | Priv(on: bool) | Rw(on: bool) | Exe(on: bool) | Go

  function WithBit(ctl: nat, k: nat, on: bool): nat {
    if on then Or(ctl, Pow2(k)) else AndNot(ctl, Pow2(k))
  }

  /** `ctl | ((x << k) & mask)` */
  function WithField(ctl: nat, x: nat, k: nat, mask: nat): nat {
    Or(ctl, And(Shl(x, k), mask))
  }

  function WithDid(ctl: nat, id: nat): nat {
    WithField(ctl, id, TR_REQ_CTL_DID_OFFSET, TR_REQ_CTL_DID_MASK)
  }

  /** The register after a setter, as the driver computes it. */
  function Written(ctl: nat, s: Setter): nat {
    match s
    case Did(id) => WithDid(ctl, id)
    case Pv(on) => WithBit(ctl, PV, on)
    case Priv(on) => WithBit(ctl, PRIV, on)
    case Rw(on) => WithBit(ctl, NW, !on)
    case Exe(on) => WithBit(ctl, EXE, on)
    case Go => WithBit(ctl, GO, true)
  }

  // ---------------------------------------------------------------------------------------------
  // Bits of the words.

  /** `x >> k` */
  function Shr(x: nat, k: nat): nat
    decreases k
  {
    if k == 0 then x else Shr(x / 2, k - 1)
  }

  /** A flag's setter sets or clears that bit and touches no other, wherever the flag is. */
  lemma FlagWritten(ctl: nat, k: nat, on: bool, i: nat)
    ensures Bit(WithBit(ctl, k, on), i) <==> if i == k then on else Bit(ctl, i)
  {
    Pow2Bit(k, i);
    if on {
      OrBit(ctl, Pow2(k), i);
    } else {
      AndNotBit(ctl, Pow2(k), i);
    }
  }

  /** `after` is `before` with bit `k` set to `on`. */
  ghost predicate OnlyBit(before: nat, after: nat, k: nat, on: bool) {
    forall i: nat :: Bit(after, i) <==> if i == k then on else Bit(before, i)
  }

  lemma FlagWrittenAlone(ctl: nat, k: nat, on: bool)
    ensures OnlyBit(ctl, WithBit(ctl, k, on), k, on)
  {
    forall i: nat
      ensures Bit(WithBit(ctl, k, on), i) <==> if i == k then on else Bit(ctl, i)
    {
      FlagWritten(ctl, k, on, i);
    }
  }

  lemma {:induction false} OrShr(x: nat, y: nat, k: nat)
    ensures Shr(Or(x, y), k) == Or(Shr(x, k), Shr(y, k))
    decreases k
  {
    if k > 0 {
      OrHalf(x, y);
      OrShr(x / 2, y / 2, k - 1);
    }
  }

  lemma {:induction false} AndShr(x: nat, y: nat, k: nat)
    ensures Shr(And(x, y), k) == And(Shr(x, k), Shr(y, k))
    decreases k
  {
    if k > 0 {
      AndHalf(x, y);
      AndShr(x / 2, y / 2, k - 1);
    }
  }

  lemma {:induction false} ShrShl(x: nat, k: nat)
    ensures Shr(Shl(x, k), k) == x
    decreases k
  {
    if k > 0 {
      ShrShl(x, k - 1);
    }
  }

  lemma {:induction false} ShrBit(x: nat, k: nat, i: nat)
    ensures Bit(Shr(x, k), i) <==> Bit(x, i + k)
    decreases k
  {
    if k > 0 {
      ShrBit(x / 2, k - 1, i);
    }
  }

  lemma {:induction false} ShrMultiple(x: nat, k: nat, p: nat)
    requires p == Pow2(k)
    ensures Shr(x * p, k) == x
    decreases k
  {
    if k > 0 {
      assert x * p == 2 * (x * Pow2(k - 1));
      ShrMultiple(x, k - 1, Pow2(k - 1));
    }
  }

  /** Numbers with the same bits are equal. */
  lemma {:induction false} SameBits(x: nat, y: nat)
    requires forall i: nat :: Bit(x, i) <==> Bit(y, i)
    ensures x == y
    decreases x + y
  {
    if x > 0 || y > 0 {
      assert Bit(x, 0) <==> Bit(y, 0);
      forall i: nat
        ensures Bit(x / 2, i) <==> Bit(y / 2, i)
      {
        assert Bit(x, i + 1) <==> Bit(y, i + 1);
      }
      SameBits(x / 2, y / 2);
    }
  }

  // ---------------------------------------------------------------------------------------------
  // Whole sequences of setters.

  /** The device-id field of the control register. */
  function DidOf(ctl: nat): nat {
    Shr(ctl, TR_REQ_CTL_DID_OFFSET)
  }

  /** The device id of a request has 24 bits. */
  function Id24(id: nat): nat {
    id % 0x100_0000
  }

  lemma DidMask()
    ensures Shr(TR_REQ_CTL_DID_MASK, TR_REQ_CTL_DID_OFFSET) == 0xFF_FFFF
  {
    assert Pow2(10) == 0x400;
    assert Pow2(20) == 0x10_0000;
    assert Pow2(30) == 0x4000_0000;
    assert Pow2(40) == 0x100_0000_0000;
    ShrMultiple(0xFF_FFFF, 40, 0x100_0000_0000);
  }

  lemma And24(id: nat)
    ensures And(id, 0xFF_FFFF) == Id24(id)
  {
    assert Pow2(10) == 1024;
    assert Pow2(24) == 0x100_0000 && Pow2(0) == 1;
    AndField(id, 0, 24);
  }

  /** A field's setter ors the value, cut to the width of the mask, into the field. */
  lemma FieldWritten(ctl: nat, x: nat, k: nat, mask: nat)
    ensures Shr(WithField(ctl, x, k, mask), k) == Or(Shr(ctl, k), And(x, Shr(mask, k)))
  {
    AndShr(Shl(x, k), mask, k);
    ShrShl(x, k);
    OrShr(ctl, And(Shl(x, k), mask), k);
  }

  lemma DidWritten(ctl: nat, id: nat)
    ensures DidOf(WithDid(ctl, id)) == Or(DidOf(ctl), Id24(id))
  {
    FieldWritten(ctl, id, TR_REQ_CTL_DID_OFFSET, TR_REQ_CTL_DID_MASK);
    DidMask();
    And24(id);
  }

  lemma {:induction false} ShlLow(x: nat, k: nat, i: nat)
    requires i < k
    ensures !Bit(Shl(x, k), i)
    decreases k
  {
    if i > 0 {
      ShlLow(x, k - 1, i - 1);
    }
  }

  lemma FieldLeavesLow(ctl: nat, x: nat, k: nat, mask: nat, i: nat)
    requires i < k
    ensures Bit(WithField(ctl, x, k, mask), i) <==> Bit(ctl, i)
  {
    ShlLow(x, k, i);
    AndBit(Shl(x, k), mask, i);
    OrBit(ctl, And(Shl(x, k), mask), i);
  }

  lemma FlagLeavesDid(ctl: nat, b: nat, on: bool, k: nat)
    requires b < k
    ensures Shr(WithBit(ctl, b, on), k) == Shr(ctl, k)
  {
    forall i: nat
      ensures Bit(Shr(WithBit(ctl, b, on), k), i) <==> Bit(Shr(ctl, k), i)
    {
      ShrBit(WithBit(ctl, b, on), k, i);
      ShrBit(ctl, k, i);
      FlagWritten(ctl, b, on, i + k);
    }
    SameBits(Shr(WithBit(ctl, b, on), k), Shr(ctl, k));
  }

  function WrittenAll(ctl: nat, ss: seq<Setter>): nat
    decreases |ss|
  {
    if ss == [] then ctl else WrittenAll(Written(ctl, ss[0]), ss[1..])
  }

  /** The flag that a setter is for, if any, and the value it is to have. */
  function Flag(s: Setter): nat {
    match s
    case Did(_) => TR_REQ_CTL_DID_OFFSET
    case Pv(_) => PV
    case Priv(_) => PRIV
    case Rw(_) => NW
    case Exe(_) => EXE
    case Go => GO
  }

  function Value(s: Setter): bool {
    match s
    case Did(_) => false
    case Pv(on) => on
    case Priv(on) => on
    case Rw(on) => !on
    case Exe(on) => on
    case Go => true
  }

  /** The value last given to flag `i`, or `on` if none was. */
  function LastGiven(i: nat, on: bool, ss: seq<Setter>): bool
    decreases |ss|
  {
    if ss == [] then on
    else if Flag(ss[|ss| - 1]) == i then Value(ss[|ss| - 1])
    else LastGiven(i, on, ss[..|ss| - 1])
  }

  /** The ids given, in order. */
  function Ids(ss: seq<Setter>): seq<nat> {
    if ss == [] then [] else (if ss[0].Did? then [Id24(ss[0].id)] else []) + Ids(ss[1..])
  }

  function OrAll(ids: seq<nat>): nat {
    if ids == [] then 0 else Or(ids[0], OrAll(ids[1..]))
  }

  lemma StepBits(ctl: nat, s: Setter, i: nat)
    requires i < TR_REQ_CTL_DID_OFFSET
    ensures Bit(Written(ctl, s), i) <==> if Flag(s) == i then Value(s) else Bit(ctl, i)
  {
    if s.Did? {
      FieldLeavesLow(ctl, s.id, TR_REQ_CTL_DID_OFFSET, TR_REQ_CTL_DID_MASK, i);
    } else {
      FlagWritten(ctl, Flag(s), Value(s), i);
    }
  }

  lemma {:induction false} LastGivenFirst(i: nat, on: bool, ss: seq<Setter>)
    requires ss != []
    ensures LastGiven(i, on, ss) == LastGiven(i, if Flag(ss[0]) == i then Value(ss[0]) else on, ss[1..])
    decreases |ss|
  {
    var n := |ss| - 1;
    if n > 0 {
      assert ss[1..][|ss[1..]| - 1] == ss[n];
      assert ss[..n][1..] == ss[1..][..n - 1];
      LastGivenFirst(i, on, ss[..n]);
    }
  }

  /** Over any sequence of setters, each bit below the device id holds the value last given to it, or its old one:
      PV, PRIV, EXE and NW the last one asked for, GO once set stays, and no setter disturbs another field. */
  lemma {:induction false} FlagsRun(ctl: nat, ss: seq<Setter>, i: nat)
    requires i < TR_REQ_CTL_DID_OFFSET
    ensures Bit(WrittenAll(ctl, ss), i) <==> LastGiven(i, Bit(ctl, i), ss)
    decreases |ss|
  {
    if ss != [] {
      StepBits(ctl, ss[0], i);
      FlagsRun(Written(ctl, ss[0]), ss[1..], i);
      LastGivenFirst(i, Bit(ctl, i), ss);
    }
  }

  // The same by setter and bit number.

  /** The argument of the last setter of each kind, or `on` where there is none. */
  function LastPv(on: bool, ss: seq<Setter>): bool {
    if ss == [] then on
    else if ss[|ss| - 1].Pv? then ss[|ss| - 1].on
    else LastPv(on, ss[..|ss| - 1])
  }

  function LastPriv(on: bool, ss: seq<Setter>): bool {
    if ss == [] then on
    else if ss[|ss| - 1].Priv? then ss[|ss| - 1].on
    else LastPriv(on, ss[..|ss| - 1])
  }

  function LastExe(on: bool, ss: seq<Setter>): bool {
    if ss == [] then on
    else if ss[|ss| - 1].Exe? then ss[|ss| - 1].on
    else LastExe(on, ss[..|ss| - 1])
  }

  function LastRw(on: bool, ss: seq<Setter>): bool {
    if ss == [] then on
    else if ss[|ss| - 1].Rw? then ss[|ss| - 1].on
    else LastRw(on, ss[..|ss| - 1])
  }

  lemma {:induction false} LastGivenIs(ss: seq<Setter>, i: nat, on: bool)
    ensures LastGiven(32, on, ss) == LastPv(on, ss)
    ensures LastGiven(1, on, ss) == LastPriv(on, ss)
    ensures LastGiven(2, on, ss) == LastExe(on, ss)
    ensures LastGiven(3, on, ss) == !LastRw(!on, ss)
    ensures LastGiven(0, on, ss) == (on || exists k :: 0 <= k < |ss| && ss[k].Go?)
    ensures i > 3 && i != 32 && i < 40 ==> LastGiven(i, on, ss) == on
    decreases |ss|
  {
    if ss != [] {
      var n := |ss| - 1;
      LastGivenIs(ss[..n], i, on);
      if k :| 0 <= k < |ss| && ss[k].Go? {
        assert k < n ==> ss[..n][k].Go?;
      }
      assert forall k | 0 <= k < n :: ss[..n][k] == ss[k];
    }
  }

  /** Over any sequence of setters: bit 32 is the argument of the last PV setter, bit 1 of the last PRIV setter,
      bit 2 of the last EXE setter, bit 3 the negation of the last read-write setter's, or what they were before;
      bit 0 is set if GO was given or set before; every other bit below 40 is as before. */
  lemma SettersByBit(ctl: nat, ss: seq<Setter>, i: nat)
    requires i < 40
    ensures var r := WrittenAll(ctl, ss);
      && (Bit(r, 32) <==> LastPv(Bit(ctl, 32), ss))
      && (Bit(r, 1) <==> LastPriv(Bit(ctl, 1), ss))
      && (Bit(r, 2) <==> LastExe(Bit(ctl, 2), ss))
      && (Bit(r, 3) <==> !LastRw(!Bit(ctl, 3), ss))
      && (Bit(r, 0) <==> Bit(ctl, 0) || exists k :: 0 <= k < |ss| && ss[k].Go?)
      && (i > 3 && i != 32 ==> (Bit(r, i) <==> Bit(ctl, i)))
  {
    FlagsRun(ctl, ss, 32);
    LastGivenIs(ss, i, Bit(ctl, 32));
    FlagsRun(ctl, ss, 1);
    LastGivenIs(ss, i, Bit(ctl, 1));
    FlagsRun(ctl, ss, 2);
    LastGivenIs(ss, i, Bit(ctl, 2));
    FlagsRun(ctl, ss, 3);
    LastGivenIs(ss, i, Bit(ctl, 3));
    FlagsRun(ctl, ss, 0);
    LastGivenIs(ss, i, Bit(ctl, 0));
    FlagsRun(ctl, ss, i);
    LastGivenIs(ss, i, Bit(ctl, i));
  }

  lemma {:induction false} OrAssociates(a: nat, b: nat, c: nat)
    ensures Or(Or(a, b), c) == Or(a, Or(b, c))
  {
    forall i: nat
      ensures Bit(Or(Or(a, b), c), i) <==> Bit(Or(a, Or(b, c)), i)
    {
      OrBit(Or(a, b), c, i);
      OrBit(a, b, i);
      OrBit(a, Or(b, c), i);
      OrBit(b, c, i);
    }
    SameBits(Or(Or(a, b), c), Or(a, Or(b, c)));
  }

  lemma StepDid(ctl: nat, s: Setter)
    ensures DidOf(Written(ctl, s)) == if s.Did? then Or(DidOf(ctl), Id24(s.id)) else DidOf(ctl)
  {
    if s.Did? {
      DidWritten(ctl, s.id);
    } else {
      FlagLeavesDid(ctl, Flag(s), Value(s), TR_REQ_CTL_DID_OFFSET);
    }
  }

  /** The device-id field collects the or of all ids ever given: nothing clears it. */
  lemma {:induction false} DidRun(ctl: nat, ss: seq<Setter>)
    ensures DidOf(WrittenAll(ctl, ss)) == Or(DidOf(ctl), OrAll(Ids(ss)))
    decreases |ss|
  {
    if ss != [] {
      StepDid(ctl, ss[0]);
      DidRun(Written(ctl, ss[0]), ss[1..]);
      if ss[0].Did? {
        OrAssociates(DidOf(ctl), Id24(ss[0].id), OrAll(Ids(ss[1..])));
        assert Ids(ss) == [Id24(ss[0].id)] + Ids(ss[1..]);
      } else {
        assert Ids(ss) == Ids(ss[1..]);
      }
    } else {
      assert Or(DidOf(ctl), 0) == DidOf(ctl);
    }
  }

  lemma {:induction false} OrAllBit(ids: seq<nat>, i: nat)
    ensures Bit(OrAll(ids), i) <==> exists k :: 0 <= k < |ids| && Bit(ids[k], i)
  {
    if ids == [] {
      ZeroBit(i);
    } else {
      OrBit(ids[0], OrAll(ids[1..]), i);
      OrAllBit(ids[1..], i);
      if k :| 0 <= k < |ids| && Bit(ids[k], i) {
        assert k > 0 ==> ids[1..][k - 1] == ids[k];
      }
      if k :| 0 <= k < |ids[1..]| && Bit(ids[1..][k], i) {
        assert ids[k + 1] == ids[1..][k];
      }
    }
  }

  predicate Covers(x: nat, y: nat) {
    Or(x, y) == x
  }

  ghost predicate Within(y: nat, x: nat) {
    forall i: nat :: Bit(y, i) ==> Bit(x, i)
  }

  lemma CoversBits(x: nat, y: nat)
    ensures Covers(x, y) <==> Within(y, x)
  {
    forall i: nat
      ensures Bit(Or(x, y), i) <==> Bit(x, i) || Bit(y, i)
    {
      OrBit(x, y, i);
    }
    if Covers(x, y) {
      forall i: nat | Bit(y, i)
        ensures Bit(x, i)
      {
        OrBit(x, y, i);
      }
    } else if Within(y, x) {
      SameBits(Or(x, y), x);
    }
  }

  /** From a cleared register the field is the id given last exactly when every id given before is covered by it,
      bit by bit: in particular when only one is ever used. */
  lemma LastIdIff(ss: seq<Setter>)
    requires Ids(ss) != []
    ensures var ids := Ids(ss);
      DidOf(WrittenAll(0, ss)) == ids[|ids| - 1] <==> forall k :: 0 <= k < |ids| ==> Covers(ids[|ids| - 1], ids[k])
  {
    var ids := Ids(ss);
    var last, all := ids[|ids| - 1], OrAll(Ids(ss));
    assert DidOf(WrittenAll(0, ss)) == all by {
      DidRun(0, ss);
      ZeroShr(TR_REQ_CTL_DID_OFFSET);
    }
    forall i: nat
      ensures Bit(all, i) <==> exists k :: 0 <= k < |ids| && Bit(ids[k], i)
    {
      OrAllBit(ids, i);
    }
    forall k | 0 <= k < |ids|
      ensures Covers(last, ids[k]) <==> Within(ids[k], last)
    {
      CoversBits(last, ids[k]);
    }
    if forall k :: 0 <= k < |ids| ==> Covers(last, ids[k]) {
      forall i: nat
        ensures Bit(all, i) <==> Bit(last, i)
      {
        if k :| 0 <= k < |ids| && Bit(ids[k], i) {
          assert Within(ids[k], last);
        }
      }
      SameBits(all, last);
    }
  }

  lemma {:induction false} ZeroShr(k: nat)
    ensures Shr(0, k) == 0
    decreases k
  {
    if k > 0 {
      ZeroShr(k - 1);
    }
  }

  // ---------------------------------------------------------------------------------------------
  // The response.

  const PPN_MASK: nat := 0x3F_FFFF_FFFF_FC00

  /** How many ones `x` ends in. */
  function TrailingOnes(x: nat): nat {
    if x % 2 == 0 then 0 else 1 + TrailingOnes(x / 2)
  }

  /** The encoding of a superpage: ones below bit `x`, a zero at bit `x`. The number of trailing ones is `x`, and
      clearing them gives back the base, exactly when the base is aligned to twice the size they stand for. */
  lemma {:induction false} SuperpageEncoding(base: nat, x: nat)
    requires base % Pow2(x) == 0
    ensures TrailingOnes(Or(base, Pow2(x) - 1)) == x <==> base % Pow2(x + 1) == 0
    ensures AndNot(Or(base, Pow2(x) - 1), Pow2(x) - 1) == base
    decreases x
  {
    if x == 0 {
      NoOnes(base);
    } else {
      EncodingStep(base, x);
      SuperpageEncoding(base / 2, x - 1);
    }
  }

  lemma NoOnes(base: nat)
    ensures Or(base, Pow2(0) - 1) == base && AndNot(base, Pow2(0) - 1) == base
    ensures base % Pow2(1) == base % 2
  {
    AndNotZero(base);
  }

  lemma EncodingStep(base: nat, x: nat)
    requires x > 0 && base % Pow2(x) == 0
    ensures base % 2 == 0 && (base / 2) % Pow2(x - 1) == 0
    ensures base % Pow2(x + 1) == 0 <==> (base / 2) % Pow2(x) == 0
    ensures Or(base, Pow2(x) - 1) == 2 * Or(base / 2, Pow2(x - 1) - 1) + 1
    ensures AndNot(Or(base, Pow2(x) - 1), Pow2(x) - 1)
         == 2 * AndNot(Or(base / 2, Pow2(x - 1) - 1), Pow2(x - 1) - 1)
  {
    HalfDivMod(base, Pow2(x - 1));
    HalfDivMod(base, Pow2(x));
    OrOdd(base, Pow2(x - 1) - 1);
  }

  lemma OrOdd(base: nat, m: nat)
    requires base % 2 == 0
    ensures Or(base, 2 * m + 1) == 2 * Or(base / 2, m) + 1
    ensures AndNot(Or(base, 2 * m + 1), 2 * m + 1) == 2 * AndNot(Or(base / 2, m), m)
  {
    OrHalf(base, 2 * m + 1);
  }

  lemma {:induction false} TrailingOnesBound(x: nat, k: nat)
    requires x < Pow2(k)
    ensures TrailingOnes(x) <= k
    decreases k
  {
    if x % 2 == 1 {
      TrailingOnesBound(x / 2, k - 1);
    }
  }

  class DebugRegisters {
    var iova: nat
    var ctl: nat
    var response: nat

    /** The low 12 bits are cleared. */
    method SetTrReqIova(x: nat)
      modifies this`iova
      ensures iova == x / 0x1000 * 0x1000
    {
      ClearLow(x);
      iova := AndNot(x, 0xFFF);
    }

    /** Ors the id into its field: what was there stays, and every flag below keeps its value. */
    method SetDid(id: nat)
      modifies this`ctl
      ensures ctl == Written(old(ctl), Did(id))
      ensures DidOf(ctl) == Or(DidOf(old(ctl)), id % 0x100_0000)
      ensures forall i: nat | i < 40 :: Bit(ctl, i) <==> Bit(old(ctl), i)
    {
      var tmp := ctl;
      StepDid(tmp, Did(id));
      forall i: nat | i < 40
        ensures Bit(Written(tmp, Did(id)), i) <==> Bit(tmp, i)
      {
        StepBits(tmp, Did(id), i);
      }
      tmp := Or(tmp, And(Shl(id, TR_REQ_CTL_DID_OFFSET), TR_REQ_CTL_DID_MASK));
      ctl := tmp;
    }

    method SetPv(pv: bool)
      modifies this`ctl
      ensures ctl == Written(old(ctl), Pv(pv))
      ensures OnlyBit(old(ctl), ctl, 32, pv)
    {
      var tmp := ctl;
      FlagWrittenAlone(tmp, PV, pv);
      if pv {
        tmp := Or(tmp, Pow2(PV));
      } else {
        tmp := AndNot(tmp, Pow2(PV));
      }
      ctl := tmp;
    }

    method SetPriv(priv: bool)
      modifies this`ctl
      ensures ctl == Written(old(ctl), Priv(priv))
      ensures OnlyBit(old(ctl), ctl, 1, priv)
    {
      var tmp := ctl;
      FlagWrittenAlone(tmp, PRIV, priv);
      if priv {
        tmp := Or(tmp, Pow2(PRIV));
      } else {
        tmp := AndNot(tmp, Pow2(PRIV));
      }
      ctl := tmp;
    }

    /** NW is set for anything but a read-write request. */
    method SetRw(rw: bool)
      modifies this`ctl
      ensures ctl == Written(old(ctl), Rw(rw))
      ensures OnlyBit(old(ctl), ctl, 3, !rw)
    {
      var tmp := ctl;
      FlagWrittenAlone(tmp, NW, !rw);
      if rw {
        tmp := AndNot(tmp, Pow2(NW));
      } else {
        tmp := Or(tmp, Pow2(NW));
      }
      ctl := tmp;
    }

    method SetExe(exe: bool)
      modifies this`ctl
      ensures ctl == Written(old(ctl), Exe(exe))
      ensures OnlyBit(old(ctl), ctl, 2, exe)
    {
      var tmp := ctl;
      FlagWrittenAlone(tmp, EXE, exe);
      if exe {
        tmp := Or(tmp, Pow2(EXE));
      } else {
        tmp := AndNot(tmp, Pow2(EXE));
      }
      ctl := tmp;
    }

    method SetGo()
      modifies this`ctl
      ensures ctl == Written(old(ctl), Go)
      ensures OnlyBit(old(ctl), ctl, 0, true)
    {
      var tmp := ctl;
      FlagWrittenAlone(tmp, GO, true);
      tmp := Or(tmp, Pow2(GO));
      ctl := tmp;
    }

    /** The comparison binds tighter than the mask: the test is `ctl & (GO_BIT != 0)`, and gives the right answer only
        because GO_BIT is 1. */
    method IsComplete() returns (done: bool)
      ensures done == !Bit(ctl, 0)
    {
      var mask := if Pow2(GO) != 0 then 1 else 0;
      AndHalf(ctl, mask);
      done := if And(ctl, mask) != 0 then false else true;
    }

    function Ppn(): (p: nat)
      reads this
    {
      response / 0x400 % 0x1000_0000_0000
    }

    method TranslatedPpn() returns (ppn: nat)
      ensures ppn == Ppn()
    {
      PpnField(response);
      ppn := And(response, PPN_MASK) / 0x400;
    }

    method PpnEncodeX() returns (x: nat)
      ensures x == TrailingOnes(Ppn()) && x <= 44
    {
      PpnField(response);
      var ppn: nat := And(response, PPN_MASK) / 0x400;
      assert Ppn() < Pow2(44) by { Pow2Values(); }
      TrailingOnesBound(Ppn(), 44);
      x := 0;
      var bit := ppn % 2;
      while bit != 0
        invariant bit == ppn % 2
        invariant x + TrailingOnes(ppn) == TrailingOnes(Ppn())
        decreases ppn
      {
        ppn := ppn / 2;
        x := x + 1;
        bit := ppn % 2;
      }
    }
  }

  lemma ClearLow(x: nat)
    ensures AndNot(x, 0xFFF) == x / 0x1000 * 0x1000
  {
    assert Pow2(12) == 0x1000 && Pow2(0) == 1;
    AndField(x, 0, 12);
    AndPlusAndNot(x, 0xFFF);
  }

  lemma PpnField(response: nat)
    ensures And(response, PPN_MASK) / 0x400 == response / 0x400 % 0x1000_0000_0000
  {
    Pow2Values();
    AndField(response, 10, 54);
    var q, r := response / 0x40_0000_0000_0000, response % 0x40_0000_0000_0000;
    FieldBelow(response, q, r);
  }

  lemma FieldBelow(x: nat, q: nat, r: nat)
    requires x == 0x40_0000_0000_0000 * q + r && r < 0x40_0000_0000_0000
    ensures r % 0x400 == x % 0x400 && (r - x % 0x400) / 0x400 == x / 0x400 % 0x1000_0000_0000
  {
    var h, l := r / 0x400, r % 0x400;
    DivUnique(x, 0x400, 0x1000_0000_0000 * q + h, l);
    DivUnique(0x1000_0000_0000 * q + h, 0x1000_0000_0000, q, h);
  }
}
