/** The device directory (src/rv_iommu.c:112-199): 64 contexts updated in place by the init loop and the setters,
    and what the IOMMU reads in them (section 2.1.3 of the RISC-V IOMMU specification 1.0). */
module DeviceContext {
  import opened Bits
  import Msi

  /** The eight dwords of an entry. */
  datatype Dc = Dc(tc: nat, iohgatp: nat, ta: nat, fsc: nat, msiptp: nat, mask: nat, pattern: nat, reserved: nat)

  const DDT_N_ENTRIES: nat := 64
  const DID_MIN: nat := 1
  const DID_MAX: nat := 15
  const DC_TC_VALID: nat := 1

  const BIT12: nat := 0x1000
  const BIT44: nat := 0x1000_0000_0000
  const BIT60: nat := 0x1000_0000_0000_0000
  const MODE_BARE: nat := 0
  const MODE_SV39: nat := 8 * BIT60
  const MODE_SV39X4: nat := 8 * BIT60
  const MODE_OFF: nat := 0
  const MODE_FLAT: nat := BIT60

  /** The tables' addresses and the identifiers of each device. */
  datatype Setup = Setup(s1pt: nat, s2root: nat, msiPt: nat, gscids: seq<nat>, pscids: seq<nat>) {
    predicate Valid() {
      && s1pt % BIT12 == 0 && s2root % BIT12 == 0 && msiPt % BIT12 == 0
      && s1pt / BIT12 < BIT44 && s2root / BIT12 < BIT44 && msiPt / BIT12 < BIT44
      && |gscids| == DID_MAX + 1 && |pscids| == DID_MAX + 1
      && forall i | 0 <= i <= DID_MAX :: gscids[i] < 0x1_0000 && pscids[i] < 0x10_0000
    }
  }

  // ---------------------------------------------------------------------------------------------
  // The words.

  function PointerWord(table: nat, mode: nat): nat {
    Or(table / BIT12, mode)
  }

  function IohgatpWord(root: nat, mode: nat, gscid: nat): nat {
    Or(PointerWord(root, mode), gscid * BIT44)
  }

  lemma DcPow2()
    ensures Pow2(44) == BIT44 && Pow2(60) == BIT60
  {
    Pow2Values();
    assert Pow2(60) == 0x1_0000 * Pow2(44);
  }

  lemma PointerWordIs(table: nat, m: nat)
    requires table / BIT12 < BIT44
    ensures PointerWord(table, m * BIT60) == m * BIT60 + table / BIT12
  {
    DcPow2();
    Multiple(m, BIT60);
    OrAdd(m * BIT60, table / BIT12, 60);
  }

  lemma Multiple(m: nat, d: nat)
    requires d > 0
    ensures m * d % d == 0
  {
    DivUnique(m * d, d, m, 0);
  }

  lemma PointerFields(table: nat, m: nat, w: nat)
    requires table / BIT12 < BIT44 && w == PointerWord(table, m * BIT60)
    ensures w / BIT60 == m && w % BIT60 / BIT44 == 0 && w % BIT44 == table / BIT12
  {
    PointerWordIs(table, m);
    DivUnique(w, BIT60, m, table / BIT12);
    DivUnique(w, BIT44, 0x1_0000 * m, table / BIT12);
  }

  /** GSCID goes between a pointer below bit 44 and a mode above bit 60, whichever is or-ed in first. */
  lemma IohgatpWordIs(root: nat, m: nat, gscid: nat)
    requires root / BIT12 < BIT44 && gscid < 0x1_0000
    ensures IohgatpWord(root, m * BIT60, gscid) == m * BIT60 + gscid * BIT44 + root / BIT12
  {
    var p, q := root / BIT12, 0x1_0000 * m;
    PointerWordIs(root, m);
    assert m * BIT60 == q * BIT44;
    DcPow2();
    OrParts(q, gscid, p, 44);
  }

  lemma OrShifted(q: nat, g: nat, p: nat, k: nat, a: nat, b: nat)
    requires p < Pow2(k) && Or(g, q) == q + g
    requires a == Shl(q, k) + p && b == Shl(g, k)
    ensures Or(b, a) == Shl(q + g, k) + p
  {
    OrBlock(g, q, p, k);
  }

  lemma OrParts(q: nat, g: nat, p: nat, k: nat)
    requires p < Pow2(k) && g < 0x1_0000 && q % 0x1_0000 == 0
    ensures Or(q * Pow2(k) + p, g * Pow2(k)) == (q + g) * Pow2(k) + p
  {
    var a, b := q * Pow2(k) + p, g * Pow2(k);
    assert Or(b, a) == (q + g) * Pow2(k) + p by {
      assert a == Shl(q, k) + p by { ShlMultiple(q, k); }
      assert b == Shl(g, k) by { ShlMultiple(g, k); }
      assert Shl(q + g, k) == (q + g) * Pow2(k) by { ShlMultiple(q + g, k); }
      assert Or(g, q) == q + g by { Or16(q, g); }
      OrShifted(q, g, p, k, a, b);
    }
    OrSwap(a, b);
  }

  lemma Or16(q: nat, g: nat)
    requires g < 0x1_0000 && q % 0x1_0000 == 0
    ensures Or(g, q) == q + g
  {
    assert Pow2(10) == 1024;
    assert Pow2(16) == 0x1_0000;
    OrAdd(q, g, 16);
  }

  lemma {:induction false} OrSwap(x: nat, y: nat)
    ensures Or(x, y) == Or(y, x)
  {
    if x > 0 && y > 0 {
      OrSwap(x / 2, y / 2);
    }
  }

  lemma {:induction false} ShlMultiple(x: nat, k: nat)
    ensures Shl(x, k) == x * Pow2(k)
    decreases k
  {
    if k > 0 {
      ShlMultiple(x, k - 1);
      assert x * Pow2(k) == 2 * (x * Pow2(k - 1));
    }
  }

  lemma IohgatpFields(root: nat, m: nat, gscid: nat, w: nat)
    requires root / BIT12 < BIT44 && gscid < 0x1_0000 && w == IohgatpWord(root, m * BIT60, gscid)
    ensures w / BIT60 == m && w / BIT44 % 0x1_0000 == gscid && w % BIT44 == root / BIT12
  {
    var p := root / BIT12;
    IohgatpWordIs(root, m, gscid);
    DivUnique(w, BIT60, m, gscid * BIT44 + p);
    DivUnique(w, BIT44, 0x1_0000 * m + gscid, p);
    DivUnique(0x1_0000 * m + gscid, 0x1_0000, m, gscid);
  }

  // ---------------------------------------------------------------------------------------------
  // What the IOMMU reads.

  datatype Context = Context(
    mode2: nat, gscid: nat, ppn2: nat, pscid: nat, mode1: nat, ppn1: nat,
    msiMode: nat, msiPpn: nat, mask: nat, pattern: nat)

  datatype Located = NotPresent | Misconfigured | Present(context: Context)

  /** V, the checks on the fields that the driver leaves zero, and the fields. */
  function ReadDc(d: Dc): (r: Located)
    ensures r.Present? ==> r.context.gscid < 0x1_0000 && r.context.pscid < 0x10_0000
  {
    if d.tc % 2 == 0 then NotPresent
    else if d.tc != DC_TC_VALID || d.reserved != 0 || d.ta % BIT12 != 0 || d.ta / 0x1_0000_0000 != 0
            || d.fsc % BIT60 / BIT44 != 0 || d.msiptp % BIT60 / BIT44 != 0
            || d.mask >= 0x10_0000_0000_0000 || d.pattern >= 0x10_0000_0000_0000
    then Misconfigured
    else Present(Context(d.iohgatp / BIT60, d.iohgatp / BIT44 % 0x1_0000, d.iohgatp % BIT44, d.ta / BIT12,
                         d.fsc / BIT60, d.fsc % BIT44, d.msiptp / BIT60, d.msiptp % BIT44, d.mask, d.pattern))
  }

  // ---------------------------------------------------------------------------------------------
  // The setters, entry by entry.

  datatype Setter = IosatpBare | IosatpSv39 | IohgatpBare | IohgatpSv39x4 | MsiOff | MsiFlat

  function InitEntry(p: Setup, i: nat): Dc
    requires p.Valid() && i <= DID_MAX
  {
    Dc(DC_TC_VALID, IohgatpWord(p.s2root, MODE_BARE, p.gscids[i]), p.pscids[i] * BIT12, PointerWord(p.s1pt, MODE_BARE),
       PointerWord(p.msiPt, MODE_OFF), Msi.MSI_ADDR_MASK, Msi.MSI_ADDR_PATTERN, 0)
  }

  function SetEntry(p: Setup, i: nat, d: Dc, s: Setter): Dc
    requires p.Valid() && i <= DID_MAX
  {
    match s
    case IosatpBare => d.(ta := p.pscids[i] * BIT12, fsc := PointerWord(p.s1pt, MODE_BARE))
    case IosatpSv39 => d.(ta := p.pscids[i] * BIT12, fsc := PointerWord(p.s1pt, MODE_SV39))
    case IohgatpBare => d.(iohgatp := IohgatpWord(p.s2root, MODE_BARE, p.gscids[i]))
    case IohgatpSv39x4 => d.(iohgatp := IohgatpWord(p.s2root, MODE_SV39X4, p.gscids[i]))
    case MsiOff => d.(msiptp := PointerWord(p.msiPt, MODE_OFF), mask := Msi.MSI_ADDR_MASK, pattern := Msi.MSI_ADDR_PATTERN)
    case MsiFlat => d.(msiptp := PointerWord(p.msiPt, MODE_FLAT), pattern := Msi.MSI_ADDR_PATTERN)
  }

  predicate InUse(i: nat) {
    DID_MIN <= i <= DID_MAX
  }

  /** The whole directory after init. */
  function InitAll(p: Setup, before: seq<Dc>): (after: seq<Dc>)
    requires p.Valid() && |before| == DDT_N_ENTRIES
    ensures |after| == DDT_N_ENTRIES
  {
    seq(DDT_N_ENTRIES, i requires 0 <= i < DDT_N_ENTRIES => if InUse(i) then InitEntry(p, i) else before[i].(tc := 0))
  }

  function SetAll(p: Setup, before: seq<Dc>, s: Setter): (after: seq<Dc>)
    requires p.Valid() && |before| == DDT_N_ENTRIES
    ensures |after| == DDT_N_ENTRIES
  {
    seq(DDT_N_ENTRIES, i requires 0 <= i < DDT_N_ENTRIES => if InUse(i) then SetEntry(p, i, before[i], s) else before[i])
  }

  class Directory {
    const p: Setup
    const ddt: array<Dc>

    ghost predicate Valid()
      reads this
    {
      p.Valid() && ddt.Length == DDT_N_ENTRIES
    }

    method DdtInit()
      requires Valid()
      modifies ddt
      ensures ddt[..] == InitAll(p, old(ddt[..]))
    {
      for i := 0 to DDT_N_ENTRIES
        invariant forall k | 0 <= k < DDT_N_ENTRIES :: ddt[k] == if k < i then old(ddt[k]).(tc := 0) else old(ddt[k])
      {
        ddt[i] := ddt[i].(tc := 0);
      }
      for i := DID_MIN to DID_MAX + 1
        invariant forall k | 0 <= k < DDT_N_ENTRIES ::
          ddt[k] == if DID_MIN <= k < i then InitEntry(p, k) else old(ddt[k]).(tc := 0)
      {
        ddt[i] := ddt[i].(tc := DC_TC_VALID);
        ddt[i] := ddt[i].(iohgatp := Or(p.s2root / BIT12, MODE_BARE));
        ddt[i] := ddt[i].(iohgatp := Or(ddt[i].iohgatp, p.gscids[i] * BIT44));
        ddt[i] := ddt[i].(ta := p.pscids[i] * BIT12);
        ddt[i] := ddt[i].(fsc := Or(p.s1pt / BIT12, MODE_BARE));
        ddt[i] := ddt[i].(msiptp := Or(p.msiPt / BIT12, MODE_OFF));
        ddt[i] := ddt[i].(mask := Msi.MSI_ADDR_MASK);
        ddt[i] := ddt[i].(pattern := Msi.MSI_ADDR_PATTERN);
        ddt[i] := ddt[i].(reserved := 0);
      }
    }

    method SetIosatp(sv39: bool)
      requires Valid()
      modifies ddt
      ensures ddt[..] == SetAll(p, old(ddt[..]), if sv39 then IosatpSv39 else IosatpBare)
    {
      ghost var s := if sv39 then IosatpSv39 else IosatpBare;
      for i := DID_MIN to DID_MAX + 1
        invariant forall k | 0 <= k < DDT_N_ENTRIES ::
          ddt[k] == if DID_MIN <= k < i then SetEntry(p, k, old(ddt[k]), s) else old(ddt[k])
      {
        ddt[i] := ddt[i].(ta := p.pscids[i] * BIT12);
        ddt[i] := ddt[i].(fsc := Or(p.s1pt / BIT12, if sv39 then MODE_SV39 else MODE_BARE));
      }
    }

    method SetIohgatp(sv39x4: bool)
      requires Valid()
      modifies ddt
      ensures ddt[..] == SetAll(p, old(ddt[..]), if sv39x4 then IohgatpSv39x4 else IohgatpBare)
    {
      ghost var s := if sv39x4 then IohgatpSv39x4 else IohgatpBare;
      for i := DID_MIN to DID_MAX + 1
        invariant forall k | 0 <= k < DDT_N_ENTRIES ::
          ddt[k] == if DID_MIN <= k < i then SetEntry(p, k, old(ddt[k]), s) else old(ddt[k])
      {
        ddt[i] := ddt[i].(iohgatp := Or(p.s2root / BIT12, if sv39x4 then MODE_SV39X4 else MODE_BARE));
        ddt[i] := ddt[i].(iohgatp := Or(ddt[i].iohgatp, p.gscids[i] * BIT44));
      }
    }

    method SetMsiOff()
      requires Valid()
      modifies ddt
      ensures ddt[..] == SetAll(p, old(ddt[..]), MsiOff)
    {
      for i := DID_MIN to DID_MAX + 1
        invariant forall k | 0 <= k < DDT_N_ENTRIES ::
          ddt[k] == if DID_MIN <= k < i then SetEntry(p, k, old(ddt[k]), MsiOff) else old(ddt[k])
      {
        ddt[i] := ddt[i].(msiptp := Or(p.msiPt / BIT12, MODE_OFF));
        ddt[i] := ddt[i].(mask := Msi.MSI_ADDR_MASK);
        ddt[i] := ddt[i].(pattern := Msi.MSI_ADDR_PATTERN);
      }
    }

    /** Writes the mask into the pattern, then the pattern over it, and the mask not at all. */
    method SetMsiFlat()
      requires Valid()
      modifies ddt
      ensures ddt[..] == SetAll(p, old(ddt[..]), MsiFlat)
    {
      for i := DID_MIN to DID_MAX + 1
        invariant forall k | 0 <= k < DDT_N_ENTRIES ::
          ddt[k] == if DID_MIN <= k < i then SetEntry(p, k, old(ddt[k]), MsiFlat) else old(ddt[k])
      {
        ddt[i] := ddt[i].(msiptp := Or(p.msiPt / BIT12, MODE_FLAT));
        ddt[i] := ddt[i].(pattern := Msi.MSI_ADDR_MASK);
        ddt[i] := ddt[i].(pattern := Msi.MSI_ADDR_PATTERN);
      }
    }
  }

  // ---------------------------------------------------------------------------------------------
  // Whole runs of setters.

  function SetRun(p: Setup, ddt: seq<Dc>, ss: seq<Setter>): (after: seq<Dc>)
    requires p.Valid() && |ddt| == DDT_N_ENTRIES
    ensures |after| == DDT_N_ENTRIES
    decreases |ss|
  {
    if ss == [] then ddt else SetRun(p, SetAll(p, ddt, ss[0]), ss[1..])
  }

  /** The three modes that a run of setters leaves on. */
  datatype Modes = Modes(sv39: bool, sv39x4: bool, flat: bool)

  const ALL_OFF: Modes := Modes(false, false, false)

  function Switch(m: Modes, s: Setter): Modes {
    match s
    case IosatpBare => m.(sv39 := false)
    case IosatpSv39 => m.(sv39 := true)
    case IohgatpBare => m.(sv39x4 := false)
    case IohgatpSv39x4 => m.(sv39x4 := true)
    case MsiOff => m.(flat := false)
    case MsiFlat => m.(flat := true)
  }

  function LastModes(m: Modes, ss: seq<Setter>): Modes
    decreases |ss|
  {
    if ss == [] then m else LastModes(Switch(m, ss[0]), ss[1..])
  }

  /** The context meant for device `i` in given modes. */
  function Configured(p: Setup, i: nat, m: Modes): Context
    requires p.Valid() && i <= DID_MAX
  {
    Context(if m.sv39x4 then 8 else 0, p.gscids[i], p.s2root / BIT12, p.pscids[i], if m.sv39 then 8 else 0, p.s1pt / BIT12,
            if m.flat then 1 else 0, p.msiPt / BIT12, 0x10_0286, 0x00_0386)
  }

  /** The dwords of an entry in given modes. */
  function EntryIn(p: Setup, i: nat, m: Modes): Dc
    requires p.Valid() && i <= DID_MAX
  {
    Dc(DC_TC_VALID, IohgatpWord(p.s2root, if m.sv39x4 then MODE_SV39X4 else MODE_BARE, p.gscids[i]), p.pscids[i] * BIT12,
       PointerWord(p.s1pt, if m.sv39 then MODE_SV39 else MODE_BARE),
       PointerWord(p.msiPt, if m.flat then MODE_FLAT else MODE_OFF),
       Msi.MSI_ADDR_MASK, Msi.MSI_ADDR_PATTERN, 0)
  }

  lemma EntryReads(p: Setup, i: nat, m: Modes)
    requires p.Valid() && InUse(i)
    ensures ReadDc(EntryIn(p, i, m)) == Present(Configured(p, i, m))
  {
    var d := EntryIn(p, i, m);
    IohgatpFields(p.s2root, if m.sv39x4 then 8 else 0, p.gscids[i], d.iohgatp);
    PointerFields(p.s1pt, if m.sv39 then 8 else 0, d.fsc);
    PointerFields(p.msiPt, if m.flat then 1 else 0, d.msiptp);
    PscidField(p.pscids[i]);
  }

  lemma PscidField(pscid: nat)
    requires pscid < 0x10_0000
    ensures pscid * BIT12 % BIT12 == 0 && pscid * BIT12 / BIT12 == pscid && pscid * BIT12 / 0x1_0000_0000 == 0
  {
    DivUnique(pscid * BIT12, BIT12, pscid, 0);
  }

  lemma {:induction false} RunEntries(p: Setup, ddt: seq<Dc>, ss: seq<Setter>, m: Modes, i: nat)
    requires p.Valid() && |ddt| == DDT_N_ENTRIES && i < DDT_N_ENTRIES
    requires InUse(i) ==> ddt[i] == EntryIn(p, i, m)
    ensures SetRun(p, ddt, ss)[i] == if InUse(i) then EntryIn(p, i, LastModes(m, ss)) else ddt[i]
    decreases |ss|
  {
    if ss != [] {
      RunEntries(p, SetAll(p, ddt, ss[0]), ss[1..], Switch(m, ss[0]), i);
    }
  }

  /** After init and any run of setters, every device in use has a valid context with the configured tables,
      identifiers, mask and pattern, in the modes set last; every other device has none. The mask is there
      although `set_msi_flat` never writes it, because init did. */
  lemma ContextAfter(p: Setup, before: seq<Dc>, ss: seq<Setter>, i: nat)
    requires p.Valid() && |before| == DDT_N_ENTRIES && i < DDT_N_ENTRIES
    ensures ReadDc(SetRun(p, InitAll(p, before), ss)[i])
         == if 1 <= i <= 15 then Present(Configured(p, i, LastModes(ALL_OFF, ss))) else NotPresent
  {
    RunEntries(p, InitAll(p, before), ss, ALL_OFF, i);
    if InUse(i) {
      EntryReads(p, i, LastModes(ALL_OFF, ss));
    }
  }

  /** Without init, `set_msi_flat` alone would leave whatever mask was there: over an entry that holds `d`, the
      context it yields has the driver's mask exactly if `d` had it. */
  lemma FlatKeepsMask(p: Setup, i: nat, d: Dc, m: Modes)
    requires p.Valid() && InUse(i) && d.mask < 0x10_0000_0000_0000
    requires d == EntryIn(p, i, m).(mask := d.mask)
    ensures ReadDc(SetEntry(p, i, d, MsiFlat)) == Present(Configured(p, i, m.(flat := true)).(mask := d.mask))
  {
    EntryReads(p, i, m.(flat := true));
  }
}
