/** The commands the driver builds (src/rv_iommu.c:252-345) and the formats in which the IOMMU reads them
    (sections 3.1.1 to 3.1.3 of the RISC-V IOMMU specification 1.0). */
module Commands {

  datatype Command = Command(dw0: bv64, dw1: bv64)

  // src/inc/rv_iommu_cq.h
  const IOTINVAL: bv64 := 0x1
  const IOFENCE: bv64 := 0x2
  const IODIR: bv64 := 0x3
  const VMA: bv64 := 0
  const GVMA: bv64 := 0x80
  const FUNC3_C: bv64 := 0
  const INVAL_DDT: bv64 := 0
  const IOTINVAL_AV: bv64 := 0x400
  const IOTINVAL_GV: bv64 := 0x2_0000_0000
  const IOTINVAL_PSCV: bv64 := 0x1_0000_0000
  const IOFENCE_AV: bv64 := 0x400
  const IOFENCE_WSI: bv64 := 0x800
  const IOFENCE_ADDR: bv64 := 0x8200_0000
  const IOFENCE_DATA: bv64 := 0xAB_CDEF
  const IODIR_DV: bv64 := 0x2_0000_0000

  // ---------------------------------------------------------------------------------------------
  // The IOMMU's reading of a command. Addresses are page numbers, except for the fence's, which counts
  // 4-byte words.

  datatype Decoded =
    | Vma(av: bool, gv: bool, pscv: bool, page: bv64, gscid: bv64, pscid: bv64)
    | Gvma(av: bool, gv: bool, page: bv64, gscid: bv64)
    | Fence(av: bool, wsi: bool, pr: bool, pw: bool, word: bv64, data: bv64)
    | InvalDdt(dv: bool, did: bv64)
    | InvalPdt(dv: bool, did: bv64, pid: bv64)
    | Illegal

  predicate Set(x: bv64, mask: bv64) {
    x & mask != 0
  }

  /** The bits of dword 0 that IOTINVAL, IOFENCE and IODIR reserve, and those of dword 1 for the first two. */
  const IOTINVAL_RSVD: bv64 := 0xF000_0FFC_0000_0800
  const IOFENCE_RSVD: bv64 := 0x0000_0000_FFFF_C000
  const IODIR_RSVD: bv64 := 0x0000_00FD_0000_0C00
  const IOTINVAL_RSVD1: bv64 := 0xC000_0000_0000_03FF
  const IOFENCE_RSVD1: bv64 := 0xC000_0000_0000_0000

  function Decode(c: Command): Decoded {
    var opcode, func3 := c.dw0 & 0x7F, (c.dw0 >> 7) & 0x7;
    if opcode == 1 then
      if Set(c.dw0, IOTINVAL_RSVD) || Set(c.dw1, IOTINVAL_RSVD1) then Illegal
      else
        var av, gv, pscv := Set(c.dw0, 1 << 10), Set(c.dw0, 1 << 33), Set(c.dw0, 1 << 32);
        var page, gscid, pscid := (c.dw1 >> 10) & 0xF_FFFF_FFFF_FFFF, (c.dw0 >> 44) & 0xFFFF, (c.dw0 >> 12) & 0xF_FFFF;
        if func3 == 0 then Vma(av, gv, pscv, page, gscid, pscid)
        else if func3 == 1 && !pscv then Gvma(av, gv, page, gscid)
        else Illegal
    else if opcode == 2 then
      if func3 != 0 || Set(c.dw0, IOFENCE_RSVD) || Set(c.dw1, IOFENCE_RSVD1) then Illegal
      else Fence(Set(c.dw0, 1 << 10), Set(c.dw0, 1 << 11), Set(c.dw0, 1 << 12), Set(c.dw0, 1 << 13), c.dw1, c.dw0 >> 32)
    else if opcode == 3 then
      if Set(c.dw0, IODIR_RSVD) || c.dw1 != 0 then Illegal
      else
        var dv, did, pid := Set(c.dw0, 1 << 33), c.dw0 >> 40, (c.dw0 >> 12) & 0xF_FFFF;
        if func3 == 0 && pid == 0 then InvalDdt(dv, did)
        else if func3 == 1 then InvalPdt(dv, did, pid)
        else Illegal
    else Illegal
  }

  // ---------------------------------------------------------------------------------------------
  // The driver's builders. Each promises what the IOMMU reads back from the two dwords.

  /** IOTINVAL.GVMA with PSCV set, which is illegal. */
  function InducedFault(): (c: Command)
    ensures Decode(c) == Illegal
  {
    Command((IOTINVAL | GVMA) | IOTINVAL_PSCV, 0)
  }

  function DdtInval(dv: bool, did: bv64): (c: Command)
    ensures did < 0x100_0000 ==> Decode(c) == InvalDdt(dv, if dv then did else 0)
  {
    var dw0 := IODIR | INVAL_DDT;
    Command(if dv then dw0 | (IODIR_DV | (did << 40)) else dw0, 0)
  }

  function GscidPart(gv: bool, gscid: bv64): (g: bv64)
    ensures gscid & 0xFFFF == gscid ==>
      g & !0x0FFF_F002_0000_0000 == 0 && (g & 0x2_0000_0000 != 0) == gv && (g >> 44) & 0xFFFF == (if gv then gscid else 0)
  {
    if gv then IOTINVAL_GV | (gscid << 44) else 0
  }

  function PscidPart(pscv: bool, pscid: bv64): (p: bv64)
    ensures pscid & 0xF_FFFF == pscid ==>
      p & !0x1_FFFF_F000 == 0 && (p & 0x1_0000_0000 != 0) == pscv && (p >> 12) & 0xF_FFFF == (if pscv then pscid else 0)
  {
    if pscv then IOTINVAL_PSCV | (pscid << 12) else 0
  }

  lemma WordLow(f: bv64, g: bv64, p: bv64)
    requires (f == 0 || f == 0x80) && g & !0x0FFF_F002_0000_0000 == 0 && p & !0x1_FFFF_F000 == 0
    ensures var w := ((1 | f) | g) | p; w & 0x7F == 1 && (w >> 7) & 0x7 == f >> 7
  {
  }

  lemma WordReserved(f: bv64, g: bv64, p: bv64)
    requires (f == 0 || f == 0x80) && g & !0x0FFF_F002_0000_0000 == 0 && p & !0x1_FFFF_F000 == 0
    ensures var w := ((1 | f) | g) | p; w & 0xF000_0FFC_0000_0800 == 0 && w & 0x400 == 0
  {
  }

  lemma WordGscid(f: bv64, g: bv64, p: bv64)
    requires (f == 0 || f == 0x80) && g & !0x0FFF_F002_0000_0000 == 0 && p & !0x1_FFFF_F000 == 0
    ensures var w := ((1 | f) | g) | p;
      w & 0x2_0000_0000 == g & 0x2_0000_0000 && (w >> 44) & 0xFFFF == (g >> 44) & 0xFFFF
  {
  }

  lemma WordPscid(f: bv64, g: bv64, p: bv64)
    requires (f == 0 || f == 0x80) && g & !0x0FFF_F002_0000_0000 == 0 && p & !0x1_FFFF_F000 == 0
    ensures var w := ((1 | f) | g) | p;
      w & 0x1_0000_0000 == p & 0x1_0000_0000 && (w >> 12) & 0xF_FFFF == (p >> 12) & 0xF_FFFF
  {
  }

  lemma Below16(x: bv64)
    requires x < 0x1_0000
    ensures x & 0xFFFF == x
  {
  }

  lemma Below20(x: bv64)
    requires x < 0x10_0000
    ensures x & 0xF_FFFF == x
  {
  }

  /** Dword 0 of an IOTINVAL. */
  function IotinvalWord(func3: bv64, gv: bool, pscv: bool, gscid: bv64, pscid: bv64): bv64 {
    ((IOTINVAL | func3) | GscidPart(gv, gscid)) | PscidPart(pscv, pscid)
  }

  lemma IotinvalWordFields(func3: bv64, gv: bool, pscv: bool, gscid: bv64, pscid: bv64)
    requires func3 == 0 || func3 == 0x80
    ensures gscid < 0x1_0000 && pscid < 0x10_0000 ==>
      IotinvalFields(IotinvalWord(func3, gv, pscv, gscid, pscid), func3 >> 7, gv, pscv, gscid, pscid)
  {
    if gscid >= 0x1_0000 || pscid >= 0x10_0000 {
      return;
    }
    Below16(gscid);
    Below20(pscid);
    var g, p := GscidPart(gv, gscid), PscidPart(pscv, pscid);
    WordLow(func3, g, p);
    WordReserved(func3, g, p);
    WordGscid(func3, g, p);
    WordPscid(func3, g, p);
  }

  predicate IotinvalFields(w: bv64, func3: bv64, gv: bool, pscv: bool, gscid: bv64, pscid: bv64) {
    && w & 0x7F == 1 && (w >> 7) & 0x7 == func3
    && !Set(w, IOTINVAL_RSVD) && !Set(w, 1 << 10)
    && Set(w, 1 << 33) == gv && Set(w, 1 << 32) == pscv
    && (w >> 44) & 0xFFFF == (if gv then gscid else 0)
    && (w >> 12) & 0xF_FFFF == (if pscv then pscid else 0)
  }

  lemma DecodeIotinval(c: Command, func3: bv64, gv: bool, pscv: bool, gscid: bv64, pscid: bv64, page: bv64)
    requires func3 == 0 || func3 == 0x80
    requires c.dw1 & IOTINVAL_RSVD1 == 0 && (c.dw1 >> 10) & 0xF_FFFF_FFFF_FFFF == page
    ensures IotinvalFields(c.dw0, func3 >> 7, gv, pscv, gscid, pscid) && (func3 == 0 || !pscv) ==>
      Decode(c) == if func3 == 0 then Vma(false, gv, pscv, page, if gv then gscid else 0, if pscv then pscid else 0)
                   else Gvma(false, gv, page, if gv then gscid else 0)
  {
  }

  /** The driver puts its AV flag on bit 12 of the address field, in the second dword, where the standard
      has it in the first. So the IOMMU always reads AV clear and ignores the address: the command covers
      every address, whichever one was asked for. */
  function IotinvalVma(av: bool, gv: bool, pscv: bool, addr: bv64, gscid: bv64, pscid: bv64): (c: Command)
    ensures gscid < 0x1_0000 && pscid < 0x10_0000 ==>
      Decode(c) == Vma(false, gv, pscv, if av then (addr >> 12) | 1 else 0,
                       if gv then gscid else 0, if pscv then pscid else 0)
  {
    var c := Command(IotinvalWord(VMA, gv, pscv, gscid, pscid), if av then AddressWord(addr) else 0);
    IotinvalWordFields(VMA, gv, pscv, gscid, pscid);
    DecodeIotinval(c, VMA, gv, pscv, gscid, pscid, if av then (addr >> 12) | 1 else 0);
    c
  }

  function IotinvalGvma(av: bool, gv: bool, addr: bv64, gscid: bv64): (c: Command)
    ensures gscid < 0x1_0000 ==>
      Decode(c) == Gvma(false, gv, if av then (addr >> 12) | 1 else 0, if gv then gscid else 0)
  {
    var c := Command(IotinvalWord(GVMA, gv, false, gscid, 0), if av then AddressWord(addr) else 0);
    IotinvalWordFields(GVMA, gv, false, gscid, 0);
    DecodeIotinval(c, GVMA, gv, false, gscid, 0, if av then (addr >> 12) | 1 else 0);
    c
  }

  /** Dword 1 of an IOTINVAL with an address. */
  function AddressWord(addr: bv64): (w: bv64)
    ensures w & IOTINVAL_RSVD1 == 0 && (w >> 10) & 0xF_FFFF_FFFF_FFFF == (addr >> 12) | 1
  {
    IOTINVAL_AV | ((addr >> 12) << 10)
  }

  /** Without `av` the second dword is never assigned: `stale` is whatever the stack held. The command is then
      legal exactly when the two top bits of that happen to be clear. */
  function IofenceC(wsi: bool, av: bool, stale: bv64): (c: Command)
    ensures av ==> Decode(c) == Fence(true, wsi, false, false, 0x8200_0000 >> 2, 0xAB_CDEF)
    ensures !av && stale < 0x4000_0000_0000_0000 ==> Decode(c) == Fence(false, wsi, false, false, stale, 0)
    ensures !av && stale >= 0x4000_0000_0000_0000 ==> Decode(c) == Illegal
  {
    var dw0 := IOFENCE | FUNC3_C;
    var dw0' := if wsi then dw0 | IOFENCE_WSI else dw0;
    if av then Command((dw0' | IOFENCE_AV) | (IOFENCE_DATA << 32), IOFENCE_ADDR >> 2)
    else Command(dw0', stale)
  }

  lemma AddressWordTells(a: bv64, b: bv64)
    ensures AddressWord(a) == AddressWord(b) ==> a >> 13 == b >> 13
  {
  }

  lemma AddressWordShape(a: bv64)
    ensures AddressWord(a) == ((a >> 13) << 11) | 0x400
  {
    assert IOTINVAL_AV == 0x400;
  }

  lemma AddressWordForgets(a: bv64, b: bv64)
    requires a >> 13 == b >> 13
    ensures AddressWord(a) == AddressWord(b)
  {
    AddressWordShape(a);
    AddressWordShape(b);
  }

  /** Two addresses get the same command exactly when they agree above bit 12. */
  lemma AddressLosesBit12(gv: bool, pscv: bool, a: bv64, b: bv64, gscid: bv64, pscid: bv64)
    ensures IotinvalVma(true, gv, pscv, a, gscid, pscid) == IotinvalVma(true, gv, pscv, b, gscid, pscid)
       <==> a >> 13 == b >> 13
    ensures IotinvalGvma(true, gv, a, gscid) == IotinvalGvma(true, gv, b, gscid) <==> a >> 13 == b >> 13
  {
    if a >> 13 == b >> 13 {
      AddressWordForgets(a, b);
    } else {
      AddressWordTells(a, b);
    }
  }

  // ---------------------------------------------------------------------------------------------
  // What the driver's commands leave out.

  /** The fields of dword 0 that an invalidation `d` was read from. */
  predicate FieldsOf(w: bv64, d: Decoded)
    requires d.Vma? || d.Gvma?
  {
    && w & 0x7F == 1 && (w >> 7) & 0x7 == (if d.Vma? then 0 else 1) && w & 0xF000_0FFC_0000_0800 == 0
    && (w & 0x2_0000_0000 != 0) == d.gv && (w & 0x1_0000_0000 != 0) == (d.Vma? && d.pscv)
    && (w >> 44) & 0xFFFF == d.gscid && (d.Vma? ==> (w >> 12) & 0xF_FFFF == d.pscid)
  }

  predicate AddressOf(w: bv64, d: Decoded)
    requires d.Vma? || d.Gvma?
  {
    w & 0xC000_0000_0000_03FF == 0 && (w >> 10) & 0xF_FFFF_FFFF_FFFF == d.page
  }

  /** The IOMMU reads AV from bit 10 of dword 0 and every other operand from its own field, whoever built the command. */
  lemma ReadsFields(c: Command, d: Decoded)
    requires (d.Vma? || d.Gvma?) && FieldsOf(c.dw0, d) && AddressOf(c.dw1, d) && (c.dw0 & 0x400 != 0) == d.av
    ensures Decode(c) == d
  {
  }

  /** A fence with every operand the standard gives it. */
  function StandardFence(av: bool, wsi: bool, pr: bool, pw: bool, word: bv64, data: bv64): (c: Command)
    ensures word < 0x4000_0000_0000_0000 && data < 0x1_0000_0000 ==> Decode(c) == Fence(av, wsi, pr, pw, word, data)
  {
    var flags := (if wsi then 0x800 else 0) | (if pr then 0x1000 else 0) | (if pw then 0x2000 else 0);
    Command(((IOFENCE | (if av then IOFENCE_AV else 0)) | flags) | (data << 32), word)
  }
}
