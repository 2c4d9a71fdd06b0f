/** The privilege-mode switcher (src/rvh_test.c:41-156, 158-360, 366-424) on a hart with the hypervisor extension
    (traps and their returns: sections 3.3.2, 8.2 and 8.6 of the RISC-V Privileged Architecture, 20211203). */
module Privilege {

  // The five modes, as the driver numbers them.
  const VU: nat := 0
  const HU: nat := 1
  const VS: nat := 2
  const HS: nat := 3
  const M: nat := 4
  const PRIV_MAX: nat := 5

  const ECALL_GOTO_PRIV: nat := 1

  predicate IsUser(p: nat) {
    p == VU || p == HU
  }

  predicate Virtual(p: nat) {
    p == VU || p == VS
  }

  predicate Supervisor(p: nat) {
    p == VS || p == HS
  }

  /** CAUSE_ECU, CAUSE_ECS, CAUSE_ECV and CAUSE_ECM. */
  predicate IsEcall(cause: nat) {
    cause == 8 || cause == 9 || cause == 10 || cause == 11
  }

  /** CAUSE_IAM, CAUSE_IAF, CAUSE_IPF and CAUSE_IGPF. */
  predicate IsInstFault(cause: nat) {
    cause == 0 || cause == 1 || cause == 12 || cause == 20
  }

  /** Bit 63 of a cause tells an interrupt from an exception; the rest is its number. */
  const INTERRUPT: nat := 0x8000_0000_0000_0000

  predicate IsInterrupt(cause: nat) {
    cause >= INTERRUPT
  }

  function Code(cause: nat): nat {
    if IsInterrupt(cause) then cause - INTERRUPT else cause
  }

  function EcallCause(mode: nat): nat {
    if IsUser(mode) then 8 else if mode == HS then 9 else if mode == VS then 10 else 11
  }

  // ---------------------------------------------------------------------------------------------
  // Delegation.

  /** A status register by the numbers of the bits that are one. */
  type Word = set<nat>

  const MEDELEG: Word := {8, 10}
  const HEDELEG: Word := {8}

  /** The mode that takes a trap. */
  function TrapMode(mode: nat, cause: nat, medeleg: Word, hedeleg: Word): nat {
    if mode == M || cause !in medeleg then M
    else if Virtual(mode) && cause in hedeleg then VS
    else HS
  }

  /** The mode that takes an ecall under the delegation that `reset_state` sets up. */
  function Above(mode: nat): nat {
    TrapMode(mode, EcallCause(mode), MEDELEG, HEDELEG)
  }

  /** Climbing by ecalls from `mode` one meets `target`. */
  predicate Climbs(mode: nat, target: nat)
    requires mode < PRIV_MAX
    decreases M - mode
  {
    mode == target || (mode != M && Climbs(Above(mode), target))
  }

  /** Each ecall strictly raises the mode, until M. */
  lemma AboveRises(mode: nat)
    requires mode < PRIV_MAX
    ensures if mode == M then Above(mode) == M else mode < Above(mode) <= M
  {
  }

  /** The climb from a lower mode meets every higher one but for two pairs: from HU it goes past VS, and from VU
      past HU, which is why `goto_priv` goes from user to user through M. */
  lemma ClimbsIff(mode: nat, target: nat)
    requires mode < target < PRIV_MAX
    ensures Climbs(mode, target) <==> !(mode == HU && target == VS) && !(mode == VU && target == HU)
  {
  }

  lemma {:induction false} ClimbsUp(mode: nat, target: nat)
    requires mode < PRIV_MAX
    ensures Climbs(mode, target) ==> mode <= target <= M
    decreases M - mode
  {
  }

  // ---------------------------------------------------------------------------------------------
  // `goto_priv` with a bound on how deep its calls may nest.

  /** `Arrived` with the hardware's mode and `curr_priv`. */
  datatype Result = Arrived(mode: nat, curr: nat) | Refused | OutOfCalls

  /** `goto_priv(target)`, called in mode `mode` with the given `curr_priv`, when at most `n` calls may nest. */
  function Goto(n: nat, mode: nat, curr: nat, target: nat): Result
    decreases n, 1
  {
    if n == 0 then OutOfCalls
    else if IsUser(target) && IsUser(curr) then
      match Goto(n - 1, mode, curr, M)
      case Arrived(mode', curr') => GotoRest(n, mode', curr', target)
      case Refused => Refused
      case OutOfCalls => OutOfCalls
    else GotoRest(n, mode, curr, target)
  }

  /** Its part after the test for two user modes: an ecall runs the handler of the mode above, which calls it again
      and returns to the `curr_priv` that this leaves. */
  function GotoRest(n: nat, mode: nat, curr: nat, target: nat): Result
    requires n > 0
    decreases n, 0
  {
    if mode == target || target >= PRIV_MAX then Arrived(mode, target)
    else if target > curr then
      match Goto(n - 1, Above(mode), curr, target)
      case Arrived(_, curr') => Arrived(curr', curr')
      case Refused => Refused
      case OutOfCalls => OutOfCalls
    else if target == curr then Arrived(mode, curr)
    else if (curr == VS && target == HU) || IsUser(curr) then Refused
    else Arrived(target, target)
  }

  /** Bound enough for every call that returns: from VU by three ecalls to M, and down to a user mode. */
  const CALLS: nat := 6

  /** The states in which `goto_priv` may be called: settled in a mode, or in a handler on the way up from `curr`
      with the target still above. */
  predicate Callable(mode: nat, curr: nat, target: nat) {
    && mode < PRIV_MAX
    && if mode == curr then !(curr == HU && target == VS)
       else VS <= mode && curr < mode && curr < target < PRIV_MAX && Climbs(mode, target)
  }

  function Expected(mode: nat, curr: nat, target: nat): Result {
    if target >= PRIV_MAX then Arrived(mode, target)
    else if curr == VS && target == HU then Refused
    else Arrived(target, target)
  }

  /** In a handler the call climbs to the target, one ecall for each mode on the way. */
  lemma {:induction false} GotoClimbs(n: nat, mode: nat, curr: nat, target: nat)
    requires VS <= mode < PRIV_MAX && curr < target < PRIV_MAX && curr <= mode && Climbs(mode, target)
    requires mode + n > M && n > 0 && !(IsUser(curr) && IsUser(target))
    ensures Goto(n, mode, curr, target) == Arrived(target, target)
    decreases M - mode
  {
    if mode != target {
      ClimbsUp(mode, target);
      GotoClimbs(n - 1, Above(mode), curr, target);
    }
  }

  lemma GotoRises(n: nat, mode: nat, target: nat)
    requires mode < target < PRIV_MAX && n >= 4
    requires !(mode == HU && target == VS) && !(mode == VU && target == HU)
    ensures Goto(n, mode, mode, target) == Arrived(target, target)
  {
    ClimbsIff(mode, target);
    GotoClimbs(n - 1, Above(mode), mode, target);
  }

  /** With calls enough, wherever it may be called, it ends as expected. */
  lemma GotoIs(n: nat, mode: nat, curr: nat, target: nat)
    requires n >= CALLS && Callable(mode, curr, target)
    ensures Goto(n, mode, curr, target) == Expected(mode, curr, target)
  {
    if IsUser(target) && IsUser(curr) {
      ClimbsUp(mode, target);
      GotoRises(n - 1, mode, M);
    } else if mode != curr {
      ClimbsUp(mode, target);
      GotoClimbs(n, mode, curr, target);
    } else if mode < target < PRIV_MAX {
      GotoRises(n, mode, target);
    }
  }

  /** On the way from HU to VS every call makes another one, whatever the bound. */
  lemma {:induction false} NeverReturns(n: nat, mode: nat)
    requires mode == HU || mode == HS || mode == M
    ensures Goto(n, mode, HU, VS) == OutOfCalls
    decreases n
  {
    if n > 0 {
      NeverReturns(n - 1, Above(mode));
    }
  }

  /** From one mode to another, `goto_priv` returns or refuses at some bound exactly if it is not from HU to VS. */
  lemma GotoReturnsIff(mode: nat, target: nat)
    requires mode < PRIV_MAX && target < PRIV_MAX
    ensures (exists n :: Goto(n, mode, mode, target) != OutOfCalls) <==> !(mode == HU && target == VS)
  {
    if mode == HU && target == VS {
      forall n
        ensures Goto(n, mode, mode, target) == OutOfCalls
      {
        NeverReturns(n, HU);
      }
    } else {
      GotoIs(CALLS, mode, mode, target);
    }
  }

  // ---------------------------------------------------------------------------------------------
  // Status words.

  const SSTATUS_BITS: Word := {1, 5, 6, 8, 9, 10, 13, 14, 15, 16, 18, 19, 32, 33, 63}

  /** The bits that trap entry, the handlers and the return instructions may change. */
  const MSTATUS_FLUX: Word := {1, 3, 5, 7, 8, 11, 12, 17, 38, 39}
  const HSTATUS_FLUX: Word := {6, 7, 8}
  const VSSTATUS_FLUX: Word := {1, 5, 8}

  function One(bit: nat, on: bool): Word {
    if on then {bit} else {}
  }

  function ModeFrom(supervisor: bool, virtual: bool): nat {
    if supervisor then (if virtual then VS else HS) else if virtual then VU else HU
  }

  /** Where `mret` goes: MPP is bits 12 to 11, MPV bit 39. */
  function MretMode(mstatus: Word): nat {
    if 11 in mstatus && 12 in mstatus then M else ModeFrom(11 in mstatus, 39 in mstatus)
  }

  /** Where `sret` goes in HS-mode: SPP is bit 8, SPV bit 7 of hstatus. */
  function SretMode(mstatus: Word, hstatus: Word): nat {
    ModeFrom(8 in mstatus, 7 in hstatus)
  }

  function VsretMode(vsstatus: Word): nat {
    ModeFrom(8 in vsstatus, true)
  }

  /** The same except for the bits of `flux`. */
  predicate SameBut(a: Word, b: Word, flux: Word) {
    a - flux == b - flux
  }

  /** What a trap reports besides its cause and place. */
  datatype Info = Info(tval: nat, tval2: nat, tinst: nat, gva: bool)

  const NO_INFO: Info := Info(0, 0, 0, false)

  /** The interrupts that can be delegated to VS-mode, which sees them one number lower. */
  const VS_INTERRUPTS: Word := {2, 6, 10}

  function VsCause(cause: nat): nat {
    if IsInterrupt(cause) && Code(cause) > 0 then cause - 1 else cause
  }

  /** The driver's record of the last trap. */
  datatype Exception = Exception(
    testing: bool, triggered: bool, priv: nat, cause: nat, epc: nat, info: Info, xpv: bool, faultInst: nat)

  class Hart {
    // Hardware.
    var mode: nat
    var pc: nat
    var mstatus: Word
    var hstatus: Word
    var vsstatus: Word
    var mcause: nat
    var scause: nat
    var vscause: nat
    var mepc: nat
    var sepc: nat
    var vsepc: nat
    var mtval: nat
    var mtval2: nat
    var mtinst: nat
    var stval: nat
    var htval: nat
    var htinst: nat
    var vstval: nat
    var medeleg: Word
    var hedeleg: Word
    var mideleg: Word
    var hideleg: Word
    var mip: Word

    // The driver's variables.
    var currPriv: nat
    var realPriv: nat
    var onGoing: bool
    var ecallArgs: (nat, nat)
    var excpt: Exception
    var halted: bool

    // The program: where instructions are compressed, and where the ecalls of `goto_priv` are when it runs in
    // the handlers of the three modes, and the label that lowering the mode returns to.
    const compressed: nat -> bool
    const site: nat -> nat
    const landing: nat

    /** An ecall is never a compressed instruction, and only some interrupts can be delegated to VS-mode. */
    ghost predicate Program()
      reads this
    {
      (forall p :: !compressed(site(p))) && hideleg <= VS_INTERRUPTS
    }

    ghost predicate Valid()
      reads this
    {
      mode < PRIV_MAX && realPriv == mode && Program()
    }

    /** As `reset_state` leaves it. */
    predicate Delegated()
      reads this
    {
      medeleg == MEDELEG && hedeleg == HEDELEG
    }

    /** Nothing but the bits in flux has changed in the status registers. */
    twostate predicate StatusKept()
      reads this
    {
      && SameBut(mstatus, old(mstatus), MSTATUS_FLUX)
      && SameBut(hstatus, old(hstatus), HSTATUS_FLUX)
      && SameBut(vsstatus, old(vsstatus), VSSTATUS_FLUX)
      && medeleg == old(medeleg) && hedeleg == old(hedeleg) && mideleg == old(mideleg) && hideleg == old(hideleg)
    }

    // -----------------------------------------------------------------------------------------
    // Hardware steps.

    /** The mode that takes a trap now. */
    function Taker(cause: nat): nat
      reads this
    {
      if IsInterrupt(cause) then TrapMode(mode, Code(cause), mideleg, hideleg) else TrapMode(mode, cause, medeleg, hedeleg)
    }

    /** Trap entry. */
    method Trap(cause: nat, at: nat, info: Info)
      requires mode < PRIV_MAX
      modifies this`mode, this`mstatus, this`hstatus, this`vsstatus
      modifies this`mcause, this`scause, this`vscause, this`mepc, this`sepc, this`vsepc
      modifies this`mtval, this`mtval2, this`mtinst, this`stval, this`htval, this`htinst, this`vstval
      ensures mode == old(Taker(cause))
      ensures mode == M ==> mcause == cause && mepc == at && MretMode(mstatus) == old(mode)
      ensures mode == M ==> MInfo() == info && (39 in mstatus <==> Virtual(old(mode))) && hstatus == old(hstatus)
      ensures mode == HS ==> scause == cause && sepc == at && SretMode(mstatus, hstatus) == old(mode)
      ensures mode == HS ==> HsInfo() == info && (7 in hstatus <==> Virtual(old(mode)))
      ensures mode == VS ==> vscause == VsCause(cause) && vsepc == at && VsretMode(vsstatus) == old(mode)
      ensures mode == VS ==> vstval == info.tval
      ensures StatusKept()
    {
      var from := mode;
      mode := Taker(cause);
      if mode == M {
        TrapToM(from, info);
        mcause, mepc := cause, at;
      } else if mode == HS {
        TrapToHs(from, info);
        scause, sepc := cause, at;
      } else {
        vsstatus := (vsstatus - {1, 5, 8}) + One(5, 1 in vsstatus) + One(8, Supervisor(from));
        vstval := info.tval;
        vscause, vsepc := VsCause(cause), at;
      }
    }

    method TrapToM(from: nat, info: Info)
      requires from < PRIV_MAX
      modifies this`mstatus, this`mtval, this`mtval2, this`mtinst
      ensures MretMode(mstatus) == from && MInfo() == info && (39 in mstatus <==> Virtual(from))
      ensures SameBut(mstatus, old(mstatus), MSTATUS_FLUX)
    {
      mstatus := (mstatus - {3, 7, 11, 12, 38, 39})
        + One(7, 3 in mstatus) + One(11, from >= VS) + One(12, from == M) + One(38, info.gva) + One(39, Virtual(from));
      mtval, mtval2, mtinst := info.tval, info.tval2, info.tinst;
    }

    method TrapToHs(from: nat, info: Info)
      requires from < M
      modifies this`mstatus, this`hstatus, this`stval, this`htval, this`htinst
      ensures SretMode(mstatus, hstatus) == from && HsInfo() == info && (7 in hstatus <==> Virtual(from))
      ensures SameBut(mstatus, old(mstatus), MSTATUS_FLUX) && SameBut(hstatus, old(hstatus), HSTATUS_FLUX)
    {
      mstatus := (mstatus - {1, 5, 8}) + One(5, 1 in mstatus) + One(8, Supervisor(from));
      hstatus := (hstatus - {6, 7}) + One(6, info.gva) + One(7, Virtual(from));
      if Virtual(from) {
        hstatus := (hstatus - {8}) + One(8, Supervisor(from));
      }
      stval, htval, htinst := info.tval, info.tval2, info.tinst;
    }

    /** What the registers of M-mode, and of HS-mode, say about the last trap. */
    function MInfo(): Info
      reads this
    {
      Info(mtval, mtval2, mtinst, 38 in mstatus)
    }

    function HsInfo(): Info
      reads this
    {
      Info(stval, htval, htinst, 6 in hstatus)
    }

    method Mret()
      requires mode == M
      modifies this`mode, this`pc, this`mstatus
      ensures mode == MretMode(old(mstatus)) && pc == mepc
      ensures StatusKept()
    {
      mode := MretMode(mstatus);
      mstatus := (mstatus - {3, 11, 12, 39}) + One(3, 7 in mstatus) + {7};
      if mode != M {
        mstatus := mstatus - {17};
      }
      pc := mepc;
    }

    method Sret()
      requires mode == HS || mode == VS
      modifies this`mode, this`pc, this`mstatus, this`hstatus, this`vsstatus
      ensures old(mode) == HS ==> mode == SretMode(old(mstatus), old(hstatus)) && pc == sepc
      ensures old(mode) == VS ==> mode == VsretMode(old(vsstatus)) && pc == vsepc
      ensures StatusKept()
    {
      if mode == HS {
        mode := SretMode(mstatus, hstatus);
        mstatus := (mstatus - {1, 8}) + One(1, 5 in mstatus) + {5};
        mstatus := mstatus - {17};
        hstatus := hstatus - {7};
        pc := sepc;
      } else {
        mode := VsretMode(vsstatus);
        vsstatus := (vsstatus - {1, 8}) + One(1, 5 in vsstatus) + {5};
        pc := vsepc;
      }
    }

    /** `sstatus` is a view of mstatus, but of vsstatus in VS-mode. */
    function Sstatus(): Word
      reads this
    {
      if mode == VS then vsstatus else mstatus * SSTATUS_BITS
    }

    method WriteSstatus(w: Word)
      requires mode == VS || mode == HS
      modifies this`mstatus, this`vsstatus
      ensures mode == VS ==> vsstatus == w && mstatus == old(mstatus)
      ensures mode == HS ==> mstatus == (old(mstatus) - SSTATUS_BITS) + w * SSTATUS_BITS && vsstatus == old(vsstatus)
    {
      if mode == VS {
        vsstatus := w;
      } else {
        mstatus := (mstatus - SSTATUS_BITS) + w * SSTATUS_BITS;
      }
    }

    // -----------------------------------------------------------------------------------------
    // The driver.

    function NextInstruction(epc: nat): nat {
      if compressed(epc) then epc + 2 else epc + 4
    }

    /** What `set_prev_priv` writes is what the return instruction of the mode reads. */
    method SetPrevPriv(priv: nat)
      requires Valid() && mode == currPriv && priv < currPriv && !(currPriv == VS && priv == HU)
      modifies this`mstatus, this`hstatus, this`vsstatus, this`halted
      ensures StatusKept()
      ensures halted == (old(halted) || IsUser(currPriv))
      ensures currPriv == M ==> MretMode(mstatus) == priv
      ensures currPriv == HS ==> SretMode(mstatus, hstatus) == priv
      ensures currPriv == VS ==> VsretMode(vsstatus) == priv
    {
      if currPriv == M {
        var temp := mstatus;
        temp := temp - {11, 12, 39};
        if priv == VS || priv == HS {
          temp := temp + {11};
        }
        if priv == VU || priv == VS {
          temp := temp + {39};
        }
        mstatus := temp;
      } else if currPriv == HS {
        var temp := Sstatus();
        temp := temp - {8};
        if priv == HS || priv == VS {
          temp := temp + {8};
        }
        WriteSstatus(temp);
        temp := hstatus;
        temp := temp - {7, 8};
        if priv == VS {
          temp := temp + {8};
        }
        if priv == VU || priv == VS {
          temp := temp + {7};
        }
        hstatus := temp;
      } else if currPriv == VS {
        WriteSstatus(Sstatus() - {8});
      } else {
        halted := true;
      }
    }

    method LowerPriv(priv: nat)
      requires Valid() && mode == currPriv && !halted
      modifies this`mode, this`pc, this`mstatus, this`hstatus, this`vsstatus, this`mepc, this`sepc, this`vsepc
      modifies this`currPriv, this`realPriv, this`halted
      ensures StatusKept()
      ensures halted <==> priv > old(currPriv) || (old(currPriv) == VS && priv == HU) || (old(currPriv) == HU && priv == VU)
      ensures !halted ==> Valid() && mode == priv && currPriv == priv
    {
      if priv == currPriv {
        return;
      }
      if priv >= currPriv {
        halted := true;
        return;
      }
      if currPriv == VS && priv == HU {
        halted := true;
        return;
      }
      SetPrevPriv(priv);
      if halted {
        return;
      }
      realPriv := priv;
      if currPriv == M {
        mepc := landing;
        Mret();
      } else {
        if mode == VS {
          vsepc := landing;
        } else {
          sepc := landing;
        }
        Sret();
      }
      currPriv := priv;
    }

    /** From every mode to every mode but HU to VS, where it does not return, `goto_priv` terminates. It ends in the
        target mode with all variables saying so; a target that is no mode only spoils `curr_priv`; and VS to HU is
        refused. It does what the function with a bound on its calls does. */
    method GotoPriv(target: nat)
      requires Valid() && !halted && Callable(mode, currPriv, target) && (Delegated() || target == mode == M)
      modifies this
      ensures StatusKept()
      ensures target < PRIV_MAX && !(old(currPriv) == VS && target == HU) ==>
        Valid() && !halted && mode == target && currPriv == target && !onGoing
      ensures target >= PRIV_MAX ==>
        Valid() && !halted && mode == old(mode) && currPriv == target && !onGoing && excpt == old(excpt)
      ensures old(currPriv) == VS && target == HU ==> halted
      ensures Goto(CALLS, old(mode), old(currPriv), target) == if halted then Refused else Arrived(mode, currPriv)
      ensures old(mode != currPriv && mode >= HS) ==> hstatus == old(hstatus)
      ensures old(mode != currPriv && mode == M) ==> mstatus == old(mstatus)
      decreases if IsUser(target) && IsUser(currPriv) then 1 else 0, M - mode, 3
    {
      GotoIs(CALLS, mode, currPriv, target);
      if IsUser(target) && IsUser(currPriv) {
        assert mode == currPriv by { ClimbsUp(mode, target); }
        GotoPriv(M);
      }
      if realPriv == target || target >= PRIV_MAX {
        onGoing := false;
        currPriv := target;
        return;
      }
      onGoing := true;
      if target > currPriv {
        Ecall(ECALL_GOTO_PRIV, target, site(mode));
      } else {
        onGoing := false;
        LowerPriv(target);
      }
    }

    /** An ecall resumes after its own instruction, in the target mode, although the traps nested inside it have
        overwritten the exception registers; the record left is that of the outermost trap. */
    method Ecall(a0: nat, a1: nat, at: nat)
      requires Valid() && Delegated() && !halted && !compressed(at)
      requires a0 == ECALL_GOTO_PRIV && currPriv <= mode < M && currPriv < a1 < PRIV_MAX && Climbs(Above(mode), a1)
      modifies this
      ensures StatusKept()
      ensures Valid() && !halted && mode == a1 && currPriv == a1 && !onGoing
      ensures pc == at + 4
      ensures excpt.priv == Above(old(mode)) && excpt.cause == EcallCause(old(mode)) && excpt.epc == at && excpt.triggered
      ensures old(mode) == HS ==> hstatus == old(hstatus)
      decreases 0, M - mode, 2
    {
      ecallArgs := (a0, a1);
      Take(EcallCause(mode), at, NO_INFO);
    }

    /** Where a trap resumes: an interrupt at the place it interrupted, an instruction fault after the instruction
        that the test names, anything else after its own instruction. */
    function Resume(cause: nat, at: nat, faultInst: nat): nat {
      if IsInterrupt(cause) then at else NextInstruction(if IsInstFault(cause) then faultInst else at)
    }

    /** A trap from entry to return: hardware, the handler of the mode that takes it, hardware again. The record is
        complete but for VS-mode, whose handler leaves some of its fields alone. */
    method Take(cause: nat, at: nat, info: Info)
      requires Valid() && !halted
      requires GotoCall(cause) ==>
        && Delegated() && cause == EcallCause(mode) && currPriv <= mode < M && currPriv < ecallArgs.1 < PRIV_MAX
        && Climbs(Above(mode), ecallArgs.1)
      requires !GotoCall(cause) ==> currPriv == mode
      modifies this
      ensures StatusKept()
      ensures !halted ==> Valid() && mode == currPriv && excpt.triggered && !excpt.testing
      ensures !halted && old(Taker(cause)) != VS ==>
        excpt == Exception(false, true, old(Taker(cause)), cause, at, info, Virtual(old(mode)), 0)
      ensures !halted && old(Taker(cause)) == VS ==>
        excpt.priv == VS && excpt.cause == VsCause(cause) && excpt.epc == at && excpt.info.tval == info.tval
      ensures old(GotoCall(cause)) ==>
        !halted && mode == old(ecallArgs).1 && !onGoing && pc == NextInstruction(at)
      ensures old(!GotoCall(cause)) ==>
        (halted <==> !old(excpt).testing || (IsInstFault(cause) && old(excpt).faultInst == 0)
                     || (IsEcall(cause) && old(Taker(cause)) == HS))
      ensures old(!GotoCall(cause)) && !halted ==> mode == old(mode)
      ensures old(!GotoCall(cause)) && !halted ==>
        pc == if cause >= 0x8000_0000_0000_0000 then at
              else if cause == 0 || cause == 1 || cause == 12 || cause == 20
              then old(excpt).faultInst + (if compressed(old(excpt).faultInst) then 2 else 4)
              else at + (if compressed(at) then 2 else 4)
      ensures old(!GotoCall(cause)) && !halted && IsInterrupt(cause) ==> mip == old(mip) - {Code(cause)}
      ensures old(Taker(cause)) == M ==> hstatus == old(hstatus)
      decreases if GotoCall(cause) then 0 else 1, M - mode, 1
    {
      Enter(cause, at, info);
      var from := Handle(at);
      if !halted {
        Return(from, if old(GotoCall(cause)) then NextInstruction(at) else Resume(cause, at, old(excpt).faultInst));
      }
    }

    /** Trap entry, in the driver's terms: the handler may assume what it needs. */
    method Enter(cause: nat, at: nat, info: Info)
      requires Valid() && !halted
      requires GotoCall(cause) ==>
        && Delegated() && cause == EcallCause(mode) && currPriv <= mode < M && currPriv < ecallArgs.1 < PRIV_MAX
        && Climbs(Above(mode), ecallArgs.1)
      requires !GotoCall(cause) ==> currPriv == mode
      modifies this`mode, this`mstatus, this`hstatus, this`vsstatus
      modifies this`mcause, this`scause, this`vscause, this`mepc, this`sepc, this`vsepc
      modifies this`mtval, this`mtval2, this`mtinst, this`stval, this`htval, this`htinst, this`vstval
      ensures StatusKept() && Program()
      ensures VS <= mode <= M && mode == old(Taker(cause)) && Epc() == at && Entered(Cause())
      ensures Cause() == if mode == VS then VsCause(cause) else cause
      ensures IsEcall(Cause()) == IsEcall(cause) && IsInstFault(Cause()) == IsInstFault(cause)
      ensures IsInterrupt(Cause()) == IsInterrupt(cause)
      ensures mode == VS && IsInterrupt(cause) ==> Code(Cause()) + 1 == Code(cause)
      ensures mode == M ==> MInfo() == info && (39 in mstatus <==> Virtual(old(mode))) && hstatus == old(hstatus)
      ensures mode == HS ==> HsInfo() == info && (7 in hstatus <==> Virtual(old(mode)))
      ensures mode == VS ==> vstval == info.tval
    {
      Trap(cause, at, info);
    }

    /** The cause of the trap that the current mode has taken. */
    function Cause(): nat
      reads this
    {
      if mode == M then mcause else if mode == HS then scause else vscause
    }

    /** The mode's trap vector leads to its handler. */
    method Handle(ghost at: nat) returns (from: nat)
      requires VS <= mode <= M && Epc() == at && Entered(Cause())
      modifies this
      ensures StatusKept() && Program()
      ensures old(GotoCall(Cause())) ==>
        !halted && currPriv == mode == old(ecallArgs).1 && !onGoing && Ready(from, NextInstruction(at))
      ensures old(!GotoCall(Cause())) ==>
        && (halted <==> !old(excpt).testing || (IsInstFault(old(Cause())) && old(excpt).faultInst == 0)
                        || (IsEcall(old(Cause())) && old(mode) == HS))
        && (!halted ==> currPriv == old(currPriv) && Ready(from, Resume(old(Cause()), at, old(excpt).faultInst)))
        && (!halted && IsInterrupt(old(Cause())) ==>
              mip == old(mip) - {Code(old(Cause())) + (if old(mode) == VS then 1 else 0)})
      ensures !halted ==> excpt.triggered && !excpt.testing
      ensures !halted ==> excpt.priv == old(mode) && excpt.cause == old(Cause()) && excpt.epc == at
      ensures !halted && old(mode) == M ==>
        excpt == Exception(false, true, M, old(mcause), at, old(MInfo()), old(39 in mstatus), 0)
      ensures !halted && old(mode) == HS ==>
        excpt == Exception(false, true, HS, old(scause), at, old(HsInfo()), old(7 in hstatus), 0)
      ensures !halted && old(mode) == VS ==> excpt.info.tval == old(vstval)
      ensures old(mode) == M ==> hstatus == old(hstatus) && (!halted ==> from == M)
      decreases 0, M - mode, 5
    {
      if mode == M {
        from := MHandler(at);
      } else if mode == HS {
        from := HsHandler(at);
      } else {
        from := VsHandler(at);
      }
    }

    /** The common end of the three entry points. */
    method Return(from: nat, ghost resume: nat)
      requires Ready(from, resume)
      modifies this`mode, this`pc, this`mstatus, this`hstatus, this`vsstatus
      ensures mode == currPriv && pc == resume && StatusKept()
      ensures from == M ==> hstatus == old(hstatus)
    {
      if from == M {
        Mret();
      } else {
        Sret();
      }
    }

    /** A request to change the mode, as a handler recognises it. */
    predicate GotoCall(cause: nat)
      reads this
    {
      IsEcall(cause) && ecallArgs.0 == ECALL_GOTO_PRIV
    }

    /** What a handler may assume when it starts. */
    ghost predicate Entered(cause: nat)
      reads this
    {
      && Program() && !halted && mode < PRIV_MAX
      && if GotoCall(cause) then
           Delegated() && currPriv < mode && currPriv < ecallArgs.1 < PRIV_MAX && Climbs(mode, ecallArgs.1)
         else currPriv <= mode && (mode == VS ==> Virtual(currPriv))
    }

    /** The return instruction of mode `from` will resume at `resume` in mode `currPriv`. */
    ghost predicate Ready(from: nat, resume: nat)
      reads this
    {
      && from == mode && VS <= mode <= M && realPriv == currPriv
      && (mode == M ==> MretMode(mstatus) == currPriv && mepc == resume)
      && (mode == HS ==> SretMode(mstatus, hstatus) == currPriv && sepc == resume)
      && (mode == VS ==> VsretMode(vsstatus) == currPriv && vsepc == resume)
    }

    /** The exception program counter of the current mode. */
    function Epc(): nat
      reads this
    {
      if mode == M then mepc else if mode == HS then sepc else vsepc
    }

    /** `return_from_exception`: the status bits decode, under the return instruction of `from`, to `to`; the
        program counter steps over the instruction, but for an interrupt, where it is left as it is. */
    method ReturnFromException(from: nat, to: nat, cause: nat, epc: nat)
      requires mode == from && VS <= from && to <= from <= M && to == currPriv == realPriv
      requires from == VS ==> Virtual(to)
      modifies this`mstatus, this`hstatus, this`vsstatus, this`mepc, this`sepc, this`vsepc
      ensures Ready(from, if IsInterrupt(cause) then old(Epc()) else NextInstruction(epc))
      ensures from == M ==> hstatus == old(hstatus)
      ensures StatusKept()
    {
      if from == M {
        var temp := mstatus;
        temp := temp - {7, 11, 12, 39};
        if to == M {
          temp := temp + {11, 12};
        }
        if to == VS || to == HS {
          temp := temp + {11};
        }
        if to == VU || to == VS {
          temp := temp + {39};
        }
        mstatus := temp;
        if !IsInterrupt(cause) {
          mepc := NextInstruction(epc);
        }
      } else {
        if from == HS {
          var temp := hstatus;
          temp := temp - {7};
          if to == VU || to == VS {
            temp := temp + {7};
          }
          hstatus := temp;
        }
        var temp := Sstatus();
        temp := temp - {5, 8};
        if to == VS || to == HS {
          temp := temp + {8};
        }
        WriteSstatus(temp);
        if !IsInterrupt(cause) {
          if from == HS {
            sepc := NextInstruction(epc);
          } else {
            vsepc := NextInstruction(epc);
          }
        }
      }
    }

    /** What the handlers store in the record. */
    method Record(priv: nat, cause: nat, epc: nat, info: Info, xpv: bool)
      modifies this`excpt
      ensures excpt == Exception(false, true, priv, cause, epc, info, xpv, old(excpt).faultInst)
    {
      excpt := excpt.(triggered := true, priv := priv, cause := cause, epc := epc);
      excpt := excpt.(info := info, xpv := xpv, testing := false);
    }

    /** The part that the three handlers share at the end: find where to resume, and prepare the return from whatever
        mode the switch has led to. */
    method Finish(cause: nat, epc: nat) returns (from: nat)
      requires !halted && mode == realPriv && VS <= mode <= M && currPriv <= mode && (mode == VS ==> Virtual(currPriv))
      requires IsInterrupt(cause) ==> Epc() == epc
      modifies this`mstatus, this`hstatus, this`vsstatus, this`mepc, this`sepc, this`vsepc
      modifies this`realPriv, this`excpt, this`halted
      ensures StatusKept()
      ensures halted <==> IsInstFault(cause) && old(excpt).faultInst == 0
      ensures !halted ==> Ready(from, Resume(cause, epc, old(excpt).faultInst))
      ensures !halted ==> excpt == old(excpt).(faultInst := 0)
      ensures mode == M ==> hstatus == old(hstatus)
    {
      var resume := epc;
      if IsInstFault(cause) {
        if excpt.faultInst != 0 {
          resume := excpt.faultInst;
        } else {
          halted := true;
          return 0;
        }
      }
      excpt := excpt.(faultInst := 0);
      from := realPriv;
      realPriv := currPriv;
      ReturnFromException(from, currPriv, cause, resume);
    }

    method MHandler(ghost at: nat) returns (from: nat)
      requires mode == M && mepc == at && Entered(mcause)
      modifies this
      ensures StatusKept() && Program()
      ensures old(GotoCall(mcause)) ==>
        !halted && currPriv == mode == old(ecallArgs).1 && !onGoing && Ready(from, NextInstruction(at))
      ensures old(!GotoCall(mcause)) ==>
        && (halted <==> !old(excpt).testing || (IsInstFault(old(mcause)) && old(excpt).faultInst == 0))
        && (!halted ==> currPriv == old(currPriv) && mode == M
                        && Ready(from, Resume(old(mcause), at, old(excpt).faultInst)))
        && (!halted && IsInterrupt(old(mcause)) ==> mip == old(mip) - {Code(old(mcause))})
      ensures hstatus == old(hstatus)
      ensures !halted ==> excpt == Exception(false, true, M, old(mcause), at, old(MInfo()), old(39 in mstatus), 0)
      decreases 0, M - mode, 4
    {
      realPriv := M;
      var cause, epc := mcause, mepc;
      var tval, tval2, tinst := mtval, mtval2, mtinst;
      if IsEcall(cause) && ecallArgs.0 == ECALL_GOTO_PRIV {
        GotoPriv(ecallArgs.1);
      } else if !excpt.testing {
        halted := true;
        return 0;
      }
      if IsInterrupt(cause) {
        mip := mip - {Code(cause)};
      }
      Record(M, cause, epc, Info(tval, tval2, tinst, 38 in mstatus), 39 in mstatus);
      from := Finish(cause, epc);
    }

    method HsHandler(ghost at: nat) returns (from: nat)
      requires mode == HS && sepc == at && Entered(scause)
      modifies this
      ensures StatusKept() && Program()
      ensures old(GotoCall(scause)) ==>
        !halted && currPriv == mode == old(ecallArgs).1 && !onGoing && Ready(from, NextInstruction(at))
      ensures old(!GotoCall(scause)) ==>
        && (halted <==> IsEcall(old(scause)) || !old(excpt).testing
                        || (IsInstFault(old(scause)) && old(excpt).faultInst == 0))
        && (!halted ==> currPriv == old(currPriv) && mode == HS
                        && Ready(from, Resume(old(scause), at, old(excpt).faultInst)))
        && (!halted && IsInterrupt(old(scause)) ==> mip == old(mip) - {Code(old(scause))})
      ensures !halted ==> excpt == Exception(false, true, HS, old(scause), at, old(HsInfo()), old(7 in hstatus), 0)
      decreases 0, M - mode, 4
    {
      realPriv := HS;
      var cause, epc := scause, sepc;
      var tval, tval2, tinst := stval, htval, htinst;
      if IsEcall(cause) && ecallArgs.0 == ECALL_GOTO_PRIV {
        GotoPriv(ecallArgs.1);
      } else if IsEcall(cause) || !excpt.testing {
        halted := true;
        return 0;
      }
      if IsInterrupt(cause) {
        mip := mip - {Code(cause)};
      }
      Record(HS, cause, epc, Info(tval, tval2, tinst, 6 in hstatus), 7 in hstatus);
      from := Finish(cause, epc);
    }

    method VsHandler(ghost at: nat) returns (from: nat)
      requires mode == VS && vsepc == at && Entered(vscause)
      modifies this
      ensures StatusKept() && Program()
      ensures old(GotoCall(vscause)) ==>
        !halted && currPriv == mode == old(ecallArgs).1 && !onGoing && Ready(from, NextInstruction(at))
      ensures old(!GotoCall(vscause)) ==>
        && (halted <==> !old(excpt).testing || (IsInstFault(old(vscause)) && old(excpt).faultInst == 0))
        && (!halted ==> currPriv == old(currPriv) && mode == VS
                        && Ready(from, Resume(old(vscause), at, old(excpt).faultInst)))
        && (!halted && IsInterrupt(old(vscause)) ==> mip == old(mip) - {Code(old(vscause)) + 1})
      ensures !halted ==> excpt.triggered && !excpt.testing && excpt.priv == VS && excpt.cause == old(vscause)
      ensures !halted ==> excpt.epc == at && excpt.info.tval == old(vstval)
      decreases 0, M - mode, 4
    {
      realPriv := VS;
      var cause, epc := vscause, vsepc;
      var tval := vstval;
      if IsEcall(cause) && ecallArgs.0 == ECALL_GOTO_PRIV {
        GotoPriv(ecallArgs.1);
      } else if !excpt.testing {
        halted := true;
        return 0;
      }
      if IsInterrupt(cause) {
        mip := mip - {Code(cause) + 1};
      }
      Record(VS, cause, epc, excpt.info.(tval := tval), excpt.xpv);
      from := Finish(cause, epc);
    }

    /** Back to M, with clean registers and the delegation that `goto_priv` relies on. */
    method ResetState()
      requires Valid() && !halted && mode == currPriv && (Delegated() || mode == M)
      modifies this
      ensures Valid() && !halted && mode == currPriv == M && !onGoing
      ensures Delegated() && mstatus == {} && hstatus == {} && vsstatus == {}
    {
      GotoPriv(M);
      ClearRegisters();
      SetDelegation();
    }

    method ClearRegisters()
      modifies this`mstatus, this`hstatus, this`vsstatus, this`medeleg, this`hedeleg, this`mideleg, this`hideleg, this`mip
      modifies this`mepc, this`sepc, this`scause, this`vsepc, this`vscause
      ensures mstatus == {} && hstatus == {} && vsstatus == {} && mip == {}
      ensures medeleg == {} && hedeleg == {} && mideleg == {} && hideleg == {}
    {
      mstatus, medeleg, mideleg, mip, mepc := {}, {}, {}, {}, 0;
      sepc, scause := 0, 0;
      hstatus, hideleg, hedeleg := {}, {}, {};
      vsstatus, vsepc, vscause := {}, 0, 0;
    }

    method SetDelegation()
      modifies this`medeleg, this`hedeleg
      ensures medeleg == old(medeleg) + MEDELEG && hedeleg == old(hedeleg) + HEDELEG
    {
      medeleg := medeleg + {8, 10};
      hedeleg := hedeleg + {8};
    }

    /** Any sequence of permitted calls ends in the last target. */
    method GotoEach(targets: seq<nat>)
      requires Valid() && Delegated() && !halted && mode == currPriv
      requires forall i :: 0 <= i < |targets| ==> Permitted(At(currPriv, targets, i), At(currPriv, targets, i + 1))
      modifies this
      ensures StatusKept()
      ensures !halted && Valid() && mode == currPriv == At(old(currPriv), targets, |targets|)
      ensures targets != [] ==> !onGoing
    {
      for i := 0 to |targets|
        invariant StatusKept() && Valid() && Delegated() && !halted
        invariant mode == currPriv == At(old(currPriv), targets, i)
        invariant i > 0 ==> !onGoing
      {
        assert Permitted(At(old(currPriv), targets, i), At(old(currPriv), targets, i + 1));
        GotoPriv(targets[i]);
      }
    }
  }

  predicate Permitted(from: nat, to: nat) {
    to < PRIV_MAX && !(from == HU && to == VS) && !(from == VS && to == HU)
  }

  /** The mode after the first `i` targets. */
  function At(start: nat, targets: seq<nat>, i: nat): nat
    requires i <= |targets|
  {
    if i == 0 then start else targets[i - 1]
  }
}
