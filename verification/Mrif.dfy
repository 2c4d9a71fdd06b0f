/** The memory-resident interrupt file (src/page_tables.c:336-350, src/inc/page_tables.h:97-107) and how the IOMMU
    delivers into it (chapter "IOMMU Support for MSIs to Virtual Machines" of the RISC-V AIA). */
module Mrif {
  import opened Bits
  import opened PageWalk
  import opened Msi

  const MRIF_WORDS: nat := 64

  /** INT_IP_IDX, INT_IE_IDX and INT_MASK of src/inc/page_tables.h for an identity. */
  function IpIndex(id: nat): nat {
    AndNot(id / 4, 0xF) / 8
  }

  function IeIndex(id: nat): nat {
    IpIndex(id) + 1
  }

  function IntMask(id: nat): nat {
    Pow2(And(id, 0x3F))
  }

  /** The macros find the standard's layout: identity `id` is bit `id % 64` of dword `2 * (id / 64)` for its
      pending flag and of the next dword for its enable flag. */
  lemma MacroIndexing(id: nat)
    ensures IpIndex(id) == 2 * (id / 64) && IeIndex(id) == 2 * (id / 64) + 1 && IntMask(id) == Pow2(id % 64)
    ensures id < 2048 ==> IeIndex(id) < MRIF_WORDS
  {
    assert Pow2(4) == 16 && Pow2(6) == 64 && Pow2(0) == 1 by { Pow2Values(); }
    AndPlusAndNot(id / 4, 0xF);
    AndField(id / 4, 0, 4);
    AndField(id, 0, 6);
    OffsetIndex(id);
  }

  lemma OffsetIndex(id: nat)
    ensures (id / 4 - id / 4 % 16) / 8 == 2 * (id / 64)
  {
    var q, r := id / 64, id % 64;
    DivUnique(id, 4, 16 * q + r / 4, r % 4);
    DivUnique(16 * q + r / 4, 16, q, r / 4);
  }

  /** Different identities have different places, and no pending flag shares a dword with an enable flag. */
  lemma MacrosInjective(a: nat, b: nat)
    requires a != b
    ensures IpIndex(a) != IpIndex(b) || (IntMask(a) != IntMask(b) && !Bit(IntMask(a), b % 64))
    ensures IpIndex(a) != IeIndex(b)
  {
    MacroIndexing(a);
    MacroIndexing(b);
    Pow2Bit(a % 64, a % 64);
    Pow2Bit(a % 64, b % 64);
    Pow2Bit(b % 64, a % 64);
  }

  predicate Pending(mrif: seq<nat>, id: nat)
    requires |mrif| == MRIF_WORDS && id < 2048
  {
    Bit(mrif[2 * (id / 64)], id % 64)
  }

  predicate Enabled(mrif: seq<nat>, id: nat)
    requires |mrif| == MRIF_WORDS && id < 2048
  {
    Bit(mrif[2 * (id / 64) + 1], id % 64)
  }

  /** A write of `data` to a notice page. */
  datatype Notice = Notice(addr: nat, data: nat)

  /** Storing an MSI in an MRIF: data that are not an identity are discarded; otherwise the pending flag is set,
      and a notice goes out if the identity is enabled. */
  function Deliver(mrif: seq<nat>, data: nat, nppn: nat, nid: nat): (r: (seq<nat>, seq<Notice>))
    requires |mrif| == MRIF_WORDS
    ensures |r.0| == MRIF_WORDS
  {
    if data >= 2048 then (mrif, [])
    else
      MacroIndexing(data);
      (mrif[IpIndex(data) := Or(mrif[IpIndex(data)], IntMask(data))],
       if Enabled(mrif, data) then [Notice(nppn * PAGE, nid)] else [])
  }

  /** A delivery sets its own pending flag and changes no other flag of any identity. */
  lemma DeliverSetsOne(mrif: seq<nat>, data: nat, nppn: nat, nid: nat, id: nat)
    requires |mrif| == MRIF_WORDS && id < 2048
    ensures var m := Deliver(mrif, data, nppn, nid).0;
      && (Pending(m, id) <==> Pending(mrif, id) || id == data)
      && (Enabled(m, id) <==> Enabled(mrif, id))
  {
    if data < 2048 {
      MacroIndexing(data);
      SetsOneBit(mrif[2 * (data / 64)], data % 64, id % 64);
      SamePlace(id, data);
    }
  }

  lemma SamePlace(a: nat, b: nat)
    ensures a == b <==> a / 64 == b / 64 && a % 64 == b % 64
  {
    var q, r, q', r' := a / 64, a % 64, b / 64, b % 64;
    assert a == 64 * q + r && b == 64 * q' + r';
  }

  lemma SetsOneBit(word: nat, k: nat, i: nat)
    ensures Bit(Or(word, Pow2(k)), i) <==> Bit(word, i) || i == k
  {
    Pow2Bit(k, i);
    OrBit(word, Pow2(k), i);
  }

  datatype Message = Message(data: nat, nppn: nat, nid: nat)

  function DeliverAll(mrif: seq<nat>, msis: seq<Message>): (r: (seq<nat>, seq<Notice>))
    requires |mrif| == MRIF_WORDS
    ensures |r.0| == MRIF_WORDS
    decreases |msis|
  {
    if msis == [] then (mrif, [])
    else
      var step := Deliver(mrif, msis[0].data, msis[0].nppn, msis[0].nid);
      var rest := DeliverAll(step.0, msis[1..]);
      (rest.0, step.1 + rest.1)
  }

  /** The notices of a run: one for each MSI whose identity is enabled, in order. */
  function NoticesDue(mrif: seq<nat>, msis: seq<Message>): seq<Notice>
    requires |mrif| == MRIF_WORDS
  {
    if msis == [] then []
    else
      (if msis[0].data < 2048 && Enabled(mrif, msis[0].data) then [Notice(msis[0].nppn * PAGE, msis[0].nid)] else [])
      + NoticesDue(mrif, msis[1..])
  }

  lemma {:induction false} NoticesDependOnEnables(m: seq<nat>, n: seq<nat>, msis: seq<Message>)
    requires |m| == MRIF_WORDS && |n| == MRIF_WORDS
    requires forall id: nat | id < 2048 :: Enabled(m, id) <==> Enabled(n, id)
    ensures NoticesDue(m, msis) == NoticesDue(n, msis)
  {
    if msis != [] {
      NoticesDependOnEnables(m, n, msis[1..]);
    }
  }

  /** Over any run of MSIs: an identity ends up pending iff it was pending or was delivered, the enables stay as
      they were, and the notices are those of the enabled identities, no more and no fewer. */
  lemma {:induction false} DeliveryRun(mrif: seq<nat>, msis: seq<Message>)
    requires |mrif| == MRIF_WORDS
    ensures var r := DeliverAll(mrif, msis);
      && (forall id: nat | id < 2048 :: Pending(r.0, id) <==> Pending(mrif, id) || Delivered(msis, id))
      && (forall id: nat | id < 2048 :: Enabled(r.0, id) <==> Enabled(mrif, id))
      && r.1 == NoticesDue(mrif, msis)
    decreases |msis|
  {
    if msis != [] {
      var m := Deliver(mrif, msis[0].data, msis[0].nppn, msis[0].nid).0;
      forall id: nat | id < 2048
        ensures Pending(m, id) <==> Pending(mrif, id) || id == msis[0].data
        ensures Enabled(m, id) <==> Enabled(mrif, id)
      {
        DeliverSetsOne(mrif, msis[0].data, msis[0].nppn, msis[0].nid, id);
      }
      DeliveryRun(m, msis[1..]);
      NoticesDependOnEnables(m, mrif, msis[1..]);
      forall id: nat
        ensures Delivered(msis, id) <==> id == msis[0].data || Delivered(msis[1..], id)
      {
        DeliveredFirst(msis, id);
      }
    }
  }

  predicate Delivered(msis: seq<Message>, id: nat) {
    exists i :: 0 <= i < |msis| && msis[i].data == id
  }

  lemma DeliveredFirst(msis: seq<Message>, id: nat)
    requires msis != []
    ensures Delivered(msis, id) <==> id == msis[0].data || Delivered(msis[1..], id)
  {
  }

  // ---------------------------------------------------------------------------------------------
  // The driver's interrupt file.

  const INT_ID_1: nat := 300
  const INT_ID_2: nat := 600

  /** What `mrif_init` leaves in the file. */
  function Initialised(m: seq<nat>): (r: seq<nat>)
    requires |m| == MRIF_WORDS
    ensures |r| == MRIF_WORDS
  {
    var i, j := 2 * (INT_ID_1 / 64), 2 * (INT_ID_2 / 64);
    m[i := 0][i + 1 := Pow2(INT_ID_1 % 64)][j := 0][j + 1 := 0]
  }

  /** Identity 1 is cleared and enabled, identity 2 cleared and disabled. The dwords written hold 64 identities
      each, so their neighbours are cleared and disabled too; all the others keep their flags. */
  lemma InitialisedFlags(m: seq<nat>, id: nat)
    requires |m| == MRIF_WORDS && id < 2048
    ensures Enabled(Initialised(m), id) <==>
      if id / 64 == 300 / 64 then id == 300 else id / 64 != 600 / 64 && Enabled(m, id)
    ensures Pending(Initialised(m), id) <==> id / 64 != 300 / 64 && id / 64 != 600 / 64 && Pending(m, id)
  {
    ZeroBit(id % 64);
    Pow2Bit(INT_ID_1 % 64, id % 64);
  }

  class InterruptFile {
    const words: array<nat>

    predicate Valid()
      reads this
    {
      words.Length == MRIF_WORDS
    }

    method MrifInit()
      requires Valid()
      modifies words
      ensures words[..] == Initialised(old(words[..]))
    {
      MacroIndexing(INT_ID_1);
      MacroIndexing(INT_ID_2);
      words[IpIndex(INT_ID_1)] := 0;
      words[IeIndex(INT_ID_1)] := IntMask(INT_ID_1);
      words[IpIndex(INT_ID_2)] := 0;
      words[IeIndex(INT_ID_2)] := 0;
    }
  }

  /** `mrif_support`: through MSI_W3 identity 1 becomes pending and its notice carries NOTICE_DATA to
      NOTICE_ADDR_1, while 0xFFF, no identity, is discarded; through MSI_W4 identity 2 becomes pending without a
      notice; the entry of MSI_W5 has the custom bit set and faults as not valid. */
  lemma MrifSupport(base: nat, mrifAddr: nat, mrif: seq<nat>, page: nat, k: nat)
    requires base % PAGE == 0 && base < 0x80_0000_0000_0000 && mrifAddr % 512 == 0 && mrifAddr / 4 < B54
    requires |mrif| == MRIF_WORDS && Enabled(mrif, 300) && !Enabled(mrif, 600)
    requires (page, k) in {(MSI_W3, 20), (MSI_W4, 21), (MSI_W5, 23)}
    ensures Pow2(PopCount(MSI_ADDR_MASK)) == MSI_N_ENTRIES
    ensures var e := MsiLookup(FlatImage(base, mrifAddr), 0x10_0000 + page, MSI_ADDR_MASK);
      if page == MSI_W5 then e == Custom && MsiCause(e) == 262
      else
        && e.ToMrif? && e.addr == mrifAddr
        && Deliver(mrif, 0xFFF, e.nppn, e.nid) == (mrif, [])
        && var id := if page == MSI_W3 then 300 else 600;
           var r := Deliver(mrif, id, e.nppn, e.nid);
           && Pending(r.0, id)
           && r.1 == if page == MSI_W3 then [Notice(0x8300_8000, 0x7AC)] else []
  {
    TestFile(page, k);
    FlatTable(base, mrifAddr, 0x10_0000 + page);
    if page != MSI_W5 {
      var id := if page == MSI_W3 then 300 else 600;
      var e := FlatEntry(base, mrifAddr, k);
      DeliverSetsOne(mrif, id, e.nppn, e.nid, id);
    }
  }
}
