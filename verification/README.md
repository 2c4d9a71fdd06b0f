# Verification of the RISC-V IOMMU test driver

The repository is a bare-metal driver and test framework for the RISC-V IOMMU. This project models what its C code does
to the translation tables, the device directory, the in-memory queues, the MSI table, the debug registers and the
privilege mode, puts beside it a reference IOMMU and a reference hart written from the standards, and proves what follows
from the two together. The driver's loops and updates are methods of classes over arrays and fields; each is proved
against a function of the old state, and the results are about those functions. Nothing was executed.

Standards: RISC-V Privileged Architecture, version 20211203 (walks: sections 4.3.2, 4.4, 8.5, 8.5.1); RISC-V IOMMU
Architecture Specification 1.0 (sections 2.1.3, 2.3, 2.3.3, 3.1.1 to 3.1.3, 3.2, chapter 5); RISC-V Advanced Interrupt
Architecture (chapter "IOMMU Support for MSIs to Virtual Machines").

## Modules

- `Bits`: the bitwise operators on natural numbers, and how they relate to arithmetic.
- `PageWalk`: the reference walker: one stage, nested and composed translation.
- `PageTables`, `TableWords`, `Translation`, `TwoStage`: the init loops, what each word decodes to, the closed form of
  each stage, and the two stages together.
- `Swaps`: runs of PTE swaps, aliases, the shape of the tables.
- `Commands`, `Rings`: command encoding and the reference decoder; the command and fault rings.
- `Iotlb`, `IotlbSafety`, `IotlbRuns`, `IotlbTest`: the IOTLB state machine, its invariant, whole runs of the `iotinval`
  test, and that these runs happen.
- `Msi`, `Mrif`: the flat MSI table and the memory-resident interrupt file.
- `DeviceContext`, `Requests`: the device directory, and a request from the directory to its answer.
- `DebugInterface`: the debug translation-request registers.
- `Privilege`: the privilege-mode switcher on a hart with the hypervisor extension.
- `DriverTests`: what the driver's tests expect, in addresses, flag bits and cause codes.

## Assumptions

- RAM and its size satisfy src/page_tables.c:4-14, and half of RAM is at most 512 superpages, because the loops at
  src/page_tables.c:103 and src/page_tables.c:204 have no upper guard.
- The tables are aligned, apart from one another and anywhere in RAM; slots that init never writes are zero, because
  src/asm/boot.S:10-18 clears them. Results on nested translation take `s1pt` to lie where the second stage is the
  identity (`Config.FirstStageSelfMapped`), as it does in the first 2 MiB of RAM, where linker.ld:49 keeps it;
  `TwoStage.SelfMappedIff` says where that is.
- The permission table is any 512 pairs of flag bytes without G and without W unless R.
- The results on where test pages end up take half of RAM to be a whole number of pages; without it the words of the
  second-stage test pages carry stray flag bits, and `TwoStage.NotReached` shows that the pages are missed. What swaps
  leave alone, and the agreement of the IOTLB with the walk, do not depend on it.
- At most 63 commands are outstanding in the runs of the IOTLB; `Rings.FullWriteLosesAll` is what happens otherwise.

## Where the code and its intention differ

- Nothing makes half of memory a whole number of pages, or a quarter: `TwoStage.PagesReachedIff`, `Msi.FilesReachedIff`.
- IOTINVAL's AV flag goes to dword 1, over bit 12 of the address (src/rv_iommu.c:299-300): the IOMMU never sees AV, and the
  command covers every address.
- `rv_iommu_iofence_c` leaves dword 1 unassigned without `av` (src/rv_iommu.c:337-342): `Commands.IofenceC`.
- `rv_iommu_set_msi_flat` writes the pattern twice and the mask never (src/rv_iommu.c:195-196): `DeviceContext.ContextAfter`
  shows that init's mask survives.
- `rv_iommu_dbg_set_did` never clears the old id (src/rv_iommu.c:522): `DebugInterface.LastIdIff`.
- `goto_priv` does not return from HU to VS, and the climb from VU misses HU, which is why it goes through M:
  `Privilege.ClimbsIff`, `Privilege.GotoReturnsIff`.

## Model

| member | source | states |
|---|---|---|
| `TwoStage.NestedAgrees` | src/page_tables.c:73-208 | with `s1pt` where the second stage maps RAM to itself, and the other tables anywhere in RAM: for every 64-bit address and access, translating each first-stage PTE fetch through the second stage gives the same address or the same class of fault as the two walks done separately |
| `TwoStage.SelfMappedIff` | src/page_tables.c:180-208 | a byte of RAM below 4 GiB is mapped to itself by the second stage if and only if it is below 3 GiB, or RAM starts at 3 GiB and the byte is in the window, in every state of a swap |
| `TwoStage.NestedGoesAstray` | src/page_tables.c:180-208 | with `s1pt` elsewhere below 4 GiB and no other table where its address is sent, not even address 0 is translated, where the two separate walks give 0 |
| `TwoStage.TranslateClosedForm` | src/page_tables.c:73-275 | with `s1pt` mapped to itself and half of memory a whole number of pages, the whole translation is the composition of two closed forms, and a walk never leaves the tables (no access fault), for any permission table and any aligned table addresses |
| `Translation.FirstClosedForm` | src/page_tables.c:73-168 | the first stage is the identity on exactly the mapped windows, with the rights of the PTE on the way, and a page fault elsewhere |
| `Translation.SecondClosedForm` | src/page_tables.c:173-275 | the second stage is the identity below 3 GiB, offset maps on the 3, 4 and 5 GiB windows and on the top alias, and a guest fault elsewhere |
| `TwoStage.PageOutcome` | src/page_tables.c:117-240 | an access to a test page is checked by the first-stage PTE in its slot, then by the second-stage PTE in the slot that leads to, and lands on that page's physical page at the same offset |
| `TwoStage.PagesReachedIff` | src/inc/page_tables.h:160-184 | `virt_page_base(i)+o` reaches `phys_page_base(i)+o` for all pages both stages grant, all offsets and accesses, if and only if half of memory is a whole number of pages (the compile-time checks leave that open) |
| `TwoStage.NotReached` | src/page_tables.c:225-240 | without that alignment page 29, which both stages grant, is not reached |
| `TwoStage.PageCause` | src/rv_iommu_tests.c:610-683 | which stage refuses a read, a write or a fetch decides between the page fault and the guest page fault of that kind, by the codes that the fault-queue tests expect |
| `TwoStage.MappedKeepsOffset` | src/page_tables.c:73-275 | a translated address keeps its offset in the page in every state of the tables |
| `TwoStage.LowWindows` | src/rv_iommu_tests.c:420-435 | below 4 GiB: identity up to 3 GiB, then the offset map to the start of RAM, then a fault; this covers the 2 MiB and 1 GiB transfers |
| `TwoStage.SupervisorWindow` | src/page_tables.c:156-167 | the 5 GiB window serves supervisor accesses only, and at all if and only if half of memory is a multiple of 2 MiB |
| `DriverTests.PageByBits` | src/page_tables.c:117-240 | an access to a test page is a page fault unless the first byte of the permission table has V, U and the bit of the kind (for a supervisor: U only with SUM and not to execute), then a guest page fault unless the second byte has V, U and that bit, and else reaches `MEM_BASE + MEM_SIZE/2 + page*0x1000 + o`, inside memory |
| `DriverTests.StressPages` | src/page_tables.c:121-126 | the stress pages grant everything and reach their own addresses |
| `DriverTests.Windows` | src/page_tables.c:73-275 | the windows below 4 GiB and the 5 GiB window by their addresses |
| `PageTables.PageTables.S1ptInit` | src/page_tables.c:73-168 | the loops leave exactly the closed-form image in `s1pt`, given zeroed memory |
| `PageTables.PageTables.S2ptInit` | src/page_tables.c:173-275 | the loops leave exactly the closed-form images in `s2pt_root` and `s2pt` |
| `PageTables.PageTables.S1ptSwitch` | src/page_tables.c:278-282 | swaps two slots of `s1pt` and changes no other |
| `PageTables.PageTables.S2ptSwitch` | src/page_tables.c:285-289 | swaps two slots of `s2pt` and changes no other |
| `PageTables.TestWord` | src/page_tables.c:124-130 | a test page's word is the sum of address field, A, D and the five low flags, for every flag byte without G |
| `TableWords.DecodeS1` | src/page_tables.c:79-167 | every word of `s1pt` decodes to the PTE it was meant to be |
| `TableWords.DecodeS2` | src/page_tables.c:195-274 | every word of `s2pt` decodes to the PTE it was meant to be, if half of memory is a whole number of pages |
| `PageWalk.NestedByPage` | src/rv_iommu_tests.c:540-602 | translation is uniform inside a page, whatever the tables hold, which is what a page-sized cache line relies on |
| `PageWalk.WordsByBits` | src/inc/page_tables.h:25-43 | a word is a leaf for an access, or a pointer, exactly by the bits that the standard names: V, R, W, X, U, A, D, the reserved ones, the page number's alignment, and SUM for a supervisor |
| `Swaps.RunImage` | src/page_tables.c:277-289 | after any run of swaps the tables hold what the parities of the two counts say |
| `Swaps.SwitchParity` | src/page_tables.c:277-289 | after any run of swaps each of the two pages is checked by the PTEs that the parities select and ends on its own physical page by the parity of all swaps |
| `Swaps.SwitchHomeIffEven` | src/page_tables.c:277-289 | SWITCH1 reaches its own physical page if and only if the number of swaps, of both stages together, is even |
| `DriverTests.SwitchedPages` | src/page_tables.c:277-289 | after any run of swaps 0x1_0001_B000 and 0x1_0001_C000 reach the pages at 0x1_B000 and 0x1_C000 of the upper half, each its own exactly after an even number |
| `DriverTests.OtherPagesKeep` | src/page_tables.c:277-289 | every address outside 0x1_0001_B000 to 0x1_0001_CFFF keeps its result |
| `DriverTests.OtherGuestPagesKeep` | src/page_tables.c:210-223 | every guest address outside the four places of the two pages keeps its second-stage result |
| `Swaps.SwapsFrame` | src/page_tables.c:277-289 | every other guest virtual address keeps its result, also in the middle of a swap, for any size of memory |
| `Swaps.SwapsFrameSecond` | src/page_tables.c:285-289 | every guest physical address but the aliases of the two pages keeps its second-stage result, and these too while only `s1pt` changes, for any size of memory |
| `Swaps.Aliases` | src/inc/page_tables.h:169-175 | `s1_page_base_limit(i)+o` and `virt_page_base(i)+o` have the same second-stage result, in every state of the swaps |
| `Swaps.AliasWindows` | src/page_tables.c:210-223 | the gigabytes through root slots 4 and 2047, and the 2 MiB through slots 0 and 511, translate equal offsets alike, in every state of the swaps |
| `Swaps.FirstStageWellFormed` | src/page_tables.c:79-167 | pointers carry V and a PPN inside the tables; leaves are aligned with A and D, never W without R, never G; kept by the swaps |
| `Swaps.SecondStageWellFormed` | src/page_tables.c:195-274 | the same for the second stage, for the 5 GiB leaves if and only if half of memory is a multiple of 2 MiB |
| `Swaps.SecondLeavesHaveUser` | src/page_tables.c:227-274 | all valid second-stage leaves have U if and only if the permission table gives it to every page whose entry is a valid leaf |
| `Iotlb.FirstWalkOk` | src/rv_iommu_tests.c:507-605 | a first-stage walk is up to date even when its PTE fetches go through a possibly stale second-stage cache |
| `Iotlb.LookupOk` | src/rv_iommu_tests.c:507-605 | under the invariant an answer equals the walk, or is for a swapped page with an invalidation due |
| `IotlbSafety.StepKeeps` | src/rv_iommu_tests.c:540-602 | every single store of a swap, every command written and every IOMMU step keeps: each cache line equals the current walk, or is for a swapped page and covered by an invalidation queued or owed |
| `IotlbSafety.NotGlobal` | src/page_tables.c:17-57 | no first-stage walk meets a PTE with G set, so no line is exempt from an invalidation by PSCID |
| `IotlbSafety.AnswersCoherent` | src/rv_iommu_tests.c:540-602 | in every reachable state an answer differs from the uncached walk only for a swapped page and only while an invalidation is due |
| `IotlbSafety.DrainedCoherent` | src/rv_iommu_tests.c:540-602 | once the head has caught the tail with nothing owed, every translation is the uncached walk |
| `IotlbRuns.SharedIdentifiers` | src/rv_iommu_tests.c:564-589 | one IOTINVAL settles every context if and only if all contexts share its identifiers |
| `IotlbRuns.DirectorySettles` | src/rv_iommu.c:112-199 | the tags of the contexts in the device directory, after init and any setters, are settled by the two commands if and only if the identifier arrays give every device the identifiers in the commands |
| `IotlbRuns.DriverSettles` | src/rv_iommu_dc.c:58-93 | the driver's arrays do |
| `IotlbRuns.LedgerRun` | src/rv_iommu_tests.c:540-602 | progress and debts depend on the driver's steps alone, under every interleaving |
| `IotlbRuns.RoundsCoherent` | src/rv_iommu_tests.c:540-602 | after any rounds of swap and invalidate, interleaved in any way with the IOMMU, a drained queue means that every answer is the translation by the tables as they are |
| `IotlbRuns.IotinvalRounds` | src/rv_iommu_tests.c:540-602 | the results the test checks, for any number of rounds and either page |
| `IotlbTest.RoundsHappen` | src/rv_iommu_tests.c:540-602 | from every initial state, for any number of rounds and any fills and evictions before each, the rounds are a possible run that drains the queue, and it has those results |
| `IotlbTest.TestFillsAreOwn` | src/rv_iommu_tests.c:540-547 | the fills of the test's own transfers are among these |
| `IotlbTest.OwnStepsAnywhere` | src/rv_iommu_tests.c:540-602 | wherever a run may be interrupted, between the stores of a swap or with an invalidation owed or queued, the IOMMU may fill and evict, and the rest of the run goes on |
| `DriverTests.IotinvalTest` | src/rv_iommu_tests.c:507-605 | the test on its own platform: SWITCH1 is written at 0x8801_B000, after one round at 0x8801_C000, after two at 0x8801_B000 again |
| `IotlbTest.VmaDrops` | src/rv_iommu_tests.c:564-564 | the VMA drops exactly the non-global first-stage and combined lines of its identifiers |
| `IotlbTest.GvmaDrops` | src/rv_iommu_tests.c:589-589 | the GVMA drops exactly the second-stage and combined lines of its guest |
| `IotlbTest.GlobalLines` | src/rv_iommu_tests.c:564-564 | PTEs with G would make lines that the VMA leaves alone |
| `IotlbTest.EvictionRestores` | src/rv_iommu_tests.c:507-605 | with everything evicted, in whatever state, the answer is the uncached walk |
| `IotlbRuns.StaleWithoutInvalidation` | src/rv_iommu_tests.c:550-570 | without the invalidation there is a run whose answer is the old one, by the old PTEs, where the tables now say otherwise |
| `IotlbTest.StaleFirstLine` | src/rv_iommu_tests.c:550-570 | one stale first-stage line is enough for the old answer |
| `IotlbTest.StaleSecondLine` | src/rv_iommu_tests.c:573-595 | one stale second-stage line is enough for the old answer |
| `IotlbRuns.Drains` | src/rv_iommu.c:207-220 | a queue of legal commands drains in as many steps as it is long |
| `Rings.CommandFifoIff` | src/rv_iommu.c:207-235 | over every run, across any number of wraps: executed plus queued is exactly what was written, in order, if and only if no write of the run finds 63 outstanding |
| `Rings.RefinesFifo` | src/rv_iommu.c:207-235 | over such a run the ring is an unbounded queue: same commands outstanding, same executed |
| `Rings.EachHitExecutes` | src/rv_iommu.c:207-235 | each fetch that finds a command executes one |
| `Rings.FetchesExecuteAll` | src/rv_iommu.c:207-235 | as many fetches as commands are outstanding execute all that was written |
| `Rings.PushItems` | src/rv_iommu.c:207-220 | a write appends while fewer than 63 are outstanding and at 63 makes the ring look empty |
| `Rings.FullWriteLosesAll` | src/rv_iommu.c:207-220 | the write that finds 63 outstanding loses 64 commands; nothing checks |
| `Rings.FaultConservation` | src/rv_iommu.c:354-398 | over every run appended is read plus queued, in order, and both are order-preserving subsequences of the faults |
| `Rings.NothingDropped` | src/rv_iommu.c:354-398 | a run loses a fault if and only if some fault finds 63 records queued |
| `Rings.RecordedIff` | src/rv_iommu.c:354-398 | a fault is recorded if and only if fqof is clear and fewer than 63 records are queued |
| `Rings.ReadsTakeAll` | src/rv_iommu.c:373-398 | as many reads as records are queued read all that was recorded |
| `Rings.SlotAddress` | src/rv_iommu.c:211-211 | the or-built slot address is base plus offset |
| `Rings.CommandQueue.WriteCommand` | src/rv_iommu.c:207-220 | the two stores and the tail update push the command; the register keeps six bits of the index |
| `Rings.CommandQueue.Init` | src/rv_iommu.c:222-235 | the queue starts empty |
| `Rings.CommandQueue.Fetch` | src/rv_iommu.c:207-235 | the IOMMU takes the oldest command |
| `Rings.CommandQueue.Steps` | src/rv_iommu.c:207-235 | any sequence of writes and fetches does to memory and registers what the run of the ring says, and the commands fetched are those executed in it |
| `Rings.FaultQueue.ReadRecord` | src/rv_iommu.c:373-398 | returns -1 iff the queue is empty; otherwise takes the oldest record and leaves the rest |
| `Rings.FaultQueue.Report` | src/rv_iommu.c:354-398 | the IOMMU appends a record, or drops it if the queue is full or fqof is set |
| `Rings.FaultQueue.Init` | src/rv_iommu.c:354-369 | the queue starts empty |
| `Rings.FaultQueue.Steps` | src/rv_iommu.c:354-398 | any sequence of faults, reads and clearings of fqof does what the run of the ring says, and the records read are those read in it |
| `Commands.IotinvalVma` | src/rv_iommu.c:281-303 | decodes to its operands, and, AV being put in the wrong dword, always to a command without an address |
| `Commands.IotinvalGvma` | src/rv_iommu.c:305-323 | the same for GVMA |
| `Commands.IofenceC` | src/rv_iommu.c:325-345 | decodes to its operands with AV; without AV it is legal if and only if the unassigned dword happens to have its two top bits clear |
| `Commands.DdtInval` | src/rv_iommu.c:266-279 | decodes to its operands, reserved bits zero |
| `Commands.InducedFault` | src/rv_iommu.c:252-264 | decodes as illegal |
| `Commands.AddressLosesBit12` | src/rv_iommu.c:299-320 | two addresses get the same IOTINVAL if and only if they agree above bit 12 |
| `Msi.ExtractBijection` | src/page_tables.c:291-328 | for every mask and pattern, extraction is a bijection from the matching page numbers onto [0, 2^popcount(mask)), with an explicit inverse |
| `Msi.MaskFitsTable` | src/inc/rv_iommu_dc.h:43-45 | the driver's mask numbers exactly 32 interrupt files |
| `Msi.FlatTable` | src/page_tables.c:291-331 | a lookup is in bounds and finds a basic entry for `MSI_BASE_IF_SPA + k*4096`, or the MRIF entries 20 and 21 with address, notice page and data recovered exactly, or the custom entry 23 |
| `Msi.FlatInjective` | src/page_tables.c:301-307 | two matching page numbers never reach the same basic page |
| `Msi.FilesReachedIff` | src/page_tables.c:301-307 | the basic entries reach their pages if and only if a quarter of memory is a whole number of pages |
| `Msi.MrifEntryIs` | src/page_tables.c:314-316 | the packed entry gives back address, notice page and 11-bit data, for all of them |
| `Msi.TestFile` | src/inc/page_tables.h:147-151 | the five MSI test pages match and select entries 17, 19, 20, 21 and 23 |
| `Msi.MsiTable.MsiPtInit` | src/page_tables.c:291-331 | the loops and stores leave exactly the flat table |
| `Mrif.MacroIndexing` | src/inc/page_tables.h:97-107 | the macros give dword 2*(id/64), the next one, and bit id mod 64, inside the file below 2048 |
| `Mrif.MacrosInjective` | src/inc/page_tables.h:97-107 | different identities have different places, and pending and enable words never coincide |
| `Mrif.DeliveryRun` | src/rv_iommu_tests.c:982-1110 | over any run of MSIs exactly the delivered identities become pending, enables are untouched, and the notices are those of enabled identities |
| `Mrif.InitialisedFlags` | src/page_tables.c:336-350 | what `mrif_init` does to every identity's two flags, the 63 neighbours included |
| `Mrif.InterruptFile.MrifInit` | src/page_tables.c:336-350 | leaves that state |
| `Mrif.MrifSupport` | src/rv_iommu_tests.c:982-1110 | what the test checks of entries 20, 21 and 23, the fault code of the last included, and of an invalid identity |
| `DeviceContext.ContextAfter` | src/rv_iommu.c:112-199 | after init and any run of setters the devices in [1, 15] have the configured context in the modes set last, the mask included, and no other device has one |
| `DeviceContext.FlatKeepsMask` | src/rv_iommu.c:188-199 | `set_msi_flat` keeps whatever mask the entry held |
| `DeviceContext.Directory.DdtInit` | src/rv_iommu.c:112-137 | both loops, entry by entry |
| `DeviceContext.Directory.SetIosatp` | src/rv_iommu.c:139-155 | rewrites `ta` and `fsc` of the devices in use and nothing else |
| `DeviceContext.Directory.SetIohgatp` | src/rv_iommu.c:157-173 | rewrites `iohgatp` of the devices in use and nothing else |
| `DeviceContext.Directory.SetMsiOff` | src/rv_iommu.c:175-186 | rewrites the MSI fields |
| `DeviceContext.Directory.SetMsiFlat` | src/rv_iommu.c:188-199 | rewrites pointer and pattern, not the mask |
| `Requests.RequestAnswer` | src/rv_iommu_tests.c:280-495 | after any setters, a request of a device in use gets the composition of the stages that are on, or the MSI entry; any other device gets nothing |
| `Requests.PageRequest` | src/rv_iommu_tests.c:280-495 | for every mode, test page, offset and access: the address that the drivers expect |
| `DriverTests.TwoStageTest` | src/rv_iommu_tests.c:402-495 | the pages that `two_stage_translation` reads and writes, by address, on the driver's platform and permission table, whatever setters ran before |
| `DriverTests.SuperpagesTest` | src/rv_iommu_tests.c:420-480 | its 2 MiB and 1 GiB transfers, by address |
| `DriverTests.SecondStageOnlyTest` | src/rv_iommu_tests.c:335-391 | the pages of `second_stage_only`, by address |
| `DriverTests.BothBareTest` | src/rv_iommu_tests.c:280-327 | `both_stages_bare` reaches the physical addresses asked for |
| `DriverTests.FaultTests` | src/rv_iommu_tests.c:610-679 | WSI_R and MSI_GEN_R fault with cause 13, WSI_W and MSI_GEN_W with cause 23 |
| `DriverTests.InterruptFileTests` | src/inc/page_tables.h:147-151 | the five interrupt files find the entries at 0x8401_1000 and 0x8401_3000, the two MRIF entries and the custom one |
| `DriverTests.Cva6Fits` | src/page_tables.c:17-57 | the driver's own memory and permission table meet all the assumptions |
| `DriverTests.SystemExists` | platform/cva6/inc/platform.h:4-5 | there is a system as all these results take it, with an initial state of its IOTLB, whose directory has the identifiers of the test |
| `DebugInterface.FlagsRun` | src/rv_iommu.c:519-580 | over any sequence of setters every bit below the device id has the value last given to it |
| `DebugInterface.SettersByBit` | src/rv_iommu.c:519-580 | over any sequence bit 32 is the argument of the last PV setter, bit 1 of PRIV, bit 2 of EXE, bit 3 the negation of the last read-write one, bit 0 is set iff GO was given or set, and every other bit below 40 is as before |
| `DebugInterface.DidRun` | src/rv_iommu.c:519-525 | the device-id field is the or of all ids ever given, and no other setter touches it |
| `DebugInterface.LastIdIff` | src/rv_iommu.c:519-525 | from a cleared register the field is the last id if and only if that id covers every earlier one |
| `DebugInterface.SuperpageEncoding` | src/rv_iommu.c:607-620 | for every x and base aligned to 2^x: counting trailing ones of `base or (2^x - 1)` gives x if and only if base is aligned to 2^(x+1), and clearing them recovers base |
| `DebugInterface.DebugRegisters.PpnEncodeX` | src/rv_iommu.c:607-620 | the loop terminates with the number of trailing ones of the PPN field |
| `DebugInterface.DebugRegisters.TranslatedPpn` | src/rv_iommu.c:601-605 | bits 53 to 10 of the response |
| `DebugInterface.DebugRegisters.IsComplete` | src/rv_iommu.c:582-587 | true iff GO is clear, in spite of the operators' precedence |
| `DebugInterface.DebugRegisters.SetDid` | src/rv_iommu.c:519-525 | the device-id field becomes the or of what it was and the id; every bit below keeps its value |
| `DebugInterface.DebugRegisters.SetPv` | src/rv_iommu.c:527-537 | bit 32 becomes the argument, every other bit keeps its value |
| `DebugInterface.DebugRegisters.SetPriv` | src/rv_iommu.c:539-549 | bit 1 becomes the argument, every other bit keeps its value |
| `DebugInterface.DebugRegisters.SetRw` | src/rv_iommu.c:551-561 | bit 3 becomes the negation of the argument, every other bit keeps its value |
| `DebugInterface.DebugRegisters.SetExe` | src/rv_iommu.c:563-573 | bit 2 becomes the argument, every other bit keeps its value |
| `DebugInterface.DebugRegisters.SetGo` | src/rv_iommu.c:575-580 | bit 0 becomes one, every other bit keeps its value |
| `DebugInterface.DebugRegisters.SetTrReqIova` | src/rv_iommu.c:504-507 | the page's base address |
| `Privilege.Hart.GotoPriv` | src/rvh_test.c:123-156 | terminates for every pair but HU to VS, and ends with hardware mode, `real_priv` and `curr_priv` equal to the target and `on_going` false; VS to HU is refused; status bits outside the trap fields are unchanged; the outcome is that of the function with bounded calls |
| `Privilege.Hart.GotoEach` | src/rvh_test.c:123-156 | any sequence of permitted calls ends in its last target |
| `Privilege.Hart.Ecall` | src/rvh_test.c:26-36 | resumes after its own ecall in the target mode, with the record of the outermost trap |
| `Privilege.Hart.Take` | src/rvh_test.c:211-360 | a trap from entry to return: a mode switch ends in its target, an exception or interrupt under test resumes where it came from, in the mode it came from, with its record, and anything else halts, exactly when |
| `Privilege.Hart.MHandler` | src/rvh_test.c:211-262 | whatever was nested inside, the return instruction of the mode reached resumes after the handler's own trap in `curr_priv` |
| `Privilege.Hart.HsHandler` | src/rvh_test.c:264-320 | the same for HS; any other ecall halts |
| `Privilege.Hart.VsHandler` | src/rvh_test.c:322-360 | the same for VS |
| `Privilege.Hart.ReturnFromException` | src/rvh_test.c:183-209 | the bits written decode under `mret` or `sret` to the mode meant, unrelated bits unchanged |
| `Privilege.Hart.LowerPriv` | src/rvh_test.c:79-118 | ends in the lower mode or halts, and exactly when |
| `Privilege.Hart.SetPrevPriv` | src/rvh_test.c:45-77 | what it writes is what the return instruction reads |
| `Privilege.Hart.ResetState` | src/rvh_test.c:366-424 | establishes the delegation that the switcher relies on |
| `Privilege.AboveRises` | src/rvh_test.c:412-418 | under the configured delegation each ecall strictly raises the mode, until M |
| `Privilege.ClimbsIff` | src/rvh_test.c:149-150 | nested ecalls from a lower mode meet the target but for HU to VS and VU to HU |
| `Privilege.GotoIs` | src/rvh_test.c:123-156 | wherever it may be called, six nested calls are enough for `goto_priv` to arrive or be refused as expected |
| `Privilege.GotoReturnsIff` | src/rvh_test.c:123-156 | from one mode to another `goto_priv` returns, or is refused, at some bound on its nested calls if and only if it is not from HU to VS |
| `Privilege.NeverReturns` | src/rvh_test.c:149-150 | from HU to VS every call makes another one, at any bound |

## Left out

- TwoStage.NestedAgrees: does not cover `s1pt` above 4 GiB, where the second stage maps test pages rather than RAM to itself.
- Privilege.Hart.GotoPriv: excludes HU to VS by precondition, because the call does not return; `Privilege.GotoReturnsIff` is about that pair.
- Privilege.Hart.Take: of the record of a trap to VS, the fields that its handler does not write (tval2, tinst, gva, xpv) are left open; a pending bit that software cannot clear is not told from one that it can.
- Privilege.Hart.ResetState: the CSRs that the switcher never reads (pmp, satp, interrupt enables) are not modelled.
- Privilege: saved registers: x30 and x31 share a slot (src/asm/handlers.S:37-38), so their restoring is not claimed.
- PageTables.PageTables.S1ptInit: addresses are unbounded integers, so a wrap-around of `MEM_BASE + MEM_SIZE/2` beyond 64 bits is not modelled; half of memory of at most 1 GiB excludes it.
- Iotlb.Next: a walk and the fill it leads to are one step; a walk in flight counts as filled, since an invalidation has to cover it all the same. Lines hold the outcome for one access, faults included, rather than rights.
- Iotlb.HitsFirst: caches of the device directory and of non-leaf PTEs are not modelled; neither is changed by the swaps.
- Iotlb.Initial: both stages are on in every context; a VMA for host address spaces touches no line.
- Requests.Request: the tables are those before any swap, and contexts are read from the directory, not from a cache of it.
- Requests.Process: the checks on reserved context modes and the process directory, which the driver never uses, are not modelled.
- Mrif.Deliver: the big-endian and misaligned forms of an MSI write are not modelled.
- Register access, polling loops (cqon, fqon, busy bits), fences and log output.
- The iDMA, beyond a read and a write through the translation function.
- Hardware performance counters, the latency and stress tests: timing and random choice.
- The MSI configuration table and the interrupt vectors: straight-line register writes.
