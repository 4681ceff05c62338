# Verified model of a compliance suite's core

The RISC-V server SoC test suite runs compliance tests on bare hardware. This project models the
five parts of it that carry real algorithms over unbounded state, and proves what they promise:

* **Page tables** (`Bits`, `Descriptors`, `PageTree`, `FillSpec`, `FillProof`, `CounterProof`,
  `BuildSteps`, `LoopProof`, `Builder`, `Landing`, `Placement`, `Misplacement`, `PageBudget`, `Walk`,
  `Regions`, `PageTables`, `RegionTheorems`, `UnsupportedRegions`, `PageTableTheorems`, `MmuSetup`): the
  recursive builder, the software walker and the destroyer of VMSAv8-64 translation tables, over a
  memory of 512-word pages with a page allocator. `PageTree` gives the tree a memory image stands for.
  `Builder.Built` says what the builder makes of a tree for every run of pages, whatever is mapped
  already, and the methods are proved to do exactly that; `Landing.Landed` says which page's frame ends
  up in a place. `Walk.Translate` is an independent reading of the image as section D8.3 of Arm DDI 0487
  defines it.
* **I/O virtualisation tables** (`IoVirt`, `Iort`, `IoVirtTable`, `MappingOverlap`, `OverlapCheck`,
  `IoVirtLookup`, `IoVirtNodes`, `LookAlikes`, `ItsLookup`): flattening a graph of ACPI IORT nodes (Arm DEN 0049)
  into packed blocks with offset references, marking overlapping ID mappings, and the lookups from
  requester ID to stream, device and ITS ID.
* **The multi-hart protocol** (`Status`, `HartProtocol`, `HartSafety`, `HartHazards`, `HartTiming`, `TestInfra`):
  one primary and any number of secondaries as interleaved steps over shared mailboxes and status
  slots, any number of tests one after the other; and the suite's selection rules and counters.
* **PCIe** (`PcieConfig`, `BdfIterator`, `Capability`, `Hierarchy`): configuration space through ECAM
  windows, the walk over all functions, two capability searches, and root-port lookup.
* **Register probing** (`BitField`): deciding a field's attribute by writing and reading back.

`Common` holds what they share. `dafny verify dfyconfig.toml` checks everything.

## Where the code falls short of what it is for

Each of these is stated as a lemma or a clause, with the exact condition.

* A region of unmapped bytes within the input range is translated as wanted, all of it, if and only if
  four conditions hold (`RegionTheorems.RegionComplete`). The run of its pages starts on an entry boundary
  of a table that holds all of it (`Regions.DomainIff`); nothing of it becomes a block at level 0; the
  counters do not clip it; and its length is not 1 modulo 4096, which loses the last byte.
* Where a run leaves the entry it starts in, the first page beyond the entry never gets its frame, whatever
  the counters (`UnsupportedRegions.FrameMissing`). Into an empty table and unclipped, a region within the
  input range is added without a page in a wrong place if and only if its run is a supported one
  (`UnsupportedRegions.PlacedIff`). After 2 MiB from VA 0x1000 on, VA 0 has the frame of the last page and
  VA 0x200000 none (`UnsupportedRegions.UnsupportedRegion`).
* A region that goes beyond the input range wraps around: its first page beyond the range gets the place of
  VA 0 (`UnsupportedRegions.Beyond`), for example with 1 TiB from VA 2^39 on in a 40-bit range
  (`UnsupportedRegions.WrappedRegion`).
* Wherever the addresses allow it the builder writes a block at level 0, which the architecture does not have:
  hardware translates none of its addresses (`RegionTheorems.TopBlock`), while the walker reports the
  region's attributes (`PageTableTheorems.TopWalked`). 512 GiB from VA 0 to PA 0 are such a region
  (`UnsupportedRegions.TopRegion`).
* A block loses pages if and only if a table was in its place, and then the pages of that table
  (`Builder.BlockLoses`): destroying gives them back no more (`MmuSetup.SetupThenDestroy`). Regions that share
  no page with what is mapped lose none. 4 KiB and then 2 MiB at VA 0 lose a page (`MmuSetup.TableLost`).
* A create that runs out of pages puts the root on the free list, also the root of a table that the caller
  gave and still holds (`Pgt.PageTables.Create`).
* The builder's entry counters are global and carried from one create call to the next. They can clip a
  region, which is then mapped in part while the call still reports success. From zero counters a
  supported region is left whole if and only if it lies in one 1 GiB window, or has 2 MiB-aligned output
  addresses, or ends at least 2 MiB before the second window does (`RegionTheorems.ZeroCountersIff`).
* In 64-bit arithmetic the builder's loop stalls at an entry with a table below if and only if the counter of
  the next level is 512 and the address is not 0. With a larger counter it moves the address back, or, where
  the bound wraps around, goes on with nothing cut off (`BuildSteps.StepExact`). Counters below 512 stay so
  as long as all tables start at one level (`CounterProof.FillKeeps`), but tables that start at level 2 drive
  the level-1 counter to every value (`CounterProof.CounterReaches`), and tables that start at level 3 the
  level-2 counter (`CounterProof.PageCounterReaches`).
* The walker is right about mapped addresses exactly when one table suffices or `ias - 12` is a
  multiple of nine (`PageTableTheorems.WalkerRightIff`): it subtracts the width of the level it
  leaves, which is nine only then.
* The walker does not test the valid bit. For an unmapped address it reports an error exactly when
  the empty entry is in a table of level 3; an empty entry higher up it follows to address 0
  (`PageTableTheorems.WalkerUnmapped`), and with words there it can return success and their
  attributes (`PageTableTheorems.NullTableRead`).
* A create with no table given that rejects its region keeps the root page it has just allocated
  (`Pgt.PageTables.Create`).
* Storing a zero SMMU base for every mapping also clears bytes 16 to 23 of a named component's
  name, because the two share a union. The name survives if and only if there is no mapping or those
  bytes are zero (`Iort.NameKeptIff`, `Iort.NameLost`).
* The overlap test leaves out the last ID of a mapping that the lookups count in. Colliding
  mappings go unmarked exactly when one starts at the last ID of the other (`IoVirtLookup.CollideIff`).
* The search for duplicates takes two nodes for one when their compared bytes are equal: a node gets no block
  if and only if an earlier one has the same kind, map count and fields, for a root complex with no SMMU base
  stored (`LookAlikes.KeptIff`). References to it go to the first such node (`LookAlikes.ReferenceLeads`). Where root complex d decides the route of a
  requester ID, the table has that route if d got a block, and otherwise the one it had before d
  (`IoVirtNodes.DecidedRoute`); the ID has no route at all if and only if every root complex that takes it
  was dropped (`IoVirtNodes.RouteLostIff`). Two root complexes that differ only in their mappings are such
  a case (`IoVirtNodes.LookAlike`).
* The overlap pass compares the mappings of a block with a fixed trip count and so reads beyond the
  block's last mapping: the header of the next block first. What those reads mark is kept apart as `sd`
  and `ss` (`OverlapCheck.CheckMappingOverlap`). A block with two mappings that is not the last one is marked
  so if and only if its second mapping overlaps that header (`OverlapCheck.TwoMapStray`), as in front of a
  PMCG whose base address has the right upper word (`OverlapCheck.FalseMark`).
* After a time-out, a late secondary can run the payload of one test with the argument of the next
  (`HartHazards.TornMailbox`), a secondary that reports after the wait can turn the verdict to pass
  although another one has not run (`HartHazards.FalsePass`), and a late report for the old test can
  stand in for a hart that could not be started in the new one (`HartHazards.StalePass`).
* A power-on error code whose difference to 0x120 touches bits 28 to 30 leaves a word that is not a
  failure (`Status.StartFailureIsFail`); no PSCI code does. With such a code a test can pass although
  a hart could not be started (`HartHazards.OddPass`).
* A test skipped by the options is counted as failed, though never as started, exactly when the
  caller's index is outside the slots folded (`TestInfra.Suite.RunTest`).
* The module number 4294967200 also selects the tests 1 to 3, whose module is skipped
  (`TestInfra.SelectionExact`, `TestInfra.WrappedSelection`).
* The BDF successor stops early exactly when an ECAM other than the first starts at BDF 0
  (`BdfIterator.IteratorIff`).
* A capability pointer register that reads as all ones makes the suite's search report success
  without an offset (`Capability.FindCapability`).
* A capability search runs for ever if and only if it comes back to an offset before it meets a match
  (`Capability.RunsForEverIff`), for example at a capability that points to itself (`Capability.SelfLinked`).

## Model

| member | source | states |
|---|---|---|
| `Descriptors.PageFields` | val/src/acs_pgt.c:200-205 | a page descriptor splits back into the frame, the attribute bits and the page kind it was built from, with no overlap |
| `Descriptors.BlockFields` | val/src/acs_pgt.c:214-221 | a block descriptor splits back into frame, attributes and block kind |
| `Descriptors.KindOf` | val/include/bsa_acs_pgt.h:24-43 | the type test of a descriptor gives back the kind it was built with, whatever its other fields |
| `Descriptors.NextTable` | val/src/acs_pgt.c:245-245 | masking a table descriptor gives back the address of the table it was built for |
| `FillProof.StaysIff` | val/src/acs_pgt.c:255-262 | the run handed down from an entry stays under it if and only if all of it lies under one entry or it starts on a boundary |
| `CounterProof.ZeroNeverClips` | val/src/acs_pgt.c:249-258 | from zero counters nothing is cut off inside one 1 GiB window or with 2 MiB-aligned output addresses |
| `CounterProof.ZeroClipsIff` | val/src/acs_pgt.c:249-258 | a run from a 1 GiB boundary into the next window with other output addresses escapes the clip if and only if it ends 2 MiB before that window does |
| `CounterProof.ZeroClips` | val/src/acs_pgt.c:249-258 | from zero counters and at every level, a supported run in one table escapes the clip if and only if it lies in one 1 GiB window, has 2 MiB-aligned frames, or ends 2 MiB before the second window does |
| `CounterProof.FillKeeps` | val/src/acs_pgt.c:84-112 | filling any run keeps every counter the level depends on below 512 |
| `CounterProof.CounterReaches` | val/src/acs_pgt.c:84-112 | tables that start at level 2 drive the level-1 counter to every value, 512 included |
| `CounterProof.PageCounterReaches` | val/src/acs_pgt.c:84-112 | tables that start at level 3 drive the level-2 counter to the number of full runs, 512 included |
| `BuildSteps.BlockBytes` | val/src/acs_pgt.c:132-161 | the block size of a level is the span of one of its entries |
| `Pgt.SlotOfStep` | val/src/acs_pgt.c:195-196 | shifting and masking an address gives the entry its page selects, for every index width |
| `BuildSteps.StepExact` | val/src/acs_pgt.c:191-258 | the loop's next address in 64-bit arithmetic: it stalls if and only if the next level's counter is 512 and the address is not 0, falls back above 512 unless the bound wraps, and otherwise goes on by one entry |
| `Builder.BuiltOwns` | val/src/acs_pgt.c:172-277 | for every run of pages and whatever is mapped: the result is a well-formed tree, no page appears or disappears, and tables, lost and free pages stay apart |
| `Builder.BuiltFills` | val/src/acs_pgt.c:172-277 | a supported run of unmapped pages: each page is mapped rightly or not at all, every other page as before, the whole run if and only if the counters do not clip it; the counters that follow; no page lost |
| `Builder.BlockLoses` | val/src/acs_pgt.c:214-226 | a block loses pages if and only if a table was in its place, and then exactly the pages of that table |
| `Builder.BuiltCounters` | val/src/acs_pgt.c:84-112 | the counters left depend on the run and the counters alone |
| `Landing.BuiltLooks` | val/src/acs_pgt.c:191-275 | for every run, supported or not, and all counters in range: what every page translates to afterwards is the frame of the page that landed in its place, and otherwise what it was, or nothing where a block gave way to a table |
| `Placement.LandsShape` | val/src/acs_pgt.c:191-275 | every page of a run lands in its own place only if the run is a supported one and the counters do not clip it |
| `Placement.OwnShape` | val/src/acs_pgt.c:191-275 | unclipped, no page lands in another's place only if the run is a supported one |
| `Misplacement.Misplaced` | val/src/acs_pgt.c:191-275 | where a run leaves its entry, the first page beyond does not land in its own place, whatever the counters |
| `Misplacement.AlignedLands` | val/src/acs_pgt.c:195-196 | in an aligned run the first page of every entry lands where its index bits say, also beyond the range of the table |
| `Misplacement.PagesLand` | val/src/acs_pgt.c:200-212 | at level 3 each page lands in the entry of its last nine bits |
| `PageBudget.BuiltWithin` | val/src/acs_pgt.c:232-243 | with one page for each window touched at each level below, the builder does not run out of pages |
| `PageBudget.BuiltEnough` | val/src/acs_pgt.c:232-243 | for every run, supported or not, one page for each of its pages and each level below is enough |
| `Regions.DomainIff` | val/src/acs_pgt.c:191-275 | the supported runs, in closed form, are exactly those whose parts all stay under their entries |
| `Regions.CreatedOwns` | val/src/acs_pgt.c:307-389 | a create makes a sound table out of the root's pages and free ones; no page appears or disappears |
| `Regions.CreatedFills` | val/src/acs_pgt.c:307-389 | a region that can be mapped is mapped as far as the counters allow, all other pages stay as they were, and no page is lost |
| `Regions.CreatedWithin` | val/src/acs_pgt.c:307-389 | with the pages of the budget, and one for a new root, a create of such a region succeeds |
| `Regions.CreatedEnough` | val/src/acs_pgt.c:343-369 | with pages enough a create fails if and only if the virtual or the physical address is not aligned or the physical address is not below 2^oas |
| `Pgt.Log2PageSize` | val/src/acs_pgt.c:286-297 | the bit found is the logarithm of every power of two |
| `Pgt.Geometry` | val/src/acs_pgt.c:307-334 | start level, shift and index width cover exactly the input address |
| `Pgt.PageTables.FillTranslationTable` | val/src/acs_pgt.c:172-277 | for every run and whatever is mapped: it succeeds exactly where Builder.Built does, leaves exactly that tree in memory, that pool and those counters, and changes no page outside the table and the pages taken |
| `Pgt.PageTables.FillEntry` | val/src/acs_pgt.c:191-275 | one step of the loop: exactly the state of Builder.Stepped, a leaf over whatever was there, or the table below with the counters that follow |
| `Pgt.PageTables.Descend` | val/src/acs_pgt.c:232-275 | the table below an entry, found, new, or new in the place of a block, is filled up to the clip and linked; other memory is untouched |
| `Pgt.PageTables.Create` | val/src/acs_pgt.c:307-389 | the given or a new table takes the region up exactly as Regions.Created says; it fails for a misaligned virtual or physical address, a physical address not below 2^oas, or lack of pages, and for nothing else; on a rejected region it keeps the root page it took, and out of pages it frees the root, the caller's own included |
| `Pgt.PageTables.GetAttributes` | val/src/acs_pgt.c:398-455 | the loop ends in the answer of the recursive walk over the memory image |
| `Pgt.PageTables.FreeTranslationTable` | val/src/acs_pgt.c:466-490 | frees every table page below the given one exactly once and nothing else, reading no freed page |
| `Pgt.PageTables.Destroy` | val/src/acs_pgt.c:497-516 | gives back exactly the pages of the table |
| `Walk.WalkMeetsLookup` | val/src/acs_pgt.c:421-453 | with nine bits per level the walk of a mapped address ends at its leaf |
| `Walk.WalkUnmapped` | val/src/acs_pgt.c:421-453 | the walk of an unmapped address reports an error at an empty level-3 entry and otherwise goes on in a table at address 0 |
| `Walk.ImageTranslates` | val/src/acs_pgt.c:172-277 | reading the memory image as the architecture does gives the tree's mapping for every byte address, and nothing at a leaf of level 0 |
| `RegionTheorems.RegionSound` | val/src/acs_pgt.c:172-277 | every byte of the region that translates goes where the region says; every address on other pages, mapped or not, translates as before |
| `RegionTheorems.RegionComplete` | val/src/acs_pgt.c:191-275 | for every accepted region of unmapped bytes within the input range: all of them translate as wanted if and only if the run is supported, makes no block at level 0, is not clipped, and the length is not 1 modulo 4096 |
| `RegionTheorems.MappedByte` | val/src/acs_pgt.c:172-277 | a region that can be mapped and is not clipped: every byte on its pages translates as wanted |
| `RegionTheorems.TopBlock` | val/src/acs_pgt.c:214-226 | wherever a block fits at level 0 it is written, and hardware translates none of its addresses |
| `RegionTheorems.ZeroCountersIff` | val/src/acs_pgt.c:55-62 | zero counters leave a supported region whole if and only if it lies in one 1 GiB window, has 2 MiB-aligned output addresses, or ends 2 MiB before the second window does |
| `UnsupportedRegions.FrameMissing` | val/src/acs_pgt.c:191-275 | where a run leaves its entry, the first page beyond never gets its frame, whatever the counters and whatever else is mapped |
| `UnsupportedRegions.PlacedIff` | val/src/acs_pgt.c:191-275 | into an empty table and unclipped, no page is put in a wrong place if and only if the run is supported |
| `UnsupportedRegions.Beyond` | val/src/acs_pgt.c:195-196 | an aligned run that goes beyond the input range puts its first page beyond in the place of VA 0 |
| `UnsupportedRegions.UnsupportedRegion` | val/src/acs_pgt.c:191-262 | the whole table after 2 MiB from VA 0x1000 on: VA 0 has the frame of the last page, VA 0x200000 none, the rest is right |
| `UnsupportedRegions.WrappedRegion` | val/src/acs_pgt.c:195-196 | 1 TiB from VA 2^39 on in a 40-bit range: the first page beyond the range is at VA 0 |
| `UnsupportedRegions.TopRegion` | val/src/acs_pgt.c:214-226 | 512 GiB from VA 0 to PA 0: in the table, but not to hardware |
| `PageTableTheorems.WalkerRightIff` | val/src/acs_pgt.c:398-455 | the walker agrees with every table on every mapped address if and only if one table suffices or ias - 12 is a multiple of nine |
| `PageTableTheorems.WalkerUnmapped` | val/src/acs_pgt.c:433-453 | for an unmapped address the walker reports an error if and only if the empty entry is in a table of level 3, and otherwise answers what lies at address 0 |
| `PageTableTheorems.NullTableRead` | val/src/acs_pgt.c:433-453 | with words at address 0, success and their attributes for an address an empty table does not map |
| `PageTableTheorems.WalkerWrong` | val/src/acs_pgt.c:452-452 | for every other input size, a table and an address the walker gets wrong |
| `PageTableTheorems.TopWalked` | val/src/acs_pgt.c:446-449 | for every block at level 0 the walker returns the region's attributes although hardware translates none of it |
| `PageTableTheorems.BuildThenWalk` | val/src/acs_pgt.c:307-455 | after creating a table for a region that the counters do not clip, the walk of any of its addresses returns the region's attributes and the architecture translates it to PA + (va - VA) |
| `MmuSetup.SetUpOwns` | val/src/acs_mmu.c:31-77 | any list of regions over whatever is mapped: no page appears or disappears, and tables, lost and free pages stay apart |
| `MmuSetup.SetUpMaps` | val/src/acs_mmu.c:31-77 | a list of regions apart from each other that can each be mapped: each page of each region is mapped rightly or not at all, every other page as before, each region as a whole if and only if the counters at its turn do not clip it, and no page is lost |
| `MmuSetup.SetupMmu` | val/src/acs_mmu.c:31-77 | one create per region, for any list: exactly the state of MmuSetup.SetUp, and failure exactly where a create fails |
| `MmuSetup.TableLost` | val/src/acs_pgt.c:214-226 | 4 KiB and then 2 MiB at VA 0 in a 30-bit range: the page of the table between is lost |
| `MmuSetup.SetupThenDestroy` | val/src/acs_pgt.c:466-516 | creating over any list of regions and then destroying returns exactly the pages taken and the table's own, each once, but for the lost ones, and leaves other memory as it was; regions apart from each other lose none |
| `IoVirtBuild.SmmuCtxIntDistinct` | platform/pal_uefi_acpi/src/pal_iovirt.c:110-119 | true exactly when the low words of all context interrupts differ |
| `IoVirt.LayoutExact` | platform/pal_uefi_acpi/include/pal_uefi.h:342-382 | a block starts behind 24 bytes of header, and 268 bytes and 16 for each map for every block before it |
| `IoVirtBuild.IoVirtTable.FindBlock` | platform/pal_uefi_acpi/src/pal_iovirt.c:216-232 | the offset of the first block with the same map count and data, or 0 exactly when there is none |
| `IoVirtBuild.IoVirtTable.AddBlock` | platform/pal_uefi_acpi/src/pal_iovirt.c:252-378 | the table then holds the blocks of one more node, laid end to end, unless a block looks alike; the offset returned is that of the block that stands for the node |
| `IoVirtBuild.IoVirtTable.AddMaps` | platform/pal_uefi_acpi/src/pal_iovirt.c:324-377 | the block gets its flags, mappings with the offsets of the blocks they refer to, and counters |
| `IoVirtBuild.CountsTotal` | platform/pal_uefi_acpi/src/pal_iovirt.c:374-376 | the per-type counters add up to the number of blocks |
| `Iort.SearchResult` | platform/pal_uefi_acpi/src/pal_iovirt.c:317-322 | searching for a placed target finds the block that stands for it; searching for the next node finds nothing if and only if the node gets a block |
| `LookAlikes.BlockContents` | platform/pal_uefi_acpi/src/pal_iovirt.c:252-378 | what the block of a node holds, field by field: map count, data with the SMMU base its last mapping leads to, mappings in order with the places of their targets, and the interrupt flag |
| `LookAlikes.KeptIff` | platform/pal_uefi_acpi/src/pal_iovirt.c:216-232 | a node gets a block if and only if no earlier node has its kind, map count and fields, for a root complex with no SMMU base stored |
| `LookAlikes.ReferenceLeads` | platform/pal_uefi_acpi/src/pal_iovirt.c:317-350 | a reference leads to the block of the node itself or of the one kept in its place |
| `LookAlikes.RootComplexKept` | platform/pal_uefi_acpi/src/pal_iovirt.c:353-366 | root complexes behind an SMMU with a base are all kept |
| `LookAlikes.BothKept` | platform/pal_uefi_acpi/src/pal_iovirt.c:353-366 | two root complexes behind one SMMU that differ only in their mappings: both kept, and the second one's IDs have their device |
| `Iort.NameKeptIff` | platform/pal_uefi_acpi/src/pal_iovirt.c:353-366 | a named component keeps its name if and only if it has no mapping or bytes 16 to 23 are zero |
| `Iort.NameLost` | platform/pal_uefi_acpi/src/pal_iovirt.c:353-366 | a well-formed table whose named component loses its name |
| `IoVirtNodes.OneBlockPerNode` | platform/pal_uefi_acpi/src/pal_iovirt.c:252-378 | without look-alikes one block for each node in order, and every stored reference is the offset of the block built from the referenced node |
| `IoVirtNodes.FlatteningKeepsLookups` | platform/pal_uefi_acpi/src/pal_iovirt.c:252-435 | for every segment and requester ID, both lookups on the packed table answer what following the nodes that got a block answers |
| `IoVirtNodes.DistinctLookups` | platform/pal_uefi_acpi/src/pal_iovirt.c:252-435 | where no node looks like another, that is what following all nodes answers |
| `LookAlikes.DistinctIff` | platform/pal_uefi_acpi/src/pal_iovirt.c:216-232 | when that is, in the fields of the nodes |
| `IoVirtNodes.DecidedRoute` | platform/pal_uefi_acpi/src/pal_iovirt.c:317-322 | the table has the route of the deciding root complex if that got a block, and otherwise the one before it |
| `IoVirtNodes.RouteLostIff` | platform/pal_uefi_acpi/src/pal_iovirt.c:317-322 | an ID has no route in the table if and only if every root complex that takes it was dropped |
| `IoVirtNodes.LookAlike` | platform/pal_uefi_acpi/src/pal_iovirt.c:317-322 | two root complexes that differ only in their mappings: the second has no block and its IDs no device |
| `IoVirtNodes.MarkedLookups` | platform/pal_uefi_acpi/src/pal_iovirt.c:146-206 | overlap flags never change a lookup |
| `IoVirtNodes.CreateInfoTable` | platform/pal_uefi_acpi/src/pal_iovirt.c:388-435 | the table holds exactly the blocks of the nodes without look-alikes; in memory the device and the stream flag are set exactly on the blocks with such an overlap or hit by stray reads, and nothing else changes |
| `IoVirtNodes.BuildThenLookUp` | val/src/acs_iovirt.c:272-368 | building the table from any children-first node list and then looking up gives the answers of the nodes that got a block, and without look-alikes those of all nodes |
| `MappingOverlap.OverlapIff` | platform/pal_uefi_acpi/src/pal_iovirt.c:146-206 | on mappings that do not wrap, the test says exactly whether they share an ID and a target |
| `MappingOverlap.LastIdIs` | platform/pal_uefi_acpi/src/pal_iovirt.c:157-185 | the end of a range in 32 bits, empty and wrapping ranges included |
| `OverlapCheck.CompareKey` | platform/pal_uefi_acpi/src/pal_iovirt.c:160-204 | one key mapping marks itself and every later mapping that overlaps it, in memory, and leaves all other fields |
| `OverlapCheck.CheckMappingOverlap` | platform/pal_uefi_acpi/src/pal_iovirt.c:146-206 | in memory, the device-ID flag is set exactly on the blocks with an overlap on an ITS group, the stream-ID flag on those with another target, besides those hit by stray reads: all that hit the next block's header, and with two mappings only those; every other field is as it was |
| `MappingOverlap.HeaderIs` | platform/pal_uefi_acpi/src/pal_iovirt.c:173-181 | which fields of the next block a stray read takes for a mapping, for each kind of block |
| `OverlapCheck.TwoMapStray` | platform/pal_uefi_acpi/src/pal_iovirt.c:173-181 | a block with two mappings that is not the last one is marked by a stray read if and only if its second mapping overlaps the next block's header |
| `OverlapCheck.FalseMark` | platform/pal_uefi_acpi/src/pal_iovirt.c:173-181 | a table without overlaps in which a root complex in front of a PMCG is marked |
| `MappingOverlap.StrayKinds` | platform/pal_uefi_acpi/src/pal_iovirt.c:173-181 | no ITS group or SMMU behind a block is ever taken for an overlapping mapping |
| `OverlapCheck.OverlapMarksBoth` | platform/pal_uefi_acpi/src/pal_iovirt.c:146-206 | two distinct mappings with a common target and ID mark both their blocks |
| `IoVirtLookup.CollideIff` | val/src/acs_iovirt.c:302-308 | overlap implies that the lookups collide; the collisions missed are exactly those at the last ID of a mapping |
| `IoVirtLookup.FindMap` | val/src/acs_iovirt.c:299-310 | the first mapping whose range, end included, holds the ID, moved from its input to its output base in 32 bits, or none |
| `IoVirtLookup.FindRcRoute` | val/src/acs_iovirt.c:291-313 | the last root complex of the segment with such a mapping decides; no route exactly when there is none |
| `IoVirtLookup.GetDeviceInfo` | val/src/acs_iovirt.c:272-368 | device, stream and ITS ID or failure, as composing the mappings of the blocks gives them |
| `IoVirtLookup.GetRcSmmuBase` | platform/pal_uefi_acpi/src/pal_iovirt.c:483-547 | the base of the SMMU on the way, zero without one, all ones without a route |
| `IoVirtLookup.TwoLookupsAgree` | platform/pal_uefi_acpi/src/pal_iovirt.c:483-547 | one lookup names an SMMU if and only if the other gives a stream ID; the base is that SMMU's, and the device ID is its mapping applied to the root complex's mapping |
| `ItsLookup.GetItsInfo` | val/src/acs_iovirt.c:165-245 | every query answers in terms of the ordered ID lists of the groups, errors included |
| `ItsLookup.ItsRoundTrip` | val/src/acs_iovirt.c:165-245 | group of an ID, place in that group, ID at that place: the same ID, for every ID of every group |
| `Status.PackState` | val/include/bsa_acs_common.h:53-96 | a packed word decodes to its state |
| `Status.ResultsDecode` | val/include/bsa_acs_common.h:79-95 | each result word is told apart from all others by the decoders |
| `Status.WordsAre` | val/include/bsa_acs_common.h:53-96 | the fields of the four result words |
| `Status.DecodeIs` | val/include/bsa_acs_common.h:92-96 | which words are read as which result |
| `Status.StartFailureIsFail` | val/src/acs_hart_infra.c:261-274 | the word stored for a power-on error is a failure if and only if bits 28 to 30 of 0x120 minus the code are clear |
| `Status.PsciErrorIsFail` | val/src/acs_hart_infra.c:261-274 | every PSCI error code meets that condition |
| `Status.LargeErrorIsNotFail` | val/src/acs_hart_infra.c:261-274 | positive codes from 0x121 on are read as no result at all |
| `HartSafety.StepKeeps` | val/src/acs_test_infra.c:411-537 | every step of the primary or of any secondary keeps the protocol invariant |
| `HartSafety.Reachable` | val/src/acs_hart_infra.c:214-275 | the invariant holds in every state of every interleaving |
| `HartSafety.MailboxSafety` | val/src/acs_hart_infra.c:214-275 | until a wait times out, each secondary has run exactly the jobs posted for it, once each and in order, but for the one it is busy with |
| `HartSafety.RetriesOverwriteConsumed` | val/src/acs_hart_infra.c:250-260 | posting, also on a retry, only overwrites a mailbox its owner has consumed |
| `HartSafety.VerdictSound` | val/src/acs_test_infra.c:551-597 | without a slot written after the wait, the verdict is pass if and only if the last slot holds pass and none a failure or skip, which means all hold pass unless an odd start failure was stored; a timed-out hart rules it out, and before any time-out so does an unstarted one |
| `HartSafety.PassMeansAllRan` | val/src/acs_test_infra.c:520-597 | a pass before any time-out and without an odd start failure: no hart left unstarted, all slots pass, and each secondary ran this test's job exactly once since the test began |
| `HartSafety.WaitEnds` | val/src/acs_test_infra.c:481-505 | in every interleaving the wait takes fewer than (timeout - 1) * (num + 1) looks before it leaves |
| `HartTiming.BusyRetries` | val/src/acs_hart_infra.c:239-261 | a hart found on is posted and called again until timeout + 1 such answers in this test; then, and not before, it counts as not started and its slot holds a failure |
| `HartTiming.StayedOnWord` | val/src/acs_hart_infra.c:263-274 | the word stored for a hart that stayed on, a failure with code 0x124 |
| `HartTiming.UnstartedMeans` | val/src/acs_hart_infra.c:239-274 | a hart counts as not started only through an error answer or through timeout + 1 answers that it is on |
| `HartTiming.RetryStarts` | val/src/acs_hart_infra.c:239-261 | for every number of answers that the tries allow, a run with exactly so many in which the hart then goes off and is started with the test's job |
| `HartTiming.GivesUpAfter` | val/src/acs_test_infra.c:481-505 | the wait gives up on a hart only after exactly (timeout - 1) * (num + 1) looks |
| `HartTiming.GivesUpOnLast` | val/src/acs_test_infra.c:481-505 | the hart given up on is the last one that the last pass saw pending, and its slot gets a failure |
| `HartTiming.NothingPendingEnds` | val/src/acs_test_infra.c:481-505 | with nothing pending the wait is over within one pass |
| `HartTiming.OwnVerdict` | val/src/acs_test_infra.c:551-560 | a test on one hart ends in what the primary's own payload reported, whatever late harts write |
| `HartHazards.TornMailbox` | val/src/acs_test_infra.c:411-465 | for every time-out value, an execution in which a late hart runs a job never posted |
| `HartHazards.FalsePass` | val/src/acs_test_infra.c:481-597 | for every time-out value, an execution that ends in pass with a hart that never ran |
| `HartHazards.StalePass` | val/src/acs_test_infra.c:481-597 | for every time-out value, an execution that passes with a hart that could not be started, although no slot was written after the wait |
| `HartHazards.OddPass` | val/src/acs_hart_infra.c:261-274 | for every error code from 0x121 to 0xFFFFFFF, an execution without time-out that passes with a hart that could not be started |
| `TestInfra.SelectionExact` | val/src/acs_test_infra.c:325-352 | a test is selected if and only if the options ask for it, or it is one of the wrap-around cases |
| `TestInfra.ModuleSkipAgrees` | val/src/acs_test_infra.c:275-299 | a module is never skipped while one of its tests is asked for |
| `TestInfra.WrappedSelection` | val/src/acs_test_infra.c:343-347 | a test selected by wrap-around while its module is skipped |
| `TestInfra.CheckSkipModule` | val/src/acs_test_infra.c:275-299 | skips exactly the modules the options leave out: neither their number nor a test among the 100 numbers from it is asked for |
| `TestInfra.Suite.InitializeTest` | val/src/acs_test_infra.c:314-364 | sets exactly the test's slots pending, skips exactly the tests not selected, and counts the others |
| `TestInfra.Suite.CheckForError` | val/src/acs_test_infra.c:551-597 | the first failed or skipped slot decides, or else the last one; one counter moves by one |
| `TestInfra.Suite.RunTest` | val/src/acs_test_infra.c:314-364 | how one test moves the counters, for all inputs: the balance is kept if and only if the test is selected, runs on one hart, or folds the caller's slot |
| `TestInfra.Suite.RunAll` | val/src/acs_test_infra.c:551-597 | over any run, total - pass - fail grows by exactly the started tests whose check returned skip, and pass + fail never exceeds total |
| `PcieConfig.BdfRoundTrip` | val/include/bsa_acs_pcie.h:23-32 | the bytes of a packed BDF are segment, bus, device and function, and unpacking gives them back |
| `PcieConfig.NamesIff` | val/src/acs_pcie.c:75-86 | a register lies at the one address from the base of the first ECAM for it on whose bits 0 to 11 are the offset, 12 to 14 the function, 15 to 19 the device, and the rest the bus |
| `PcieConfig.AddressUnique` | val/src/acs_pcie.c:46-105 | the words of different registers share no byte |
| `PcieConfig.ConfigSpace.ReadCfg` | val/src/acs_pcie.c:46-105 | a read returns the word at the address whose fields name the register, and is refused exactly for functions that no ECAM with a base covers |
| `PcieConfig.ConfigSpace.WriteCfg` | val/src/acs_pcie.c:153-196 | a write changes the word at that address and no other register of any function |
| `BdfIterator.Enumerate` | val/src/acs_pcie.c:742-801 | the four loops visit the sequence the recursion defines |
| `BdfIterator.IncrementBdf` | val/src/acs_pcie.c:1213-1265 | the successor of a function is what the nested loops visit next, or 0 at the end or for an unknown segment |
| `BdfIterator.Iterate` | val/src/acs_pcie.c:1213-1265 | repeating the successor visits what the loops visit, in order, up to a later ECAM that starts at BDF 0 |
| `BdfIterator.IteratorIff` | val/src/acs_pcie.c:1213-1265 | it visits all of it if and only if no ECAM but the first starts at BDF 0 |
| `BdfIterator.NoRepeats` | val/src/acs_pcie.c:742-801 | no function is visited twice |
| `BdfIterator.InOrder` | val/src/acs_pcie.c:742-801 | the enumeration goes through the ECAMs in table order, and through each of them upwards |
| `BdfIterator.VisitsExactly` | val/src/acs_pcie.c:742-801 | the enumeration visits exactly the functions of the ECAMs |
| `Capability.FindCapability` | val/src/acs_pcie.c:1386-1430 | wherever the search ends it gives the first match in list order, or a failure when there is none |
| `Capability.FindPcieCapability` | platform/pal_uefi_acpi/src/pal_exerciser.c:179-220 | the same for the second implementation |
| `Capability.ExtCapFields` | val/src/acs_pcie.c:1413-1425 | ID and next offset of an extended capability header, for all values of its fields |
| `Capability.CapFields` | val/src/acs_pcie.c:1399-1409 | the same for a capability header |
| `Capability.HeldFinds` | val/src/acs_pcie.c:1399-1425 | on any list that lies in memory, header by header, the search ends at the first capability with the ID, or at the end of the list |
| `Capability.SearchHeld` | platform/pal_uefi_acpi/src/pal_exerciser.c:179-220 | both searches return that capability's offset, or a failure when none has the ID |
| `Capability.SecondFound` | val/src/acs_pcie.c:1413-1425 | two extended capabilities, searched for the second |
| `Capability.RunsForEverIff` | val/src/acs_pcie.c:1399-1408 | a search that starts below 4096 runs for ever if and only if it comes back to an offset before any match or end |
| `Capability.SelfLinked` | val/src/acs_pcie.c:1399-1408 | a capability that points to itself and does not match makes the search run for ever |
| `Capability.AcyclicEnds` | val/src/acs_pcie.c:1399-1408 | on a list without cycles every search ends |
| `Capability.FailsIff` | val/src/acs_pcie.c:1386-1430 | the search fails if and only if no capability of the list matches |
| `Capability.FindsUnique` | val/src/acs_pcie.c:1386-1430 | a list and an ID determine the result |
| `Capability.SearchesAgree` | platform/pal_uefi_acpi/src/pal_exerciser.c:179-220 | both implementations give the same result on functions of the first ECAM |
| `Hierarchy.GetRootPort` | val/src/acs_pcie.c:2181-2238 | a root port is its own, integrated functions have none, others get the first root port of the table in their segment whose secondary to subordinate buses hold theirs, or a failure exactly when none does |
| `Hierarchy.GetDownstreamFunction` | val/src/acs_pcie.c:2108-2171 | the first type 0 function below the bridge, or else the first one, or a failure exactly when there is none |
| `Hierarchy.UpAndDown` | val/src/acs_pcie.c:2108-2238 | with disjoint ranges the port found is the only one; it has a downstream function, whose root port is the same |
| `BitField.FieldBitsAre` | val/include/bsa_acs_pcie.h:61-63 | the mask macros select exactly the bits between the field's ends |
| `BitField.ExtractBit` | val/src/acs_pcie.c:1843-1844 | the value compared is the field's bits moved to the bottom |
| `BitField.Toggled` | val/src/acs_pcie.c:1859-1897 | what a toggled field reads back tells fully writable and fully read-only fields apart, and writing the old value restores it |
| `BitField.WrittenBit` | val/src/acs_pcie.c:1859-1897 | what a write does to each bit of a register |
| `BitField.SettledBit` | val/src/acs_pcie.c:1859-1897 | the value a write-back settles on: the bits read, but for those that writing a one clears |
| `BitField.BehavesIff` | val/src/acs_pcie.c:1859-1897 | what each attribute demands, by the bits between the field's ends |
| `BitField.Probe` | val/src/acs_pcie.c:1859-1911 | probing a settled register passes if and only if it behaves as the attribute demands |
| `BitField.BitfieldCheck` | val/src/acs_pcie.c:1786-1919 | passes if and only if the value is the expected one and, bit by bit, a read/write field is writable, a read-only one is not, a reserved one reads zero or has no writable bit set; a pass leaves the register settled, a read/write probe always does |

## Left out

- Page sizes other than 4 KiB, input sizes outside 13 to 48 bits, and more than one region per create call: the create loop reads only the first descriptor.
- Pgt.PageTables.Create: promises nothing about the table after an allocation failure, since the code leaves it half filled; physical and virtual addresses of table pages coincide; attributes lie within the attribute mask, output addresses end within 48 bits, and counters are below 512, beyond which BuildSteps.StepExact tells how the loop goes wrong.
- Pgt.PageTables.FillTranslationTable: the same attributes, output addresses and counters only.
- Pgt.PageTables.FillEntry: the same only.
- Pgt.PageTables.Descend: the same only.
- RegionTheorems.RegionSound: regions that can be mapped; elsewhere the property is false, as UnsupportedRegions.PlacedIff and RegionTheorems.TopBlock show.
- RegionTheorems.RegionComplete: bytes not yet mapped and a region that ends within the input range; UnsupportedRegions.Beyond tells what becomes of longer ones.
- Landing.BuiltLooks: runs of at most as many steps as the table has entries, so that no entry is visited twice.
- MmuSetup.SetupMmu: the same attributes, output addresses and counters as Create.
- MmuSetup.SetupThenDestroy: the same lists as SetupMmu.
- Pgt.PageTables.GetAttributes: memory holds the pages modelled, and a read anywhere else ends the walk as a fault.
- PageTableTheorems.BuildThenWalk: leaves out a last byte that is alone on its page, which the code does not map.
- IoVirtBuild.IoVirtTable.AddBlock: only nodes that refer to earlier nodes, since the block count grows after a node's targets are placed and a second reference to a target placed that way is added again.
- OverlapCheck.CheckMappingOverlap: of the words read beyond a block's last mapping the first four are the next block's header; those after them, read for blocks with three or more mappings, are arbitrary.
- IoVirtBuild.IoVirtTable.AddMaps: the same node lists as AddBlock.
- IoVirtLookup.GetDeviceInfo: ITS groups with no ITS are excluded, since the code then reads an identifier that is not there.
- IoVirtLookup.FindRcRoute: the build for bare-metal boot, in which every block is first aligned to eight bytes.
- IoVirtLookup.TwoLookupsAgree: asks that no SMMU base is 0 or 0xFFFFFFFF and no computed stream ID is all ones, since those values also mean "none".
- The override table of SMMUs, dumping, and the named-component and PMCG getters: no property beyond one branch.
- HartSafety.MailboxSafety: power-on and status visibility are atomic steps and a payload writes its own status once as its last act; cache maintenance is not modelled.
- Time-outs below two: with one the wait stores through an index of -1.
- The order in which harts are found by hart ID (val_hart_get_index_mpid): indices are used directly.
- TestInfra.Suite.RunAll: the counters are unbounded and slots hold decoded states, which is exact for test numbers below 65536.
- PcieConfig.ConfigSpace.WriteCfg: 32-bit accesses at aligned offsets below 4096 only; other widths only change how much is copied.
- BdfIterator.Enumerate: leaves out probing each function (vendor ID, host bridges, legacy devices) and filling the device table, a filter over the sequence modelled here.
- Capability.FindCapability: searches that do not end, and extended searches of unmapped functions, which read an uninitialised word; words at offsets that are not aligned do not share bytes with their neighbours.
- BitField.BitfieldCheck: fields that end at bit 31, entries tagged as warnings, and the capability lookup that locates the register.
- GIC, SMMU, timer, watchdog, peripheral and exerciser drivers, RIMT parsing, applications, printing and argument parsing: register plumbing and input/output.
