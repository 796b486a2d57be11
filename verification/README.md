# Verification of the XDK110 firmware glue

This project models the parts of the MISO firmware that hold state machines, heap structures, parsers and
protocols, and proves what they keep over every input, every run and every interleaving.

| part of the firmware | Dafny modules |
|---|---|
| SD-card block driver, `csrc/board/src/sdmm.c` | `SdBus`, `Sdmm`, `SdDriver`, `SdExchange`, `SdSectors`, `SdProperties`, `SdInit`, `SdTrace`, `SdCapacity`, `SdRuns` |
| configuration walker, `csrc/src/config.c` | `ConfigTree`, `ConfigProof`, `ConfigLoad`, `ConfigPaths`, `CStrings` |
| tracing allocator, `csrc/src/lwm2m/memtrace.c` | `MemTrace`, `MemTracer` |
| I2C transfers, `csrc/board/src/board_i2c_sensors.c` | `I2cTransfer` |
| LwM2M server object, `csrc/src/lwm2m/lightclient/object_server.c` | `ServerObject`, `ServerStore`, `CStrings` |
| session list, `csrc/src/lwm2m/lightclient/miso_lightclient.c` and `csrc/src/lwm2m/connection.c` | `Sessions` |
| command line, hex dump and TLV printer, `csrc/src/lwm2m/commandline.c` | `CommandLine`, `HexDump`, `TlvPrinter` |
| WiFi event loop, `csrc/src/wifi_service.c` | `WifiService` |

Code that changes things in place is a class or a method with loops here (`SdDriver.Driver`, `ConfigLoad.Loader`,
`MemTracer.Tracer`, `ServerStore.Server`, `Sessions.Client`, the printers), proved equal to a function on values; the
properties are lemmas about those functions. The two concurrent pieces, I2C transfers and the WiFi task, are state
machines over interleaved steps.

The SD card is not a stub. `SdBus` is a card in SPI mode after chapter 7 of the SD Physical Layer Simplified
Specification, of four kinds (SDv2 by block, SDv2 by byte, SDv1, MMC). Whatever the specification leaves to the card
is read from a script, one entry per burst: silence, error responses, delays, error tokens, data responses, busy
times. Unless a lemma says `Cooperative`, it holds for every script, so for every card that follows the protocol, in
any order of failures. A cooperative card is one that answers, accepts and delivers inside the driver's time-outs.

What the firmware takes from outside is a parameter: the blocks the allocator hands out and whether it has room, the
TLV decoder and `sscanf`, the decoders of an LwM2M resource, the status the I2C peripheral reports, the result of
`sl_WlanConnect`.

`dafny verify dfyconfig.toml` checks everything.

## What the code does not do

Each of these is a lemma, most of them with the exact condition under which the code does what one would expect.

- On a byte-addressed card, sector numbers wrap at 2^23, since the byte address is a 32-bit product
  (`SdProperties.ReachedExactly`). No version-1 card with READ_BL_LEN 9 to 11 reports that many sectors
  (`SdCapacity.SectorCount1`).
- A version-2 card with C_SIZE 0x3FFFFF is reported to have no sectors (`SdCapacity.SectorCount2`).
- `disk_ioctl` never notices an empty socket by itself: with STA_NOINIT clear, CTRL_SYNC and GET_BLOCK_SIZE answer
  RES_OK there (`SdRuns.IoctlAnswers`).
- `disk_initialize` answers 0 for a card that was just put in, without initializing it, exactly when no status bit
  but STA_NODISK was set (`SdRuns.UninitializedExactly`); a swapped card is such a case (`SdRuns.SwapGoesUnnoticed`).
  A write that returns RES_OK is real all the same (`SdRuns.AcceptedWriteIsReal`): the new card is still in idle
  state and refuses.
- An SD version 1 card is coded as CT_SDC2 (`SdInit.InitializeClassifies`). The comment in line 321 of `sdmm.c` calls
  it SDv1; the driver treats both codes alike.
- In an array that stands in the place of a section or of a nested psk object, the configuration walk takes each
  string as a key and stores the token behind it (`ConfigProof.ArrayItemMisread`). What such arrays contribute is
  `ConfigTree.DocumentMisread`, and the walk is right exactly when that is empty (`ConfigProof.WalkIsLookup`). It reads
  past the last token exactly when the document ends in such a key (`ConfigProof.WalkReads`,
  `ConfigProof.ArraySectionOverreads`).
- A configuration value as long as its buffer or longer is stored without a terminator
  (`ConfigLoad.StoredTerminated`), while `wifi_service.c:222` and `:225` take `strlen` of such buffers.
- A shorter NTP server over a longer one keeps the longer one's tail (`ConfigLoad.NtpTailStays`). After a whole
  document the last server stands alone exactly when no longer text was in the buffer and no longer server came
  before it (`ConfigLoad.DocumentServer`).
- A binding is copied over the old one without a terminator: "S" over "UQS" reads "SQS"
  (`ServerObject.ShorterBindingMixes`). It reads back as written exactly when the buffer had a NUL right behind the
  new text (`ServerObject.BindingReadBack`); a tail can hide behind a NUL (`ServerObject.HiddenTailMixes`).
- Replacing an instance deletes it first, so a refused replacement loses it (`ServerObject.ReplaceForgets`).
- A command line that starts with a space runs no command and prints help (`CommandLine.EmptyWordIsHelp`).
- A WLAN handler sets the status and then posts what it reads back, so the connected bit can be lost
  (`WifiService.HandlerPostsItsState`, `WifiService.ConnectedEventLost`).
- Bits that coalesce lose their order: an address and then a disconnect in one batch leaves the network clients
  running (`WifiService.BatchDecidesOnline`, `WifiService.OrderInBatchLost`).

## Model

| member | source | states |
|---|---|---|
| SdDriver.Driver.WaitReady | csrc/board/src/sdmm.c:96-109 | the loop that counts 5000 polls down ends on the first 0xFF, or fails with all polls used |
| SdDriver.Driver.SelectCard | csrc/board/src/sdmm.c:127-137 | a card that stays busy is deselected again; bus and result as the specification function says |
| SdDriver.Driver.IssueCommand | csrc/board/src/sdmm.c:217-235 | frame, stuff byte after CMD12, and the do/while poll of at most ten bytes, against the poll of the specification |
| SdDriver.Driver.SendCommand | csrc/board/src/sdmm.c:196-236 | the recursive send_cmd equals SendCmd: CMD55 first, reselect except for CMD12, early returns |
| SdDriver.Driver.ReceiveDataBlock | csrc/board/src/sdmm.c:143-163 | the buffer is filled exactly when a valid data token came, at its offset, and is untouched otherwise |
| SdDriver.Driver.TransmitDataBlock | csrc/board/src/sdmm.c:169-190 | wait, token, data, data response; nothing but the token for the stop token |
| SdDriver.Driver.Status | csrc/board/src/sdmm.c:248-266 | STA_NOINIT is only ever added here, STA_NODISK follows the socket |
| SdDriver.Driver.IdentifyCard | csrc/board/src/sdmm.c:296-336 | the identification branches equal Identify, with the loops of 1000 polls |
| SdDriver.Driver.Initialize | csrc/board/src/sdmm.c:272-365 | early returns, power-up, and both static variables, equal to DiskInitialize |
| SdDriver.Driver.ReceiveBlocks | csrc/board/src/sdmm.c:386-390 | the block loop fills the buffer with the blocks received, in order, and leaves the rest of it alone |
| SdDriver.Driver.Read | csrc/board/src/sdmm.c:371-396 | the caller's buffer starts with the blocks that arrived and is otherwise unchanged; state and result equal DiskRead |
| SdDriver.Driver.TransmitBlocks | csrc/board/src/sdmm.c:424-428 | the loop sends the buffer's blocks in order and stops at the first that is not accepted |
| SdDriver.Driver.Write | csrc/board/src/sdmm.c:402-436 | single and multiple path, stop token included, equal to DiskWrite on the buffer's blocks |
| SdDriver.Driver.Ioctl | csrc/board/src/sdmm.c:442-488 | state and result equal DiskIoctl, whose answers SdRuns.IoctlAnswers has |
| SdDriver.JoinSplit | csrc/board/src/sdmm.c:386-390 | cutting a buffer into blocks and joining them gives the buffer back |
| SdExchange.FrameRoundTrip | csrc/board/src/sdmm.c:217-222 | the card decodes from the six bytes the index and argument that were sent |
| SdExchange.FrameChecksums | csrc/board/src/sdmm.c:223-226 | the fixed tails are the CRC7 and stop bit of CMD0 and CMD8(0x1AA), computed by the shift register |
| SdExchange.PollSkips | csrc/board/src/sdmm.c:151-156 | a poll finds an answer behind fewer 0xFF bytes than it has tries, at an exact cost |
| SdExchange.PollGivesUp | csrc/board/src/sdmm.c:231-233 | with at least as many 0xFF bytes as tries the poll fails in the middle of them |
| SdExchange.PollBusy | csrc/board/src/sdmm.c:101-108 | waiting for a busy card succeeds exactly when it is busy for fewer bytes than there are tries |
| SdExchange.Reselect | csrc/board/src/sdmm.c:115-137 | deselect and select succeed exactly when at most 5000 busy bytes are left, and the transaction before is dropped |
| SdExchange.Selecting | csrc/board/src/sdmm.c:127-137 | select on a card in no transaction: ready exactly when at most 5000 busy bytes are left, deselected otherwise |
| SdExchange.CommandOutcome | csrc/board/src/sdmm.c:210-235 | response and card after any command, for every reaction of the card |
| SdExchange.BlockDelivered | csrc/board/src/sdmm.c:143-163 | a block is received exactly when the card delivers one in time, byte for byte |
| SdExchange.BlockTaken | csrc/board/src/sdmm.c:169-190 | a block is reported accepted exactly when the card stored it |
| SdExchange.StopTaken | csrc/board/src/sdmm.c:429-430 | the stop token ends the write unless the card stays busy beyond the time-out |
| SdSectors.BlocksTaken | csrc/board/src/sdmm.c:424-428 | the accepted blocks are a prefix of the buffer, in place, and nothing else on the card changed |
| SdSectors.BlocksStopped | csrc/board/src/sdmm.c:423-431 | blocks and stop token: with all blocks accepted, success exactly when the reply to the last of them is not busy beyond the time-out |
| SdSectors.BlocksDelivered | csrc/board/src/sdmm.c:386-390 | the blocks received are the card's, in order, from the opened sector on |
| SdSectors.TransferOpened | csrc/board/src/sdmm.c:384-415 | response 0 to CMD17, CMD18, CMD24 or CMD25 means the transfer is open at the addressed sector |
| SdSectors.SingleWritten | csrc/board/src/sdmm.c:413-418 | one block: on the card at its sector, or nothing changed |
| SdSectors.MultipleWritten | csrc/board/src/sdmm.c:419-432 | several blocks: an accepted prefix in place; success exactly when all are accepted and the busy time of the reply to the last one lets the stop token out |
| SdSectors.ReadStopped | csrc/board/src/sdmm.c:391 | CMD12 in the middle of a read leaves the card's contents alone |
| SdSectors.BlocksRead | csrc/board/src/sdmm.c:383-392 | what was read is a slice of the card, which is unchanged |
| SdProperties.ReachedExactly | csrc/board/src/sdmm.c:381 | the address on the wire names the sector asked for if and only if the card is addressed by block or the number is below 2^23 |
| SdProperties.WireTarget | csrc/board/src/sdmm.c:411 | the 32-bit argument names the reached sector, whether or not the product wrapped |
| SdProperties.WriteEffect | csrc/board/src/sdmm.c:402-436 | for every card and script: the accepted blocks are a prefix of the buffer, at their sectors, and nothing else changes; RES_OK exactly when all are accepted and, for several, the stop token goes out, told by the reply to the last block; RES_NOTRDY exactly while not initialized, without bus traffic |
| SdProperties.ReadEffect | csrc/board/src/sdmm.c:371-396 | for every card and script: the blocks that arrived are the card's at the right sectors; RES_OK exactly when all arrived; the card is unchanged |
| SdRuns.IoctlEffect | csrc/board/src/sdmm.c:442-488 | no control code changes the card; after a CTRL_SYNC that succeeds programming is over; what is answered is the next two rows |
| SdRuns.IoctlAnswers | csrc/board/src/sdmm.c:442-488 | the answer to every control code, drive, socket and script: RES_NOTRDY, None while not initialized; CTRL_SYNC by the busy time; the sector count if and only if the register arrives, otherwise RES_ERROR; 128 for code 3; RES_PARERR for every code but 0, 1 and 3 |
| SdRuns.CapacityReported | csrc/board/src/sdmm.c:460-476 | GET_SECTOR_COUNT on an initialized cooperative card is RES_OK with the capacity its register states: for version 2 if and only if C_SIZE is not all ones, for version 1 with every READ_BL_LEN allowed |
| SdRuns.CsdExactly | csrc/board/src/sdmm.c:461 | on every card and script CMD9 and the packet behind it yield the register if and only if the card is ready, working, answers 0 in time and sends the token in time |
| SdRuns.ReadCommands | csrc/board/src/sdmm.c:383-392 | the exact commands of a read on a card in service: CMD17 with the argument of the sector, or CMD18 and then CMD12 |
| SdRuns.WriteCommands | csrc/board/src/sdmm.c:413-432 | the exact commands of a write: CMD24, or CMD25 behind CMD55 and CMD23 with the number of blocks on SD cards |
| SdRuns.InitializeCommands | csrc/board/src/sdmm.c:296-336 | whatever the card answers, STA_NOINIT is cleared only after CMD0 was answered 1 first, and then CMD8 was answered 1 and CMD58 came last, or CMD16 with 512 came last |
| SdRuns.RoundTrip | csrc/board/src/sdmm.c:371-436 | what was written with RES_OK is what is read with RES_OK, however writing and reading are cut into calls, for both addressing modes and every script |
| SdRuns.DriverIsArray | csrc/board/src/sdmm.c:371-436 | on a cooperative card every run of in-range reads and writes answers as an array of sectors does |
| SdRuns.StepKeeps | csrc/board/src/sdmm.c:248-488 | what each call, insertion and removal keeps: chip-select high, a known card type while STA_NOINIT is clear, no traffic while it is set, a tidy command log, a linear bound on transfers |
| SdRuns.RunKeeps | csrc/board/src/sdmm.c:248-488 | the same over every run of calls and card changes |
| SdRuns.TypeIsFromLastPowerUp | csrc/board/src/sdmm.c:338-340 | STA_NOINIT clear means CardType is the code the last power-up found, and that power-up succeeded |
| SdRuns.AcceptedWriteIsReal | csrc/board/src/sdmm.c:402-436 | after any run with cards coming and going, RES_OK means the blocks are on the card now in the socket |
| SdRuns.UninitializedExactly | csrc/board/src/sdmm.c:272-354 | for every card just put in: disk_initialize answers 0 and leaves it uninitialized if and only if no status bit but STA_NODISK was set before |
| SdRuns.SwapGoesUnnoticed | csrc/board/src/sdmm.c:282-285 | taking a card out and putting another in is such a case: the new one is not initialized |
| SdInit.IdentifyEffect | csrc/board/src/sdmm.c:296-336 | on every card: a code found fits the card's addressing, the card that got it is awake, and its contents are untouched |
| SdInit.PowerUpEffect | csrc/board/src/sdmm.c:287-353 | Stat is cleared exactly when a code was found, and then the card has left idle state; media unchanged |
| SdInit.InitializeEffect | csrc/board/src/sdmm.c:272-354 | the invariant is kept by every initialization, early returns included; 0 from a power-up means an initialized card |
| SdInit.InitializeClassifies | csrc/board/src/sdmm.c:296-353 | a cooperative card gets its code if and only if it leaves idle state within the polls the driver spends on its kind and, where it answers CMD8, accepts the voltage and echoes the pattern |
| SdInit.EmptySocketInitialize | csrc/board/src/sdmm.c:272-365 | with no card the answer is 3 and the card type is forgotten |
| SdInit.StatusTells | csrc/board/src/sdmm.c:248-266 | which bits of the status a call of disk_status sets, clears and leaves |
| SdTrace.CommandTraffic | csrc/board/src/sdmm.c:196-236 | one command: bounded transfers, logged once, not sent only when the card stayed busy |
| SdTrace.ReadTraffic | csrc/board/src/sdmm.c:371-396 | at most 1002 transfers per block and a constant; an accepted CMD18 is followed by CMD12; chip-select ends high |
| SdTrace.WriteTraffic | csrc/board/src/sdmm.c:402-436 | at most 5004 transfers per block and a constant; CMD23 only behind a CMD55 answered 0 or 1; chip-select ends high |
| SdTrace.IoctlTraffic | csrc/board/src/sdmm.c:442-488 | a constant bound, and the same rules |
| SdTrace.InitializeTraffic | csrc/board/src/sdmm.c:272-354 | a constant bound, and the same rules for CMD41 |
| SdCapacity.SectorCount2 | csrc/board/src/sdmm.c:463-467 | equals the capacity formula over the register's bit fields if and only if C_SIZE is not 0x3FFFFF, when it is 0 |
| SdCapacity.SectorCount1 | csrc/board/src/sdmm.c:468-473 | equals the version-1 formula for READ_BL_LEN 9 to 11, and every sector below it has a byte address that does not wrap |
| ConfigTree.FirstOf | csrc/src/config.c:241-451 | of the places whose key index is the token's parent in the way they need, the one the if-chain tests first; none only if there is none |
| ConfigProof.MembersCovered | csrc/src/config.c:241-479 | the walk over the members of an object at a place reads what the recursion over the tree says, looks behind the end exactly when that says so, and disturbs no other place |
| ConfigProof.ItemsCovered | csrc/src/config.c:241-479 | the same over the items of an array at a place, where each string is taken as a key for the token behind it |
| ConfigProof.DocumentCovered | csrc/src/config.c:211-480 | the same over the sections of a document, an array's key at the end of a section acting on the next one |
| ConfigProof.WalkReads | csrc/src/config.c:211-480 | for every document whose root is an object: what the one pass over the flat tokens reads, as a recursion over the tree, and that it stays in bounds if and only if the document does not end in a key |
| ConfigProof.WalkIsLookup | csrc/src/config.c:211-480 | for every such document the pass finds what lookup in the tree finds, in order, if and only if the arrays in the place of objects contribute nothing; which path leads to which buffer is ConfigPaths.EverySlot |
| ConfigProof.ShapedDocument | csrc/src/config.c:211-480 | without arrays in the place of objects they contribute nothing and the document does not end in a key |
| ConfigProof.ArraySectionOverreads | csrc/src/config.c:258-264 | a document that ends in a key, and is read past its last token |
| ConfigProof.ArrayItemMisread | csrc/src/config.c:258-264 | a document on which the pass stays in bounds and stores an item of an array as a value that lookup does not find |
| ConfigPaths.EverySlot | csrc/src/config.c:214-479 | for all documents, the texts found for each of the fifteen buffers are all the texts on that buffer's path, in order, with the paths written out: the keywords its keys start with |
| ConfigPaths.EveryBuffer | csrc/src/config.c:198-480 | for every document without misplaced arrays and with servers that fit, each of the fifteen buffers holds the last text on its path, clipped to its size, or what it held; the NTP buffer holds its servers copied over one another; the pass stays in bounds; paths and sizes are literals |
| ConfigLoad.LastValueWins | csrc/src/config.c:139-145 | each buffer holds the last value found for it, clipped to its size; buffers without a value are untouched |
| ConfigLoad.DocumentEffect | csrc/src/config.c:198-480 | for every such document, each buffer but the NTP one holds the last value read for it, clipped, or what it held; the values are those of lookup when the arrays contribute nothing |
| ConfigLoad.DocumentServer | csrc/src/config.c:198-480 | after a document the NTP buffer holds the last server alone if and only if it was clear behind that text before and no server before the last is longer |
| ConfigLoad.LastServerInFront | csrc/src/config.c:316-321 | the NTP buffer starts with the last server of the list, and keeps what stood behind that text |
| ConfigLoad.ClearAfter | csrc/src/config.c:316-321 | the NTP buffer is clear from some position on if and only if it was and no server of the list reaches beyond |
| ConfigLoad.LastServerAlone | csrc/src/config.c:316-321 | the same for any list of values |
| ConfigLoad.NothingForNtp | csrc/src/config.c:316-321 | a document without a server leaves the NTP buffer as it was |
| ConfigLoad.NtpTailStays | csrc/src/config.c:318-320 | one copied server replaces the buffer cleanly if and only if the buffer behind the new text was clear |
| ConfigLoad.StoredTerminated | csrc/src/config.c:139-145 | a stored value is terminated, and reads back, if and only if it is shorter than its buffer |
| ConfigLoad.CopyString | csrc/src/config.c:139-145 | clip, clear and copy leave exactly the stored form of the text |
| CStrings.StrNCpy | csrc/src/config.c:318-320 | strncpy stops at a NUL, pads up to the count, leaves the rest of the buffer |
| ConfigLoad.Loader.StartsWith | csrc/src/config.c:216 | comparing the raw text with a keyword over the keyword's length is the prefix test on the token |
| ConfigLoad.Loader.VisitTopLevel | csrc/src/config.c:214-240 | the section a top-level key opens |
| ConfigLoad.Loader.VisitWifi | csrc/src/config.c:242-265 | one key of the section: its key index and its buffer, no other |
| ConfigLoad.Loader.VisitLwm2m | csrc/src/config.c:267-303 | as above |
| ConfigLoad.Loader.VisitNtp | csrc/src/config.c:305-311 | as above |
| ConfigLoad.Loader.VisitServer | csrc/src/config.c:316-321 | the server's text over the start of the NTP buffer |
| ConfigLoad.Loader.VisitMqtt | csrc/src/config.c:323-364 | one key of the section |
| ConfigLoad.Loader.VisitLwm2mPsk | csrc/src/config.c:365-387 | as above |
| ConfigLoad.Loader.VisitMqttPsk | csrc/src/config.c:388-411 | as above |
| ConfigLoad.Loader.VisitHttp | csrc/src/config.c:413-449 | as above, where the test for a URI does not end the chain |
| ConfigLoad.Loader.VisitConfig | csrc/src/config.c:451-479 | as above |
| ConfigLoad.Loader.VisitToken | csrc/src/config.c:213-479 | the body of the loop is one step of the walk, on key indices and character arrays |
| ConfigLoad.Loader.LoadTokens | csrc/src/config.c:198-480 | the loop leaves in the arrays what the walk's writes leave, applied in order |
| ConfigLoad.Loader.LoadDocument | csrc/src/config.c:198-480 | on the tokens of a document that does not end in a key, the arrays hold what the document leaves in them |
| MemTrace.MallocKeeps | csrc/src/lwm2m/memtrace.c:84-101 | counters, sizes, order and distinctness survive a traced allocation; what is stored for a request is MemTrace.ListsAreRequests |
| MemTrace.FreeKeeps | csrc/src/lwm2m/memtrace.c:103-128 | and a free, of whatever pointer |
| MemTrace.StrayFreeChangesNothing | csrc/src/lwm2m/memtrace.c:117-126 | freeing a quarantined or unknown pointer changes nothing and reports which of the two it was |
| MemTrace.EveryHistory | csrc/src/lwm2m/memtrace.c:52-128 | after any history: the quarantine is the 200 most recent successful frees, newest first; the host got back exactly the older ones, oldest first; every block handed out is live, quarantined or returned, once |
| MemTrace.ListsAreRequests | csrc/src/lwm2m/memtrace.c:52-128 | after any history the live list is exactly the requests not freed since, newest first, each with its own size, site and number; count and size are their number and their sum modulo 2^32; the quarantine is the 200 latest frees of allocated blocks, each with the site that freed it |
| MemTrace.FreeReports | csrc/src/lwm2m/memtrace.c:103-128 | a free succeeds if and only if the block is allocated; otherwise it names the site of the earlier free if that is one of the 200 latest, and knows nothing if none is |
| MemTrace.SelfCheckPasses | csrc/src/lwm2m/memtrace.c:130-167 | the self-check of a printout never finds a mismatch |
| MemTracer.FindPrevious | csrc/src/lwm2m/memtrace.c:39-50 | the entry before the block, or null exactly when the block is not in the list |
| MemTracer.DropLast | csrc/src/lwm2m/memtrace.c:64-72 | the walk lets go of the last entry, and the other list is not touched |
| MemTracer.Tracer.TraceMalloc | csrc/src/lwm2m/memtrace.c:84-101 | the lists on the heap stay acyclic and disjoint and become what the machine's allocation says |
| MemTracer.Tracer.AddFreeList | csrc/src/lwm2m/memtrace.c:52-73 | the quarantine, its count, and the entry pushed out |
| MemTracer.Tracer.TraceFree | csrc/src/lwm2m/memtrace.c:103-128 | state, report and returned blocks equal the machine's free |
| MemTracer.Tracer.TraceStatus | csrc/src/lwm2m/memtrace.c:169-180 | the reported count and size are those of the list |
| MemTracer.Tracer.TracePrint | csrc/src/lwm2m/memtrace.c:130-167 | when a printout is due, and that it lists the live blocks and compares recounted totals |
| I2cTransfer.StepKeeps | csrc/board/src/board_i2c_sensors.c:117-164 | every step of a task, the peripheral or the interrupt keeps lock, interrupt, slot and history in step |
| I2cTransfer.EveryInterleaving | csrc/board/src/board_i2c_sensors.c:117-164 | at most one task inside; interrupt on only while the mutex is held; slot empty while it is free; the interrupt's send never finds the slot full |
| I2cTransfer.OwnStatus | csrc/board/src/board_i2c_sensors.c:128-147 | a call that started a transfer returns how that transfer ended, and no other call does |
| I2cTransfer.CallsReturn | csrc/board/src/board_i2c_sensors.c:117-148 | in every run, each call returns what its own events say: -5 if it timed out, the refusal if the peripheral refused it, 0 if the transfer was done at once, otherwise the status the interrupt saw; without a transfer of its own a call returns a negative status |
| I2cTransfer.EveryTransferAnswered | csrc/board/src/board_i2c_sensors.c:117-148 | with no task inside, every transfer ever started was returned from |
| I2cTransfer.AlwaysOnward | csrc/board/src/board_i2c_sensors.c:126-147 | no lost wake-up: the next step of the task inside, or of the interrupt it waits for, is always enabled |
| I2cTransfer.OthersOnlyWait | csrc/board/src/board_i2c_sensors.c:121-124 | the other tasks can only ask and time out, and delay nothing |
| I2cTransfer.MutexComesBack | csrc/board/src/board_i2c_sensors.c:117-148 | from every reachable state at most eight such steps give the mutex back with that call's reply |
| ServerObject.WriteCodeExact | csrc/src/lwm2m/lightclient/object_server.c:267-354 | a write returns 2.04 if and only if every resource is acceptable, and the first refusal otherwise; what is acceptable is the rows from NumbersTaken on |
| ServerObject.FieldByField | csrc/src/lwm2m/lightclient/object_server.c:277-342 | each field holds its last accepted value; the binding is the overlay of the bindings written |
| ServerObject.ShortIdNotZero | csrc/src/lwm2m/lightclient/object_server.c:286-294 | no write stores short id 0 |
| ServerObject.BindingReadBack | csrc/src/lwm2m/lightclient/object_server.c:322-337 | a NUL-free binding reads back as written if and only if the buffer has a NUL right behind the new text |
| ServerObject.ShorterBindingMixes | csrc/src/lwm2m/lightclient/object_server.c:335 | a binding that does not |
| ServerObject.HiddenTailMixes | csrc/src/lwm2m/lightclient/object_server.c:335 | a binding that does not although the old one ended before it: the tail was hidden behind a NUL |
| ServerObject.CreateAllOrNothing | csrc/src/lwm2m/lightclient/object_server.c:405-433 | 2.01 if and only if there is room and every resource is acceptable, and then exactly one instance more; any other code leaves the instances as they were |
| ServerObject.ReplaceForgets | csrc/src/lwm2m/lightclient/object_server.c:253-265 | a replaced instance depends on the new data alone, or is gone; the others are untouched |
| ServerObject.ReplaceIsDeleteCreate | csrc/src/lwm2m/lightclient/object_server.c:253-265 | replacement is deletion and then creation, with 2.04 for 2.01 |
| ServerObject.ReadAfterWrite | csrc/src/lwm2m/lightclient/object_server.c:95-146 | reading the whole instance after an accepted write returns the values written, and the old ones where none was |
| ServerObject.ReadAfterCreate | csrc/src/lwm2m/lightclient/object_server.c:95-146 | a created or replaced instance reads as what it was given, and as 0, 0, false and empty where it was given nothing |
| ServerObject.NumbersTaken | csrc/src/lwm2m/lightclient/object_server.c:279-300 | a lifetime is taken and reads back if and only if it is 0 to 2^32 - 1, a short id if and only if it is 1 to 65535; otherwise 4.06 and nothing changes |
| ServerObject.FlagsAndBindingsTaken | csrc/src/lwm2m/lightclient/object_server.c:306-343 | both truth values are taken and read back; a binding of one to three bytes is laid over the old one, any other length is 4.00 |
| ServerObject.OthersRefused | csrc/src/lwm2m/lightclient/object_server.c:270-350 | 4.00 for what does not decode, 4.05 for disable and update, 4.04 for any other id and for several instances, with nothing changed |
| ServerObject.GoodListsTaken | csrc/src/lwm2m/lightclient/object_server.c:236-433 | every list of resources in those ranges is taken by write, replacement and creation |
| ServerObject.FirstBadDecides | csrc/src/lwm2m/lightclient/object_server.c:236-433 | any other list is answered as its first resource outside them alone would be; what the ones before it leave in a write, a replacement and a creation |
| ServerObject.AbsentInstance | csrc/src/lwm2m/lightclient/object_server.c:248-251 | write, replacement and deletion of an id without instance are 4.04 and change nothing; deletion of one that is there is 2.02 |
| ServerObject.NoRoom | csrc/src/lwm2m/lightclient/object_server.c:414-415 | without memory 5.00: nothing is created, and a replacement has deleted already |
| ServerObject.ReadsAnswered | csrc/src/lwm2m/lightclient/object_server.c:63-146 | a read is 2.05 as a whole or answered as its first resource that cannot be read: 4.05 for disable and update, 4.04 for the others |
| ServerObject.StartsWith123 | csrc/src/lwm2m/lightclient/object_server.c:457-462 | the first instance reads 123, 900, false and "U" |
| ServerObject.ServeKeeps | csrc/src/lwm2m/lightclient/object_server.c:236-433 | a request leaves the ranges, the NUL at the end of every binding, and all other instances |
| ServerObject.RunFrame | csrc/src/lwm2m/lightclient/object_server.c:236-433 | an instance that no request of a run names is as it was |
| ServerObject.ShortIdsStay | csrc/src/lwm2m/lightclient/object_server.c:286-294 | over any run, short ids stay non-zero if every creation and replacement brings one |
| ServerStore.TakeNumber | csrc/src/lwm2m/lightclient/object_server.c:211-234 | the decoded number and its code equal those of the specification, whose ranges are in ServerObject.NumbersTaken |
| ServerStore.Instance.Set | csrc/src/lwm2m/lightclient/object_server.c:277-350 | one resource is stored when it is acceptable and leaves no trace when it is not |
| ServerStore.Instance.SetAll | csrc/src/lwm2m/lightclient/object_server.c:267-354 | the do/while loop stores the longest acceptable front, also where `continue` skips the increment |
| ServerStore.Instance.Get | csrc/src/lwm2m/lightclient/object_server.c:63-93 | one resource read, the binding up to its NUL, which is inside the buffer |
| ServerStore.Server.DeleteInstance | csrc/src/lwm2m/lightclient/object_server.c:388-403 | the instance is gone, or 4.04 |
| ServerStore.Server.CreateInstance | csrc/src/lwm2m/lightclient/object_server.c:405-433 | adding, writing and rolling back amount to the all-or-nothing creation |
| ServerStore.Server.WriteInstance | csrc/src/lwm2m/lightclient/object_server.c:236-355 | write and replacement, whose mutual recursion with creation ends |
| ServerStore.Server.ReadInstance | csrc/src/lwm2m/lightclient/object_server.c:95-146 | the answers of the longest readable front, or of the four resources when none is named |
| ServerStore.Server.constructor | csrc/src/lwm2m/lightclient/object_server.c:435-463 | the one instance a server object starts with |
| ServerStore.CreateByRollback | csrc/src/lwm2m/lightclient/object_server.c:414-430 | add, write, and take out again if the write fails is creation |
| Sessions.ListIsOpenSessions | csrc/src/lwm2m/lightclient/miso_lightclient.c:114-175 | after any history the list is exactly the sessions connected and not closed since, in connect order |
| Sessions.FreedOnce | csrc/src/lwm2m/lightclient/miso_lightclient.c:145-175 | every session connected is in the list once or was freed once, never both, and nothing else ever is |
| Sessions.ConnectionCreate | csrc/src/lwm2m/connection.c:27-59 | the new session at the tail of an acyclic list, or alone |
| Sessions.Client.ConnectServer | csrc/src/lwm2m/lightclient/miso_lightclient.c:114-143 | a session exactly when URI, connection and memory are there; the list unchanged otherwise |
| Sessions.Client.CloseConnection | csrc/src/lwm2m/lightclient/miso_lightclient.c:145-175 | the session is unlinked and freed, the order of the rest kept; a session not in the list changes nothing |
| CommandLine.ArgumentsAreWords | csrc/src/lwm2m/commandline.c:125-155 | repeated get_next_arg lists exactly the maximal runs of non-spaces |
| CommandLine.PositionsIncrease | csrc/src/lwm2m/commandline.c:143-155 | in order, each once |
| CommandLine.EnumerationEnds | csrc/src/lwm2m/commandline.c:143-155 | and runs out, inside the text |
| CommandLine.SpaceCodes | csrc/src/lwm2m/commandline.c:127 | the codes that separate words |
| CommandLine.GetEndOfArg | csrc/src/lwm2m/commandline.c:134-141 | the pointer walk stays before or at the NUL and stops at the word's end |
| CommandLine.EndOfSpace | csrc/src/lwm2m/commandline.c:125-132 | likewise for spaces |
| CommandLine.GetNextArg | csrc/src/lwm2m/commandline.c:143-155 | from the k-th argument to the span of the next |
| CommandLine.CheckEndOfArgs | csrc/src/lwm2m/commandline.c:157-162 | true if and only if only spaces are left |
| CommandLine.FindCommand | csrc/src/lwm2m/commandline.c:35-58 | the first command of exactly that name, none for the empty name |
| CommandLine.HandleCommand | csrc/src/lwm2m/commandline.c:60-123 | which command runs with which arguments, which help is shown, or the refusal |
| CommandLine.LineRunsCommand | csrc/src/lwm2m/commandline.c:91-123 | a line that starts with a word runs the first command of that name with the next word on; otherwise a prefix of "help" shows help on the first command that the second word names, on all if it names none, and any other word is refused |
| CommandLine.EmptyWordIsHelp | csrc/src/lwm2m/commandline.c:98-117 | an empty first word always means help, on the first command that the next word names |
| HexDump.DumpReadsBack | csrc/src/lwm2m/commandline.c:177-217 | the hex columns parse back to the bytes, for every length and indent |
| HexDump.TextColumnAligned | csrc/src/lwm2m/commandline.c:197-213 | in a dump longer than a row the text of every row starts at one offset, and shows each byte of the row if it is printable and a point if not |
| HexDump.ShortDump | csrc/src/lwm2m/commandline.c:177-213 | a dump of at most one row: its length without blank cells, its text byte by byte, and a newline alone for no bytes |
| HexDump.DumpIsRows | csrc/src/lwm2m/commandline.c:184-216 | a dump is its rows, one per sixteen bytes |
| HexDump.OutputRow | csrc/src/lwm2m/commandline.c:190-214 | the loops over one row print indent, cells, padding and text |
| HexDump.PadRow | csrc/src/lwm2m/commandline.c:197-205 | the blank cells reach column sixteen |
| HexDump.OutputBuffer | csrc/src/lwm2m/commandline.c:177-217 | the row loop prints the dump of exactly the given bytes |
| TlvPrinter.OutputValue | csrc/src/lwm2m/commandline.c:265-285 | the patched byte is put back, and the scans see the value's own bytes and nothing behind them |
| TlvPrinter.SeenIsData | csrc/src/lwm2m/commandline.c:273-285 | with a zero right behind it, a string scan sees the value only |
| TlvPrinter.OutputTlv | csrc/src/lwm2m/commandline.c:219-292 | on every nesting the printer ends, the buffer is byte for byte as before, and the printout depends on the records' bytes alone; one writable byte behind them is enough |
| TlvPrinter.BracesMatch | csrc/src/lwm2m/commandline.c:234-291 | every brace printed is closed, in order |
| TlvPrinter.PrintoutReadsBack | csrc/src/lwm2m/commandline.c:219-292 | from a printout the whole tree of records can be read back: every id and kind at its depth, and every value from its dump, in order |
| TlvPrinter.ValueItems | csrc/src/lwm2m/commandline.c:265-285 | a value prints its dump, the integer if its bytes before a zero are one, and the float if they are one, in that order |
| WifiService.StepKeeps | csrc/src/wifi_service.c:97-393 | every step of the task and of the handlers keeps delivery and answering |
| WifiService.EachPostOneBatch | csrc/src/wifi_service.c:194-392 | each post is pending as a whole or went into exactly one batch, with all its bits |
| WifiService.BatchBitsWerePosted | csrc/src/wifi_service.c:194-392 | a batch has a bit if and only if it was posted since the batch before |
| WifiService.EveryDisconnectAnswered | csrc/src/wifi_service.c:203-230 | between batches a call of sl_WlanConnect that is due, after power-on, a disconnect or a failed call, has the connecting bit pending |
| WifiService.Closer | csrc/src/wifi_service.c:100-277 | every own step of the task comes closer to the answering sl_WlanConnect, no other step sets it back, restarts included |
| WifiService.ReconnectsSoon | csrc/src/wifi_service.c:100-277 | power-on, a disconnect and a failed call are followed by a call within eight own steps, whatever happens in between |
| WifiService.HandlerPostsItsState | csrc/src/wifi_service.c:287-368 | a handler posts the state it set if and only if nobody wrote another before it posted |
| WifiService.HandlerPostsItsAddress | csrc/src/wifi_service.c:369-393 | a handler posts the address state it set if and only if no later event set another before it posted |
| WifiService.PostedValues | csrc/src/wifi_service.c:47-81 | the notification values of all states, as numbers |
| WifiService.ConnectedEventLost | csrc/src/wifi_service.c:214-367 | a run from power-on in which the access point connects and its handler posts, but no connected bit is ever posted |
| WifiService.BatchDecidesOnline | csrc/src/wifi_service.c:203-247 | clients run on after a batch if and only if it has an address, or they ran and it has no disconnect |
| WifiService.OrderInBatchLost | csrc/src/wifi_service.c:194-247 | a run from power-on in which an address and then a disconnect, taken in one batch, leave the clients running |

## Left out

- SdInit.InitializeClassifies: for cooperative cards; cards that answer with errors may end up unidentified, and what holds of them is `SdInit.IdentifyEffect`.
- SdRuns.RoundTrip: sector ranges of byte-addressed cards end at 2^23, where the driver's addresses wrap (`SdProperties.ReachedExactly` has the exact condition).
- SdCapacity.SectorCount1: READ_BL_LEN 9 to 11, the values the SD specification allows; a smaller one makes the shift count negative.
- ConfigProof.WalkReads: the root of the document is an object.
- ConfigLoad.DocumentServer: servers without a NUL, which is all jsmn delivers, since it stops at one.
- ConfigLoad.Loader.LoadTokens: requires that the pass stays in bounds and that NTP servers fit the buffer; beyond that the original reads and writes outside its arrays.
- ServerStore.Server.CreateInstance: requires a fresh id, as the LwM2M core guarantees.
- ServerStore.Instance.SetAll: requires at least one resource; the loop of the original reads the first one unconditionally.
- TlvPrinter.OutputTlv: the decoder is any function whose records are in bounds and have a header; the OMA encoding itself is not modelled, nor the wording of the lines printed.
- Sessions.Client.CloseConnection: the session handle is not null, which the original dereferences.
- SD bus: the 74 clocks with chip-select high that a real card needs before its first CMD0; the card here hears CMD0 without them.
- SD bus: transmission noise and the CRC of data blocks (the driver ignores both), clock rates and delays, chip-select and socket pins. A card change happens between driver calls. Raising chip-select ends a transaction. A block answered with 0x05 is stored.
- Reallocation of an address still known to a caller: blocks come from the allocator as parameters, never one the tracer still holds. Failed host allocations, which the original does not check, and overflow of its `int` counters.
- `lwm2m_trace_strdup`, which is an allocation and a copy.
- `connection_free`, which neither frees nor visits every session.
- I2C: the peripheral reports an end exactly once; the sensors' enable functions, which set up the bus anew without the mutex, do not run during a transfer. `xQueueReceive` without a time-out does not fail.
- The binding check of LWM2M_VERSION_1_0 builds, a macro that no build file defines; execute and discover of the server object, which only compare resource ids.
- `output_buffer` of a null pointer, and its reads behind a short last row; only the remaining bytes are copied here.
- Reading the file, parsing JSON text into tokens, SHA-256 and signatures of the configuration; JSON texts are compared as jsmn delivers them, escapes included.
- WiFi: the set-up calls on the restart path and the receive bits, which nothing here posts.
- jsmn, FatFs, mbedTLS, FreeRTOS, SimpleLink and wakaama themselves; the other LwM2M objects; `timing.c`; the CC3100 port; pin, clock, watchdog, USB and boot code.
