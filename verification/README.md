# A verified model of the TEE client

The TEE client lets applications talk to a trusted execution environment. `libteec` checks a call and writes its
parameters into a buffer shared with `cadaemon`; the daemon parses them and hands them to the vendor library, which
turns them into driver parameters and keeps contexts, sessions and shared memory on counted lists. Beside this path
run `tlogcat`, which stores the TEE's logs, and `teecd`, whose file agent serves the TEE's storage.

This project states those programs in Dafny and proves what they are for. `dafny verify dfyconfig.toml` checks all of it.

| part | modules |
|---|---|
| words, parameters, small types | `Words`, `Wrappers`, `Sequences`, `Slots`, `Operations` |
| an operation on its way to the driver and back | `ClientCodec`, `DaemonCodec`, `VendorCheck`, `Meaning`, `RequestRoundTrip`, `Reply`, `Driver` |
| contexts, sessions, shared memory | `Bitmap`, `Ring`, `Lifetime`, `LifetimeRuns`, `Histories`, `Witnesses`, `Calls`, `Interleavings`, `Balance`, `VendorApi` |
| the daemon's processes and the client's table | `ProcTable`, `ProcSteps`, `CaDaemon`, `ClientTable`, `ClientSteps`, `Agreement`, `ProperUse`, `Disagreements`, `LibTeec` |
| logs | `LogParser`, `LogStore`, `Tar`, `LogArchives` |
| file agent and login records | `FsAgent`, `Paths`, `Login` |

Code that works in place is modelled in place: shared buffers, caller memory, tar headers, bitmaps and login buffers
are arrays; lists are linked nodes on the heap; tables are fields of classes. Each such method is proved against a
function or predicate of the old state, and the theorems are about those. `Lifetime`, `ProcTable` and `ClientTable`
are transition systems: their theorems hold for every run, and in `Lifetime` for every interleaving of the locked
regions, with no assumption on what a thread gives back or when. `Calls` states what whole calls do there, and
`Interleavings` proves what any number of them, in any interleaving, keep. The classes `CaDaemon.CaDaemonService`,
`LibTeec.TeeClient` and `LogStore.TLogcat` carry out the steps with the source's loops.

What the functions mean is said a second time without them: `Meaning` says an operation in bits and addresses,
`Histories` a run's state in the steps behind it, `ProcSteps` and `ClientSteps` what each request changes, and `Balance`
what calls leave behind.

## What the environment is taken to do

- The kernel returns no descriptor that is open; mmap returns no address that is mapped, and malloc a fresh one.
- Mutex calls succeed; each locked region is one step.
- The shared memory between client and daemon has exactly the size that was asked for.
- The host is little-endian with 64-bit pointers, and plain `char` is unsigned, as on Arm.
- Reference counts do not reach 2^32.
- `memcpy_s` fails on an empty destination, `strncat_s` when the result has no room for its NUL.
- File operations of `tlogcat` succeed and reads are full; `fclose` succeeds.

## Where the code does less than it seems to promise

Each comes with its exact condition, and most with an input beside it.

- A vendor check refuses empty parents that the client check accepts (`RequestRoundTrip.AcceptanceSurvives`,
  `EmptyParentRefused`).
- A whole reference with a non-zero offset is read at the start of its block but answered at that offset
  (`Reply.ReplyLandsWhereRequestRead`). For direct clients of the vendor library the driver is shown the block at that
  offset, too; behind the daemon it is not, because the daemon clears the offset (cadaemon_service.cpp:699)
  (`Driver.DriverWindow`, with its input beside it).
- A no-copy parameter needs a parent that no check asks for, and on an unallocated parent becomes an output value
  (`Driver.CheckedHasParents`, `NullSharedParent`, `SharedInOutType`).
- A session can outlive its context, a block reference that is not returned keeps its bit, and the daemon reads a
  block it has put (`LifetimeRuns.OutlivesExactly`, `UseAfterFreeExactly`, and the runs of `Witnesses`).
- Rows of size zero share one key of the client's table and survive their context; registered blocks are found by
  address in a list that also holds the daemon's own addresses; and a memory structure follows its context structure
  to a new descriptor when that is initialized again (`Agreement.AgreementExactly`, and the runs of `Disagreements`).
- Releasing after a failed allocation, which a comment of the source allows, can cost a registered block
  (`Agreement.StrayReleaseDropsRegistered`, `Disagreements.StrayReleaseHappens`).
- An empty file ends a tar archive early, and sizes are cut to 32 bits (`Tar.ReadBackIsExact`, `EmptyFileEndsArchive`,
  `HeaderReadsBack`); the archives that runs from empty files make are not affected (`LogArchives.LogsReadBack`).
- An odd key loses its last byte while the outer length counts it (`Login.HapReadsBack`, `OddKeyLosesLastByte`).
- The check for `../` lets a name pass whose last component is `..` (`Paths.ClimbsExactly`, `ParentNamePasses`).

## Model

| member | source | states |
|---|---|---|
| `ClientCodec.CheckTmpRef` | frameworks/libteec_client/tee_client.cpp:149-160 | a temporary reference passes exactly when buffer and size are both set or both unset |
| `ClientCodec.CheckMemRef` | frameworks/libteec_client/tee_client.cpp:162-202 | the wrapping 32-bit tests accept exactly the references whose window, in unbounded integers, lies inside a present parent whose flags allow the direction |
| `ClientCodec.CheckOperation` | frameworks/libteec_client/tee_client.cpp:204-240 | success exactly when there is no operation or it is started and all four parameters pass; NotImplemented exactly for an unstarted one |
| `ClientCodec.GetPartialMemSize` | frameworks/libteec_client/tee_client.cpp:1019-1043 | header plus payload, refused exactly when the running sum leaves 32 bits |
| `ClientCodec.GetOptMemSize` | frameworks/libteec_client/tee_client.cpp:1045-1082 | the size is the exact unbounded sum of the parameters' regions, or the call fails because that sum is over the limit: 32-bit arithmetic never loses anything |
| `ClientCodec.FindShareMemOffset` | frameworks/libteec_client/tee_client.cpp:292-303 | the offset of the first row with the buffer, UINT32_MAX when there is none |
| `ClientCodec.EncodeTempMem` | frameworks/libteec_client/tee_client.cpp:848-870 | writes the buffer's bytes over the region, touches nothing else, fails exactly when the room is short |
| `ClientCodec.CovertEncodePtr` | frameworks/libteec_client/tee_client.cpp:872-911 | the 17 header bytes, field by field, at the cursor |
| `ClientCodec.EncodePartialMem` | frameworks/libteec_client/tee_client.cpp:913-962 | header and payload in one region; BadParameters exactly without a parent buffer, Fail exactly without room |
| `ClientCodec.EncodeParam` | frameworks/libteec_client/tee_client.cpp:964-983 | one turn of the loop: the region holds the parameter, the bytes outside it are untouched |
| `ClientCodec.TeecOptEncode` | frameworks/libteec_client/tee_client.cpp:964-983 | succeeds exactly when the regions fit; every region then carries its parameter and exactly the total size was consumed |
| `Meaning.KindsByBits` | interfaces/inner_api/tee_client_constants.h:150-185 | every type constant of the two libraries is its bit pattern: upper two bits the kind, lower two the directions |
| `Meaning.TypeIsNibble` | interfaces/inner_api/tee_client_api.h:52-61 | a parameter's type is its hexadecimal digit of the packed types |
| `Meaning.FlagsAllowDirection` | frameworks/libteec_client/tee_client.cpp:162-202 | memory shared in one direction may be referenced in that direction alone, memory shared in both in any |
| `Meaning.FlagIsBit` | frameworks/libteec_client/tee_client.cpp:162-202 | the flag tests are tests of bit 0 and bit 1 |
| `Meaning.ClientAcceptsExactly` | frameworks/libteec_client/tee_client.cpp:149-240 | the client's check accepts exactly the started operations whose parameters are legal, said of bits, flags and windows alone |
| `Meaning.VendorAcceptsExactly` | frameworks/libteec_vendor/tee_client_api.c:1757-1906 | the vendor's check likewise, for its stricter reading of legal |
| `Meaning.RegionsFollow` | frameworks/libteec_client/tee_client.cpp:964-983 | each parameter's region follows the one before it, with 17 bytes in front of a registered reference |
| `Meaning.RequestCarries` | frameworks/libteec_client/tee_client.cpp:848-983 | byte k of the memory an accepted parameter refers to is byte k behind the front of its region |
| `Meaning.HeaderLayout` | frameworks/libteec_client/tee_client.cpp:872-911 | mark, flags, count, slot and size stand at bytes 0, 1, 5, 9 and 13, each word with its low byte first |
| `DaemonCodec.CheckSizeStatusExact` | services/cadaemon/src/ca_daemon/cadaemon_service.cpp:643-648 | the three wrapping comparisons refuse exactly the sizes that do not fit in unbounded integers |
| `DaemonCodec.TeecOptDecodePartialMem` | services/cadaemon/src/ca_daemon/cadaemon_service.cpp:669-721 | the in-place parse of one registered reference equals its specification, errors included |
| `DaemonCodec.DecodeOne` | services/cadaemon/src/ca_daemon/cadaemon_service.cpp:723-780 | one turn of the daemon's loop equals the parameter's specification |
| `Meaning.DaemonRefusesExactly` | services/cadaemon/src/ca_daemon/cadaemon_service.cpp:669-780 | whatever bytes arrive, a parameter is refused for lack of bytes exactly if its region goes beyond them, and else exactly if the block it names is not listed or has no memory |
| `DaemonCodec.GetTeecOptMem` | services/cadaemon/src/ca_daemon/cadaemon_service.cpp:723-780 | fills parameters and block references exactly as the cursor specification says, with its first error; an empty buffer changes nothing |
| `DaemonCodec.FindByOffset` | frameworks/libteec_vendor/tee_client_api.c:509-539 | the first listed block with the offset, none exactly when no block has it |
| `VendorCheck.CheckMemRef` | frameworks/libteec_vendor/tee_client_api.c:1799-1849 | the subtractive bounds test accepts exactly the windows inside a non-empty listed parent |
| `VendorCheck.CheckOperation` | frameworks/libteec_vendor/tee_client_api.c:1858-1906 | success exactly for started operations whose parameters all pass the vendor's tests |
| `RequestRoundTrip.HeaderRoundTrip` | services/cadaemon/src/ca_daemon/cadaemon_service.cpp:650-666 | the daemon reads back from the 17 bytes the flags, count, offset, size and allocation mark the client wrote |
| `RequestRoundTrip.CursorIsOffset` | services/cadaemon/src/ca_daemon/cadaemon_service.cpp:669-780 | the daemon's cursor stands on the encoder's region boundaries, up to the first block it cannot resolve |
| `RequestRoundTrip.RequestRoundTrip` | services/cadaemon/src/ca_daemon/cadaemon_service.cpp:669-780 | decoding what was encoded consumes every byte exactly when all allocated blocks resolve, else fails; each decoded parameter denotes the bytes, header fields and block the client meant |
| `RequestRoundTrip.DaemonSees` | services/cadaemon/src/ca_daemon/cadaemon_service.cpp:669-780 | after the crossing byte k of the daemon's parameter is byte k of the client's, for as many bytes |
| `RequestRoundTrip.EmptyRequest` | services/cadaemon/src/ca_daemon/cadaemon_service.cpp:723-780 | when nothing is sent the untouched parameters already mean what they should |
| `RequestRoundTrip.AcceptanceSurvives` | frameworks/libteec_vendor/tee_client_api.c:1757-1906 | what the client check accepted the vendor check accepts after the crossing if and only if no referenced parent is empty |
| `RequestRoundTrip.EmptyParentRefused` | frameworks/libteec_vendor/tee_client_api.c:1799-1849 | an operation with a reference to an empty registered block that the client accepts, that is sent and decoded whatever the table and the list, and of which every decoded form is refused by the vendor check |
| `RequestRoundTrip.CopyTeecOptMem` | frameworks/libteec_client/tee_client.cpp:985-1016 | check, size and encode succeed exactly for accepted operations within the limit and leave a buffer that carries the operation |
| `RequestRoundTrip.ReceiveOperation` | services/cadaemon/src/ca_daemon/cadaemon_service.cpp:723-780 | a buffer that carries an operation is decoded exactly when every allocated block resolves, and then every parameter is preserved |
| `RequestRoundTrip.SendOperation` | frameworks/libteec_client/tee_client.cpp:985-1082 | the whole crossing, both libraries' code: success exactly when accepted, sized and resolvable, and then every parameter is preserved |
| `Reply.DecodeTempMem` | frameworks/libteec_client/tee_client.cpp:726-771 | copies the reported prefix when it fits the caller's size, sets the size, moves over the whole region |
| `Reply.DecodePartialMem` | frameworks/libteec_client/tee_client.cpp:634-689 | the same for a registered reference; allocated parents get the size only |
| `Reply.TeecOptDecode` | frameworks/libteec_client/tee_client.cpp:691-724 | the walk with the sizes before the call succeeds exactly when the buffer covers the request; memory ends as specified, whatever sizes are reported; a value reads as reported, word by word, written memory has the reported size and its own buffer, offset and parent, and every other parameter is untouched |
| `Reply.WindowsExactly` | frameworks/libteec_client/tee_client.cpp:602-771 | the bytes that may be written back are those of memory the application may write, that is not shared with the daemon already |
| `Reply.BytesComeBack` | frameworks/libteec_client/tee_client.cpp:602-771 | with distinct windows byte k of written memory is byte k of its region if the reported size is above k and within the caller's, else what it was |
| `Reply.ReplyDelivers` | frameworks/libteec_client/tee_client.cpp:602-771 | with distinct windows each output window ends with the reported prefix of its own region and keeps its other bytes; an over-long report copies nothing |
| `Reply.ReplyKeepsTheRest` | frameworks/libteec_client/tee_client.cpp:602-771 | no byte outside the output windows changes, so input-only parameters are untouched |
| `Reply.ReplyLandsWhereRequestRead` | frameworks/libteec_client/tee_client.cpp:634-689 | results land in the bytes the request was read from if and only if a whole reference has offset 0 |
| `Reply.WholeOffsetMisplacesReply` | frameworks/libteec_client/tee_client.cpp:634-689 | a concrete whole reference with an offset whose results go behind its block |
| `Driver.EncodeParams` | frameworks/libteec_vendor/tee_client_api.c:658-698 | the encoder faults exactly when a memory reference has no parent; a value or ION parameter's two addresses lead, in the operation's memory, to its first and its second word; nothing stays untouched; types that are no registered reference are kept |
| `Driver.DriverReadsSize` | frameworks/libteec_vendor/tee_client_api.c:603-640 | a memory parameter's size address leads, once the operation is encoded, to the word that holds its size |
| `Driver.EncodePartialRef` | frameworks/libteec_vendor/tee_client_api.c:611-640 | the words set field by field, the offset set and cleared again, are the specified ones, and a whole reference takes its parent's size |
| `Driver.CheckedHasParents` | frameworks/libteec_vendor/tee_client_api.c:1858-1906 | a checked operation is encoded without a fault if and only if its no-copy parameters have parents, which the check does not ask |
| `Driver.NullSharedParent` | frameworks/libteec_vendor/tee_client_api.c:1858-1906 | one accepted no-copy parameter without a parent |
| `Driver.PackedTypes` | interfaces/inner_api/tee_client_api.h:52-61 | packing four types and reading them back gives the four types |
| `Driver.DriverWindow` | frameworks/libteec_vendor/tee_client_api.c:603-640 | low word, high word and offset name the start of the denoted window if and only if it is not an unallocated whole reference with an offset |
| `Driver.WholeOffsetMisplacesWindow` | frameworks/libteec_vendor/tee_client_api.c:611-640 | an accepted whole reference whose window the driver is given four bytes too far |
| `Driver.WindowInsideParent` | frameworks/libteec_vendor/tee_client_api.c:1799-1849 | the denoted window of a checked reference lies inside its parent |
| `Driver.DriverSize` | frameworks/libteec_vendor/tee_client_api.c:603-640 | the size pointer is the parameter's own size field, which holds the window's size |
| `Driver.DriverTypeKeepsDirection` | frameworks/libteec_vendor/tee_client_api.c:581-601 | the translated type keeps the direction and is partial exactly for allocated parents, else temporary |
| `Driver.SharedInOutType` | frameworks/libteec_vendor/tee_client_api.c:658-698 | a no-copy parameter keeps its type exactly on an allocated parent; otherwise it turns into an output value |
| `Bitmap.MaskIsShift` | frameworks/libteec_vendor/tee_client_api.c:59-91 | bit j of a byte is the one that a shift by j gives |
| `Bitmap.SetBit` | frameworks/libteec_vendor/tee_client_api.c:59-68 | adds the index to the set of bits; out of range nothing changes |
| `Bitmap.ClearBit` | frameworks/libteec_vendor/tee_client_api.c:82-91 | removes the index from the set of bits; out of range nothing changes |
| `Bitmap.FindBit` | frameworks/libteec_vendor/tee_client_api.c:175-209 | skipping full bytes finds the least bit with the wanted value, -1 exactly when none has it |
| `Bitmap.GetAndSetBit` | frameworks/libteec_vendor/tee_client_api.c:211-217 | returns the least absent index and adds only it; -1 exactly when every bit is set |
| `Bitmap.GetAndClearBit` | frameworks/libteec_vendor/tee_client_api.c:230-236 | returns the least present index and removes only it; -1 exactly when no bit is set |
| `Slots.FirstFreeIsLeastBit` | frameworks/libteec_vendor/tee_client_api.c:211-217 | the slot the models choose is the bit GetAndSetBit hands out, and there is none exactly when it answers -1 |
| `Lifetime.StepKeepsInv` | frameworks/libteec_vendor/tee_client_api.c:239-541 | every locked step of contexts, sessions and blocks, in any interleaving and whatever threads give back or forget, keeps the invariant of counts, lists, owners and slots |
| `LifetimeRuns.CountsAreExact` | frameworks/libteec_vendor/tee_client_api.c:239-507 | in every run ops_cnt is the number of outstanding handles plus one if listed, and an object ends at most once, when it is unlisted with no handle |
| `LifetimeRuns.FinalizedAtLastPut` | frameworks/libteec_vendor/tee_client_api.c:360-373 | in every run a context's finalization begins at the put of the last handle after it left the list, and at no other step |
| `LifetimeRuns.BitsAreOwned` | frameworks/libteec_vendor/tee_client_api.c:1558-1614 | in every run a bit is set exactly when one unfreed block of that context owns the slot, failed allocations and lost references included |
| `LifetimeRuns.TeardownLeaves` | frameworks/libteec_vendor/tee_client_api.c:992-1050 | when the teardown loops are done, an object of the context has ended exactly once if and only if no thread has it out, and the bitmap is all zero if and only if no allocated block is out |
| `LifetimeRuns.OutlivesExactly` | frameworks/libteec_vendor/tee_client_api.c:992-1050 | in every run a session or block outlives its context if and only if the context was freed while it was out |
| `LifetimeRuns.UseAfterFreeExactly` | frameworks/libteec_vendor/tee_client_api.c:469-507 | in every run a step uses freed memory if and only if it publishes or clears the bit of a block whose context was freed, some time before, while the block was out, or is the daemon's read of a block that is off its list, in nobody's hands and not on its way in or out; so a freed session never is used, and a freed context only by those steps |
| `LifetimeRuns.NoUseAfterFree` | frameworks/libteec_vendor/tee_client_api.c:239-541 | in every run in which holders of blocks also hold the context, no step but the daemon's late read uses freed memory |
| `LifetimeRuns.ContextsDieClean` | frameworks/libteec_vendor/tee_client_api.c:992-1050 | in every run in which holders of blocks also hold the context, a freed context has an all-zero bitmap and each block ended exactly once; the same of sessions |
| `Witnesses.SessionMayOutliveContext` | services/cadaemon/src/ca_daemon/cadaemon_service.cpp:859-871 | the run in which a client dies between the put of the context and the put of the new session: the session outlives the context, and its put uses nothing freed |
| `Witnesses.LeakedBlockKeepsBit` | services/cadaemon/src/ca_daemon/cadaemon_service.cpp:940-947 | the run in which a failed decode puts the context and not the block: the freed context's bit stays set |
| `Witnesses.LatePutUsesFreedContext` | frameworks/libteec_vendor/tee_client_api.c:469-507 | were that reference put later, clearing the bit would use the freed context |
| `Witnesses.LateReadUsesFreedBlock` | services/cadaemon/src/ca_daemon/cadaemon_service.cpp:1054-1064 | the run in which another request releases a block that the daemon registered, put and then reads |
| `Calls.ScriptsWellBuilt` | frameworks/libteec_vendor/tee_client_api.c:1205-1755 | every call of the library, on each way it ends, and every regular path of the daemon takes a context, puts under it every block it took there and nothing else, and then puts the context |
| `Interleavings.MoveKeepsInv` | frameworks/libteec_vendor/tee_client_api.c:239-541 | whatever thread moves next, or whatever teardown goes on: each context handle and each block handle belongs to exactly one call under way, and who has a block out holds its context |
| `Interleavings.CallsCover` | services/cadaemon/src/ca_daemon/cadaemon_service.cpp:827-1192 | in any such state, whoever has a block out, on a list or in transit, holds the block's context |
| `Interleavings.PlayIsRun` | frameworks/libteec_vendor/tee_client_api.c:239-541 | what any number of threads do, in any interleaving of their calls, is a run of the library, and one in which every block is covered throughout |
| `Interleavings.CallsUseNothingFreed` | frameworks/libteec_vendor/tee_client_api.c:239-541 | however the calls of the library and the daemon's regular paths interleave, no step of theirs uses freed memory |
| `Interleavings.CallsLeaveNothing` | frameworks/libteec_vendor/tee_client_api.c:992-1050 | in those runs a freed context leaves an all-zero bitmap and each of its blocks has ended exactly once |
| `Interleavings.CallsAreBalanced` | frameworks/libteec_vendor/tee_client_api.c:343-390 | in those runs, whenever no thread is inside a call, each listed context's ops_cnt is 1 and every other context was finalized once |
| `Histories.ListChangesExactly` | frameworks/libteec_vendor/tee_client_api.c:239-541 | whatever step is taken, an object leaves its list exactly if the step removes or tears down this very object, and gets there exactly if it creates it |
| `Histories.ListedExactly` | frameworks/libteec_vendor/tee_client_api.c:239-541 | in every run an object is listed if and only if it was created and neither removed nor torn down since |
| `Histories.SearchesExactly` | frameworks/libteec_vendor/tee_client_api.c:343-541 | a search succeeds exactly on a listed object with the wanted key: a context's descriptor, or a place in the context that the caller holds |
| `Histories.DescriptorIsKey` | frameworks/libteec_vendor/tee_client_api.c:320-358 | in every run a descriptor leads to one context |
| `Histories.HandlesExactly` | frameworks/libteec_vendor/tee_client_api.c:239-541 | in every run a handle is on what it was last taken on, and on nothing once it was put |
| `Histories.KeysExactly` | frameworks/libteec_vendor/tee_client_api.c:1558-1614 | in every run a context has the descriptor it was opened with, a block the slot it reserved, and a block is between the two exactly from its reservation to its listing or its giving up |
| `Histories.GetOnlyCounts` | frameworks/libteec_vendor/tee_client_api.c:343-431 | a lookup changes nothing but the object's count, one more for one more handle |
| `Histories.PutOnlyCounts` | frameworks/libteec_vendor/tee_client_api.c:360-507 | a put changes nothing but the object of its handle: one handle and one reference less, and its end begins exactly if that was the last |
| `Histories.WritesAreTouched` | frameworks/libteec_vendor/tee_client_api.c:239-541 | every field, bitmap and list a step changes is memory it is said to touch |
| `Witnesses.SessionServed` | services/cadaemon/src/ca_daemon/cadaemon_service.cpp:827-1008 | the run in which the daemon opens a session, serves a command and closes it: the command leaves everything as it was, the close ends the session |
| `Witnesses.AllocationGivenUp` | frameworks/libteec_vendor/tee_client_api.c:1558-1614 | the run in which an allocation fails and its bit is given back |
| `Witnesses.AllocationReleased` | frameworks/libteec_vendor/tee_client_api.c:469-507 | the run in which an allocated block is released, freed and its bit cleared |
| `Balance.ScriptsDoExactly` | frameworks/libteec_vendor/tee_client_api.c:1205-1755 | a call creates, removes, looks up or reserves an object exactly if the interface says that this call does that to it |
| `Balance.NothingUnasked` | frameworks/libteec_vendor/tee_client_api.c:1205-1755 | in every run of calls an object was created only if a call that brings it was entered, and removed only if a call that takes it away was, or a teardown came to it |
| `Balance.CountsAtRest` | services/cadaemon/src/ca_daemon/cadaemon_service.cpp:827-1192 | in every run, when every call has come to its end, a listed session or block has count 1 and an unlisted one has ended once, but for the handles that direct clients of the library keep on their sessions |
| `Balance.EndsAreAsked` | frameworks/libteec_vendor/tee_client_api.c:992-1050 | a session or block has ended only because a call that takes it away was entered or a teardown came to it, or as a block whose allocation failed |
| `Balance.ServedPlays` | services/cadaemon/src/ca_daemon/cadaemon_service.cpp:827-871 | a run of two calls, initializing and opening a session, that comes to rest with context and session listed and counted once |
| `VendorApi.Vendor.GetBnContext` | frameworks/libteec_vendor/tee_client_api.c:343-358 | the first listed context of the descriptor with one more reference, everything else unchanged |
| `VendorApi.Vendor.DoOpenSession` | frameworks/libteec_vendor/tee_client_api.c:1083-1119 | the answer taken is the first that asks for no retry, or the two hundredth |
| `VendorApi.Vendor.OpenSession` | frameworks/libteec_vendor/tee_client_api.c:1205-1253 | success exactly when every check passes and the driver answers 0; on every return path all counts are as before, and on success the session is listed once, at the end, in that context only |
| `VendorApi.FirstTwoKinds` | frameworks/libteec_vendor/tee_client_api.c:1205-1253 | an opening operation is checked as if its last two parameters were nothing |
| `VendorApi.WithoutPieces` | frameworks/libteec_vendor/tee_client_api.c:289-318 | of the session list exactly the structure's own entries go, and the others keep their order |
| `VendorApi.ListedExactly` | frameworks/libteec_vendor/tee_client_api.c:1757-1797 | the check may refer to exactly the context's blocks |
| `VendorApi.SettlesExactly` | frameworks/libteec_vendor/tee_client_api.c:1083-1119 | the driver is asked again exactly after one of two codes, and two hundred times at most |
| `VendorApi.CanAllocateExactly` | frameworks/libteec_vendor/tee_client_api.c:1509-1666 | memory can be had exactly with flags 1 to 3, or 4 and a size from 1 to 256 MB, a free slot of 64, and an address where bytes are asked for |
| `VendorApi.Vendor.CloseSession` | frameworks/libteec_vendor/tee_client_api.c:1296-1321 | on every return path all counts are as before; the first session with the id leaves the list |
| `VendorApi.Vendor.InvokeCommand` | frameworks/libteec_vendor/tee_client_api.c:1398-1422 | success exactly with a listed context, an accepted operation and the driver's 0; on every return path the whole state is as before |
| `VendorApi.Vendor.RequestCancellation` | frameworks/libteec_vendor/tee_client_api.c:1915-1958 | on every return path the whole state is as before |
| `VendorApi.Vendor.RegisterSharedMemory` | frameworks/libteec_vendor/tee_client_api.c:1467-1507 | on every return path all counts are as before; success exactly under the stated conditions, with one block of count 1 more |
| `VendorApi.Vendor.AllocateSharedMemory` | frameworks/libteec_vendor/tee_client_api.c:1625-1666 | on every return path all counts are as before; a failed call leaves no bit behind, success takes the least free slot |
| `VendorApi.Vendor.AllocateInner` | frameworks/libteec_vendor/tee_client_api.c:1558-1614 | success exactly with valid flags, a free bit and memory; the bit taken on the way is given back on failure |
| `VendorApi.Vendor.ReleaseSharedMemory` | frameworks/libteec_vendor/tee_client_api.c:1731-1755 | on every return path all counts are as before; the first block with the buffer leaves the list and frees its bit with its last reference |
| `ProcTable.StepKeepsInv` | services/cadaemon/src/ca_daemon/cadaemon_service.cpp:165-544 | every request and every client death keeps the table, the context list and the counts consistent |
| `ProcTable.TableIsSound` | services/cadaemon/src/ca_daemon/cadaemon_service.cpp:295-415 | in every run records have unique pids and some descriptor, no descriptor is in two slots of the table, each names a live context of that client |
| `ProcTable.DeathCleansUp` | services/cadaemon/src/ca_daemon/cadaemon_service.cpp:1269-1306 | after a client's death its record is gone, none of its contexts is listed, and exactly those with a running request stay open |
| `ProcTable.ClosedAtLastPut` | services/cadaemon/src/ca_daemon/cadaemon_service.cpp:382-415 | an unlisted context is closed by exactly the put of its last request |
| `CaDaemon.CaDaemonService.GetProcdataByPid` | services/cadaemon/src/ca_daemon/cadaemon_service.cpp:165-182 | the first record of the pid |
| `CaDaemon.CaDaemonService.CheckProcDataFdEmpty` | services/cadaemon/src/ca_daemon/cadaemon_service.cpp:184-193 | true exactly when all sixteen slots are free |
| `CaDaemon.CaDaemonService.RemoveContextFromProcData` | services/cadaemon/src/ca_daemon/cadaemon_service.cpp:195-205 | the first slot with the descriptor is freed |
| `CaDaemon.CaDaemonService.IsValidContextWithoutLock` | services/cadaemon/src/ca_daemon/cadaemon_service.cpp:295-320 | true exactly when the caller's own record, of the same identity, names the descriptor |
| `CaDaemon.CaDaemonService.SetContextToProcData` | services/cadaemon/src/ca_daemon/cadaemon_service.cpp:328-380 | records the descriptor in the client's first free slot, or in a new record; refuses another identity or a full record and then changes nothing |
| `CaDaemon.CaDaemonService.PutBnContextAndReleaseFd` | services/cadaemon/src/ca_daemon/cadaemon_service.cpp:382-415 | a put, and with the last one the descriptor leaves the record and an emptied record leaves the table |
| `CaDaemon.CaDaemonService.ReleaseContext` | services/cadaemon/src/ca_daemon/cadaemon_service.cpp:441-453 | gives back the opener's and the list's reference |
| `CaDaemon.CaDaemonService.InitializeContext` | services/cadaemon/src/ca_daemon/cadaemon_service.cpp:455-513 | keeps the invariant; the context stays exactly when it was recorded and the reply written |
| `CaDaemon.CaDaemonService.FinalizeContext` | services/cadaemon/src/ca_daemon/cadaemon_service.cpp:515-544 | keeps the invariant; acts exactly on the caller's own listed context |
| `CaDaemon.CaDaemonService.CleanProcDataForOneCa` | services/cadaemon/src/ca_daemon/cadaemon_service.cpp:1269-1287 | the loop unlists and puts every context of the removed record |
| `CaDaemon.CaDaemonService.ProcessCaDied` | services/cadaemon/src/ca_daemon/cadaemon_service.cpp:1289-1306 | keeps the invariant and performs the death step of the table |
| `ProcSteps.RecordExactly` | services/cadaemon/src/ca_daemon/cadaemon_service.cpp:328-380 | recording succeeds exactly if the client has no record, or one of its identity with a free slot; then the first free slot, or a new record's first, holds the descriptor and nothing else changes |
| `ProcSteps.InitExactly` | services/cadaemon/src/ca_daemon/cadaemon_service.cpp:455-513 | opening a context leaves it listed, counted once and owned by the client exactly if the reply is written and the client has room; in every other case everything is as it was |
| `ProcSteps.OpensExactly` | services/cadaemon/src/ca_daemon/cadaemon_service.cpp:328-513 | in every run a context stays open if and only if the reply was written, the client's record is of the same identity, and fewer than sixteen descriptors stand in it |
| `ProcSteps.FinalizeExactly` | services/cadaemon/src/ca_daemon/cadaemon_service.cpp:515-544 | one's own listed context leaves the list, and is closed exactly if no request runs on it; anything else asked for changes nothing |
| `ProcSteps.BeginExactly` | services/cadaemon/src/ca_daemon/cadaemon_service.cpp:295-326 | a request begins exactly on the caller's own listed context, and counts it |
| `ProcSteps.EndExactly` | services/cadaemon/src/ca_daemon/cadaemon_service.cpp:382-415 | a request that ends closes its context exactly if that is off the list and no other request runs on it |
| `ProcSteps.DiedExactly` | services/cadaemon/src/ca_daemon/cadaemon_service.cpp:1269-1306 | a death touches no record, context or request of another client |
| `Agreement.LookupIsOwn` | frameworks/libteec_client/tee_client.cpp:292-303 | in every run with non-zero sizes, broken or not, looking up the buffer of any row gives that row's own slot |
| `Agreement.TableAgreesWithDaemon` | frameworks/libteec_client/tee_client.cpp:292-344 | in every run with non-zero sizes that breaks the agreement nowhere, each row names a live block of its context, the only one in that slot, with its bit set; looking the buffer up gives that slot and no two rows name one block |
| `Agreement.RowsResolve` | frameworks/libteec_vendor/tee_client_api.c:509-539 | in those runs a parent that has a row is one the daemon's decoder resolves |
| `Agreement.ReleaseRemovesItsOwn` | frameworks/libteec_vendor/tee_client_api.c:1668-1722 | releasing a structure that has a row, and points to a context structure with that row's descriptor, removes that row and that row's block and nothing else |
| `Agreement.StrayReleaseDropsRegistered` | frameworks/libteec_vendor/tee_client_api.c:1668-1703 | without a row the release of an allocated structure takes a registered block off the list if and only if the context has one |
| `Agreement.ReleaseAgrees` | frameworks/libteec_vendor/tee_client_api.c:1668-1722 | for every structure, any sizes, and whatever descriptor its context structure holds by now, a release keeps the agreement if and only if it is not misdirected: no other row names the slot it asks for in that context, and no row names the first block at a registered address |
| `Agreement.FinalizeAgrees` | frameworks/libteec_client/tee_client.cpp:329-344 | finalizing keeps the agreement if and only if the context has no row of size zero |
| `Agreement.StepAgreesExactly` | frameworks/libteec_client/tee_client.cpp:388-1547 | whatever call completes next, initializing a context structure again included, the agreement survives it if and only if it is none of those two |
| `Agreement.AgreementExactly` | frameworks/libteec_client/tee_client.cpp:388-1547 | in every run of calls, of any sizes, structures, context structures and addresses, the table names only live blocks throughout if and only if no call was one of those two |
| `ProperUse.RunsStayTidy` | frameworks/libteec_client/tee_client.cpp:1296-1547 | a run that keeps the stated rules of use breaks the agreement nowhere, and a structure still to be released that has a row's buffer is an allocated one of that row's context |
| `ProperUse.ProperRunsAgree` | frameworks/libteec_client/tee_client.cpp:1296-1547 | so in runs that keep those rules the table and the daemon agree throughout |
| `Disagreements.AddressesMayCollide` | frameworks/libteec_vendor/tee_client_api.c:1668-1703 | calls that register an address the daemon mapped, and whose release breaks the agreement |
| `Disagreements.ReinitializedContextMisdirects` | frameworks/libteec_client/tee_client.cpp:1499-1547 | calls that initialize a context structure again, so that releasing memory of its former life goes to the new descriptor and takes a mapped block whose row stays |
| `Disagreements.ZeroSizesMisdirect` | frameworks/libteec_client/tee_client.cpp:1463-1547 | calls with size zero after which a row of non-zero size names nothing |
| `Disagreements.ZeroSizeRowStays` | frameworks/libteec_client/tee_client.cpp:329-344 | a finalized context that leaves its row of size zero behind |
| `Disagreements.StrayReleaseHappens` | frameworks/libteec_client/tee_client.cpp:1380-1461 | a run that keeps every rule, with a client mapping that fails, in which the release costs the registered block |
| `ClientTable.EraseRows` | frameworks/libteec_client/tee_client.cpp:329-344 | erasing while iterating leaves exactly the rows that are not unmapped, in order |
| `LibTeec.TeeClient.FreeShareMem` | frameworks/libteec_client/tee_client.cpp:1463-1497 | the first row with the buffer goes, found exactly when there is one |
| `LibTeec.TeeClient.InitializeContext` | frameworks/libteec_client/tee_client.cpp:388-420 | the new descriptor goes into the caller's structure, to which older memory structures may still point; the agreement is kept |
| `LibTeec.TeeClient.AllocateSharedMemory` | frameworks/libteec_client/tee_client.cpp:1349-1461 | keeps the agreement for every size; a row is added exactly on success |
| `LibTeec.TeeClient.RegisterSharedMemory` | frameworks/libteec_client/tee_client.cpp:1296-1347 | keeps the agreement; the daemon lists the block exactly with a buffer, valid flags and an open context |
| `LibTeec.TeeClient.ReleaseSharedMemory` | frameworks/libteec_client/tee_client.cpp:1499-1547 | performs the release on both sides; the agreement survives exactly when the release is not misdirected |
| `LibTeec.TeeClient.FinalizeContext` | frameworks/libteec_client/tee_client.cpp:422-450 | clears the descriptor in the caller's structure and unmaps the context's rows; the agreement survives exactly when no row of size zero is left |
| `ClientSteps.AllocatesExactly` | frameworks/libteec_client/tee_client.cpp:1380-1461 | the context gains one block, in its least free slot, exactly if the daemon can have it, and the table one row exactly if the client can map it, too; nothing else changes |
| `ClientSteps.RegistersExactly` | frameworks/libteec_client/tee_client.cpp:1296-1347 | the context gains one block of no slot exactly with a buffer, valid flags and an open context; the table is untouched |
| `ClientSteps.ReleaseUndoesAllocate` | frameworks/libteec_client/tee_client.cpp:1499-1547 | memory allocated, mapped where no row is, and released: table, blocks and bitmap are as they were |
| `ClientSteps.LatePutUndoesAllocate` | frameworks/libteec_vendor/tee_client_api.c:469-507 | the same while a request holds the block: the bit stays until that request's put, which clears it |
| `ClientSteps.ReleaseUndoesRegister` | frameworks/libteec_client/tee_client.cpp:1499-1547 | memory registered where no block is, and released: table and blocks are as they were |
| `ClientSteps.FinalizesExactly` | frameworks/libteec_client/tee_client.cpp:422-450 | the daemon's context goes, and from the table exactly its rows of their own mappings |
| `LogStore.RotatedKeeps` | services/tlogcat/src/tlogcat.c:617-662 | rotation keeps the archives, every byte in reading order and the numbering without gaps |
| `LogStore.CompressedKeeps` | services/tlogcat/src/tlogcat.c:578-615 | archiving adds the raw files behind the archives, of which exactly the last four stay |
| `LogStore.RetiredKeeps` | services/tlogcat/src/tlogcat.c:664-686 | a retired file keeps every byte, in the raw files or in one new archive of four files |
| `LogStore.MoveFilesToTmpPath` | services/tlogcat/src/tlogcat.c:546-576 | the raw files all move, none is lost |
| `LogStore.GetCompressFile` | services/tlogcat/src/tlogcat.c:394-423 | the first free archive slot |
| `LogStore.ArrangeCompressFile` | services/tlogcat/src/tlogcat.c:425-470 | drops archive 0, shifts the others forward onto names that are free, and leaves slot 3 |
| `LogStore.CompressFiles` | services/tlogcat/src/tlogcat.c:578-615 | the files after archiving equal the specification |
| `LogStore.RetireFiles` | services/tlogcat/src/tlogcat.c:617-662 | a full file is rotated onto an unused name, or archived with the three before it |
| `LogStore.GetFileIndex` | services/tlogcat/src/tlogcat.c:719-741 | the highest raw number in use |
| `LogStore.LogsConserved` | services/tlogcat/src/tlogcat.c:394-827 | over any run, for every UUID: the archives are the last four of those there were and those made since, each of four raw files; what was archived since followed by the raw files is what was in the raw files followed by what was written since; numbers leave no gap |
| `LogStore.EachItemOnce` | services/tlogcat/src/tlogcat.c:913-945 | over any run, what is written for a UUID is its saved items, each once and in order, with version headers between |
| `LogStore.OpenCount` | services/tlogcat/src/tlogcat.c:175-210 | as many files are open as entries of the table are taken |
| `LogStore.TLogcat.constructor` | services/tlogcat/src/tlogcat.c:719-741 | starts from any contiguous set of files, with none open |
| `LogStore.TLogcat.GetUsableFile` | services/tlogcat/src/tlogcat.c:688-717 | retires the UUID's file exactly when it is open and full, and finds an entry exactly when one is open below the limit |
| `LogStore.TLogcat.LogFilesAdd` | services/tlogcat/src/tlogcat.c:175-210 | the first free entry takes the file; there is none exactly when 128 are open |
| `LogStore.TLogcat.LogFilesOpen` | services/tlogcat/src/tlogcat.c:222-276 | a new file starts with the version, which its remembered length does not count; an existing one is taken with its length, which may be at the limit |
| `LogStore.TLogcat.LogFilesGet` | services/tlogcat/src/tlogcat.c:743-786 | an entry for the UUID exactly unless 128 files of others are open; files and lengths as specified |
| `LogStore.TLogcat.WriteLog` | services/tlogcat/src/tlogcat.c:913-945 | saves the item exactly unless all 128 entries are open for other UUIDs; files and lengths as specified |
| `LogStore.TLogcat.LogFilesClose` | services/tlogcat/src/tlogcat.c:788-827 | closes every entry, retiring exactly the full files |
| `LogStore.TLogcat.Replay` | services/tlogcat/src/tlogcat.c:394-945 | any run of items and closes leaves exactly the files, open lengths and saved marks of the specified run, of which the conservation lemmas speak |
| `LogArchives.ArchivesAreFull` | services/tlogcat/src/tlogcat.c:664-827 | over any run, every archive made is of four files that have reached 500 KB and exceed it by less than the version and one item |
| `LogArchives.LogsReadBack` | services/tlogcat/src/tlogcat.c:335-387 | every archive that any run from empty files makes is written as a tar stream that reads back exactly, names and contents of its four files |
| `LogArchives.FilesHaveHeads` | services/tlogcat/src/tlogcat.c:222-276 | in every run every file, archived or not, begins with the version and holds nothing but items behind it |
| `LogParser.ParseTiles` | services/tlogcat/src/tlogcat.c:837-860 | the items found are consecutive, disjoint and inside the read length |
| `LogParser.ParseFindsAll` | services/tlogcat/src/tlogcat.c:837-860 | on a concatenation of valid items exactly those slices are found, in order |
| `LogParser.WellFormedExactly` | services/tlogcat/src/tlogcat.c:837-860 | the parser accepts a slice as one item exactly if it is one: the magic number, a text's length, that length rounded up to 64, the text, at most 1024 bytes |
| `LogParser.TextsComeBack` | services/tlogcat/src/tlogcat.c:837-860 | from items written one after the other the parser gets back their texts, in order |
| `LogParser.OutputLog` | services/tlogcat/src/tlogcat.c:947-962 | the byte behind the text becomes NUL, or the payload's last when the text fills it, and no other byte changes; writing to a file changes none |
| `LogParser.ReadLogBuffer` | services/tlogcat/src/tlogcat.c:964-986 | terminates, and although it writes into each shown item it emits what parsing the untouched buffer gives |
| `Ring.ListInit` | interfaces/inner_api/tee_client_list.h:27-31 | the empty ring |
| `Ring.ListInsertHead` | interfaces/inner_api/tee_client_list.h:37-43 | prepends to the sequence and keeps next and prev inverse |
| `Ring.ListInsertTail` | interfaces/inner_api/tee_client_list.h:45-51 | appends to the sequence and keeps next and prev inverse |
| `Ring.ListRemoveEntry` | interfaces/inner_api/tee_client_list.h:53-57 | deletes exactly that entry from the sequence |
| `Ring.ListRemoveHead` | interfaces/inner_api/tee_client_list.h:59-67 | removes and returns the first entry, none from an empty ring |
| `Ring.ListRemoveTail` | interfaces/inner_api/tee_client_list.h:69-77 | removes and returns the last entry, none from an empty ring |
| `Ring.Contains` | interfaces/inner_api/tee_client_list.h:82-83 | the plain iteration ends, and finds an entry exactly when it is on the list |
| `Ring.RemoveAll` | frameworks/libteec_vendor/tee_client_api.c:1007-1042 | the safe iteration that removes each entry visits every entry once, in order, and empties the ring |
| `Ring.AddSessionList` | frameworks/libteec_vendor/tee_client_api.c:289-318 | whether or not the session was listed, afterwards it is listed once, at the end, and the others keep their order |
| `FsAgent.Agent.AddOpenFile` | services/teecd/src/fs_work_agent.c:68-93 | appends to the ring that has no sentinel |
| `FsAgent.Agent.DelOpenFile` | services/teecd/src/fs_work_agent.c:95-117 | deletes exactly that entry, moving the start when it was the first |
| `FsAgent.Agent.FindOpenFile` | services/teecd/src/fs_work_agent.c:119-145 | finds the first entry with the descriptor, none exactly when the sequence has none |
| `FsAgent.Agent.CloseWork` | services/teecd/src/fs_work_agent.c:956-980 | the open files without the closed one |
| `FsAgent.Agent.HandleWakeup` | services/teecd/src/fs_work_agent.c:1479-1540 | one response for each wake-up; the command acts only when the mark says it is new |
| `FsAgent.Agent.Run` | services/teecd/src/fs_work_agent.c:1542-1577 | over any run of posts and wake-ups, real or duplicate, each posted command acts at most once and in order, each wake-up is answered once, and the ring holds in order the files opened and not closed |
| `FsAgent.CloseTakesFirst` | services/teecd/src/fs_work_agent.c:956-980 | closing takes out the first entry of the file and leaves the others in order |
| `FsAgent.OpenFilesExactly` | services/teecd/src/fs_work_agent.c:68-145 | in every run a file is on the list exactly if the last command that names it opened it, once, and files stand in the order in which they were opened |
| `FsAgent.EventPieces` | services/teecd/src/fs_work_agent.c:1542-1577 | what was posted and how often the agent was woken add up over the pieces of a run |
| `Tar.WriteOneUint` | services/tlogcat/src/tarzip.c:66-77 | writes the field in place and returns its byte sum |
| `Tar.WriteHeader` | services/tlogcat/src/tarzip.c:80-124 | the in-place header with its running sum equals the specified block |
| `Tar.CheckSumRight` | services/tlogcat/src/tarzip.c:80-124 | the checksum field, left-over digits and all, reads as the header's byte sum with that field taken as spaces (POSIX pax, ustar Interchange Format) |
| `Tar.HeaderReadsBack` | services/tlogcat/src/tarzip.c:80-124 | a header gives back, each in ustar's place, the name cut to 99 bytes, mode 0666 of a regular file, user and group 0, and the size cut to 32 bits |
| `Tar.WriteZipContent` | services/tlogcat/src/tarzip.c:129-168 | the content, filled up with zeros to whole blocks |
| `Tar.WriteSingleFile` | services/tlogcat/src/tarzip.c:221-247 | header and content of a regular file with a usable name; others are skipped or stop the archive |
| `Tar.NamedExactly` | services/tlogcat/src/tarzip.c:221-247 | a path can be archived exactly if at least seven characters follow its last slash, and under those |
| `Tar.TarZipFiles` | services/tlogcat/src/tarzip.c:250-291 | the files in order and one zero block, which a refused name leaves out |
| `Tar.ArchivesReadBack` | services/tlogcat/src/tarzip.c:221-291 | a reader that checks every checksum recovers the files written, up to the first empty one |
| `Tar.ReadBackIsExact` | services/tlogcat/src/tarzip.c:80-124 | the files come back as they were if and only if none is empty and every name is under 100 bytes |
| `Tar.EmptyFileEndsArchive` | services/tlogcat/src/tarzip.c:80-124 | four files of which the first is empty, and whose archive reads back as no file at all |
| `Login.TEEGetNativeSACaInfo` | services/authentication/tee_auth_system.cpp:305-348 | writes the record of name and uid exactly when it fits, and otherwise nothing |
| `Login.SetPathToBuf` | services/authentication/tee_get_native_cert.c:24-64 | the length-prefixed path, with the room left counted down |
| `Login.SetUidToBuf` | services/authentication/tee_get_native_cert.c:66-103 | the length-prefixed uid, exactly when eight bytes are left |
| `Login.TeeGetNativeCert` | services/authentication/tee_get_native_cert.c:117-145 | writes the same record, for the same buffers, and reports its length |
| `Login.WritersAgree` | services/authentication/tee_get_native_cert.c:117-145 | buffers filled by either writer for the same name and uid are equal, and name and uid read back |
| `Login.CertsName` | services/authentication/tee_auth_system.cpp:305-348 | the name both writers record is the one in front of the first NUL |
| `Login.NativeReadsBack` | services/authentication/tee_auth_system.cpp:305-348 | the record gives back name and uid whatever follows it |
| `Login.FillEccHapCaInfo` | services/authentication/tee_auth_system.cpp:79-124 | writes the record exactly when it fits, except that an empty key fails when the record fills the buffer |
| `Login.HapReadsBack` | services/authentication/tee_auth_system.cpp:79-124 | the record gives back the name and both key halves; they make up the key, and the outer length fits, if and only if the key's length is even |
| `Login.OddKeyLosesLastByte` | services/authentication/tee_auth_system.cpp:79-124 | a key of three bytes that comes back as its first two |
| `Paths.JoinFileNameTransient` | services/teecd/src/fs_work_agent.c:318-368 | the path in the user's directory, exactly when it fits and the user's number has at most eight digits |
| `Paths.DoJoinFileName` | services/teecd/src/fs_work_agent.c:439-466 | for every name the path of its kind, a valid one, exactly when it fits |
| `Paths.JoinFileNameForStorageCE` | services/teecd/src/fs_work_agent.c:468-513 | the path under the user's CE directory, exactly when there is a user component and room |
| `Paths.JoinFileName` | services/teecd/src/fs_work_agent.c:515-545 | success exactly when the name is not refused and the path fits; the result is the name's target and a valid file path |
| `Paths.TargetIsValid` | services/teecd/src/fs_work_agent.c:547-603 | every name leads into one of the directories IsValidFilePath admits |
| `Paths.UsersAreApart` | services/teecd/src/fs_work_agent.c:318-368 | no path lies in the directories of two users |
| `Paths.TransientPathsDiffer` | services/teecd/src/fs_work_agent.c:318-368 | outside CE storage two transient names lead to one path if and only if user and name are the same |
| `Paths.TransientLeads` | services/teecd/src/fs_work_agent.c:318-368 | without a user a transient name stands under the data directory as it is; with one, its rest stands in the directory of the user's number |
| `Paths.RefusedUsers` | services/teecd/src/fs_work_agent.c:318-368 | a user's transient names are refused exactly from nine-digit numbers on |
| `Paths.BareDirectory` | services/teecd/src/fs_work_agent.c:318-368 | the bare transient directory is refused exactly to users |
| `Paths.CeRefused` | services/teecd/src/fs_work_agent.c:468-513 | in CE storage exactly the names without any component are refused, besides those with `../` |
| `Paths.PersistentSpellings` | services/teecd/src/fs_work_agent.c:439-466 | a persistent name with its directory, with its path, or with neither is the same file |
| `Paths.PrivateLeads` | services/teecd/src/fs_work_agent.c:439-466 | private and personal names are transient ones of no user |
| `Paths.CeLeads` | services/teecd/src/fs_work_agent.c:468-513 | in CE storage the first component names the user, whose directory the rest goes into |
| `Paths.ClimbsExactly` | services/teecd/src/fs_work_agent.c:468-545 | in every storage and for every user, a joined path has a component `..` if and only if the name's last component is one, which the check of the name lets pass |
| `Paths.ParentNamePasses` | services/teecd/src/fs_work_agent.c:238-250 | the name `..` is accepted and joins to a path that climbs |
| `Paths.ParentNamePassesInCe` | services/teecd/src/fs_work_agent.c:468-513 | the same in CE storage, of the name `7/..` |

## Left out

- MessageParcel, Ashmem, ioctl, mmap, sockets and gzip: foreign calls, present only as parameters and assumptions.
- The daemon's stub dispatch, TUI, telephony and display listeners, hilog and syslog output, TA loading, late init and the misc agent: plumbing, user interface or thin wrappers.
- Daemon branches in which a reply write, malloc, memcpy_s, AddTidData or GetTeecOptMem fails: `Lifetime` admits the gets and puts they make or forget, in any order; what whole calls keep is stated for the vendor calls and the daemon's regular paths only.
- Races between the check of a descriptor and a later lookup by its number: `ProcTable` and `ClientTable` take requests as atomic.
- Lock failures, memory barriers and counter overflow.
- ION parameters, the backup partition and the smart-lock configuration: further cases of the same shape.
- The tag cache of proc_tag.c, access tokens, bundle lookups and base64 decoding.
- The file agent's other commands (read, write, seek, rename, copy, truncate, remove, statistics): each is one call of the C library.
- `strtok_r` is modelled as leaving an empty rest when no slash follows the first component.
- Lifetime.StepKeepsInv: keeps lists as sets, because order does not matter to counts (order is the subject of `Ring`, and of the lookups in `VendorApi` and `DaemonCodec`), and counts sessions as the daemon does, not as an application that owns its session structures.
- LifetimeRuns.UseAfterFreeExactly: covers the vendor library's locked regions and the daemon's read of a block after its put, not every other line of the daemon.
- Interleavings.CallsUseNothingFreed: leaves out the daemon's read of a block after its put, which `Witnesses.LateReadUsesFreedBlock` shows to use freed memory, and the daemon's failing paths, of which `Witnesses.LeakedBlockKeepsBit` is one.
- LogStore.TLogcat.Replay: counts one write as one chunk, does not model a write that stops half way, and takes the version header as one fixed text.
- Tar.ArchivesReadBack: takes contents under 4 GiB, because the size field holds 32 bits; `Tar.HeaderReadsBack` says what a larger file's header reads as.
- LogArchives.LogsReadBack: takes items of at most 1024 bytes and a version of at most 256, the limits of the parser and of the version buffer, and names of at most 36 bytes before the number, as `LOG@` with a UUID has.
- Paths.JoinFileName: takes names under 256 bytes, the size of the buffer the TEE sends them in.
- Agreement.AgreementExactly: takes a new mapping of the client to be at no address that a row of the table holds; older structures may hold it.
- Agreement.TableAgreesWithDaemon: takes non-zero sizes, because rows of size zero share one buffer value and a lookup finds the first.
- Agreement.RowsResolve: the same runs.
- ProperUse.ProperRunsAgree: its rules name one address an application cannot see, the daemon's own mapping, which a registered address must not equal; `Disagreements.AddressesMayCollide` is why.
- RequestRoundTrip.RequestRoundTrip: takes buffers of the caller to lie inside its memory.
- VendorApi.Vendor.OpenSession: takes the login method, the loading of the application's file and the driver's answers as given, and does not model the fault of `Driver.CheckedHasParents`.
- Login.FillEccHapCaInfo: takes the key as already decoded.
