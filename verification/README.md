# ELAP, verified model

ELAP is a Linux runtime platform: framed messages over Unix stream sockets,
named kernel objects, a thread manager, devices, a persistent store with
configuration on top, and a service lifecycle. This project models those
components in Dafny and proves what they keep over every run, every
interleaving and every pattern of failing or partial system calls.

`dafny verify dfyconfig.toml` checks everything.

## How the model is built

Each component that changes state step by step appears in up to two forms.

* A **class** follows the C++ class statement by statement: same fields, same
  order of checks, same loops. The operating system behind it is a small
  environment class (a stream socket, a directory, a kernel name table, a
  database, a shutdown flag). The outcome of every system call comes from a
  *plan*, an arbitrary finite sequence of short transfers, interrupts,
  would-block results, empty wakeups and errors; a plan that has run out means
  calls that do all they can. A contract that holds for every plan holds for
  every run with finitely many disturbances, and termination is proved for all
  of them.
* A **state machine** covers what several threads, processes or handles do to
  one shared thing: a value for the whole state, a datatype of steps, and
  theorems over every sequence of enabled steps.

Where a component has both forms, lemmas named `...IsARun` show that what the
class promises of a call is a run of the machine in which one party makes that
call.

| module | models |
|---|---|
| `Basics`, `Seqs` | shared vocabulary and sequence facts |
| `Framing` | the length-prefixed wire format |
| `FramedChannel`, `FramedChannelRuns`, `FramedChannelFailures` | sender and receiver interleaving on one stream, machine; whole calls as runs of it; what a failed call means |
| `UnixSocketConnection`, `Deadlines` | transfer loops, waits and timeouts, classes |
| `SocketPaths`, `SocketGaps`, `UnixSocketServer` | ownership of socket paths, machine, its exact failures, and class |
| `ThreadManagerProtocol`, `ThreadManager`, `ThreadManagerRuns`, `ThreadManagerStops` | startThread, requestStop, joinAll, machine and class; whole calls as runs; whom a joinAll waits for after a requestStop |
| `NamedObjects` | owners, openers, moves and unlink, machine |
| `SharedMemory`, `MessageQueue`, `EventBus` | the classes built on named objects, and the bus as a machine |
| `Text`, `Integers`, `ConfigText` | trimming, number texts, the configuration format |
| `PersistentStore`, `Configuration` | transactional store and the two configuration backends |
| `ServiceApplication`, `Devices` | lifecycle under signals, device rollback |
| `SampleService`, `SampleIpc`, `SampleExchange` | two sample programs as clients of the above; one IPC exchange as a machine |

## What the proofs found

Properties that turn out not to hold in general are kept as the code has them,
with a concrete run and the exact condition under which they do hold.

* **Going on after a failed transfer.** A call that returned false part-way
  through a frame leaves the stream inside that frame (`FailureBoundary`).
  `SenderMayGoOnIff` and `ReceiverMayGoOnIff` say what that means: a side may go
  on exactly if its failed call had transferred nothing. Otherwise there are
  messages that make the receiver return what was not passed in, not even if the
  failed message is taken to be missing, although no later call misbehaves. The
  exceptions are exact, too: a receiver that has given up inside a frame, or is
  inside one that its limit will refuse, returns nothing more at all (`Doomed`);
  and if both sides have failed inside a frame, it depends on what can be made
  out in the bytes already on the wire (`Returnable`). `StrayingCorrupts` is a
  small concrete run.
* **Windows.** `UnixSocketServer::listen` takes no lock between probing a path
  and reading back the identity of what it bound. `HarmIff` is the exact
  condition, whatever other servers do: the step that ends a window removes an
  entry, or records an identity, that its server does not count on if and only
  if the path leads somewhere and has been rebound since; and it removes a live
  entry that it was told is dead if and only if that has come to be listened on.
  Runs without such a step are safe (`EntriesAreSafe`, `ListenersAreSafe`,
  `CloseSparesOthers`), and none happens while no server works on a path that
  another is in its window on (`ExclusiveIsHarmless`). `GapIsReal`,
  `StaleGapIsReal` and `BlindGapIsReal` are runs with harm: a listener's entry
  removed by another server's close, one removed as stale, and a file that is no
  socket removed.
* **Failed probes.** Every failed connect counts as nobody listening, so a
  listening server loses its path to a take-over exactly if the probe of it
  fails for some other reason, such as a signal or missing permission
  (`TakeOverIff`, `ListenersAreSafe`, and for the class `ListenerIsDisplacedIff`).
* **An orphaned listener.** listen() returning true does not mean that the path
  leads to the server. It does, and stays so until the server closes or dies, if
  and only if no other server unlinked the path as stale between the identity
  read-back and `::listen` (`ListenerIsReachedIff`). In `OrphanIsReal`, from an
  empty directory and without harm, two calls return true and one server is
  unreachable.
* **unlink() on a handle that is no owner** is safe exactly if no other handle
  owns the name. If one does, then from every sound state a create() of that name
  by any handle but the old owner has its object removed by the old owner's close
  (`UnlinkIsSafeIff`, `OldOwnerRobs`). `StrangerUnlinkHurts` reaches such a state.
* **requestStop followed by joinAll**, as in `~ThreadManager`, is two critical
  sections. The joinAll waits only for workers that have been asked to stop if
  and only if no startThread has got a thread registered in between
  (`BatchIsAskedIff`); from every reachable state one can (`LateStart`).
* **PosixMessageQueue::create returning false** after `mq_getattr` fails leaves
  the handle open and owning, with a size limit of 0 (`Create`): it can still
  send empty messages but never receives.

## Model

| member | source | states |
|---|---|---|
| `Framing.LengthRoundTrip` | platform/src/ipc/UnixSocket.cpp:325-326 | every 32-bit length survives encoding and decoding |
| `Framing.HeaderRoundTrip` | platform/src/ipc/UnixSocket.cpp:363-368 | every four header bytes are the encoding of what they decode to |
| `Framing.DecodesBigEndian` | docs/ELAP_Phase2_IPC.md:79-86 | the header is the length most significant byte first, against a positional definition of any width |
| `Framing.ParseSound` | docs/ELAP_Phase2_IPC.md:79-86 | parsing a stream into messages and a rest loses no byte, and the rest holds no whole frame |
| `Framing.ParseFrames` | docs/ELAP_Phase2_IPC.md:79-86 | parsing inverts framing for any message list, whatever incomplete bytes follow |
| `Framing.PrefixFree` | docs/ELAP_Phase2_IPC.md:79-86 | no frame is the beginning of another |
| `Framing.ParsePrefix` | platform/src/ipc/UnixSocket.cpp:353-379 | whatever part of a framed stream has been read, the whole messages in it are a prefix of those framed |
| `Framing.FramesInjective` | docs/ELAP_Phase2_IPC.md:79-86 | two message lists with the same bytes are the same |
| `Framing.BoundaryIffNothingTransferred` | platform/src/ipc/UnixSocket.cpp:326-327 | a partly transferred frame leaves the stream between frames exactly if no byte of it went out |
| `FramedChannel.StepKeepsInv` | platform/src/ipc/UnixSocket.cpp:74-176 | every system call of either side keeps both sides aligned with the frames of the message histories |
| `FramedChannel.FifoDelivery` | platform/src/ipc/UnixSocket.cpp:314-413 | for every interleaving and fragmentation, as long as no side goes on after a call that failed inside a frame, the messages received are a prefix of those offered, byte for byte and in order |
| `FramedChannel.QuiescentDelivery` | platform/src/ipc/UnixSocket.cpp:314-413 | once both sides rest and nothing is in flight, received, completed and offered messages are the same |
| `FramedChannel.FailureBoundary` | platform/src/ipc/UnixSocket.cpp:369-372 | after a call that returned false the stream is between frames exactly if that call had transferred nothing |
| `FramedChannel.StrayingCorrupts` | platform/src/ipc/UnixSocket.cpp:314-379 | a concrete run in which a send after a failed send makes the receiver return a message nobody sent |
| `FramedChannelFailures.SenderMayGoOnIff` | platform/src/ipc/UnixSocket.cpp:314-351 | after any run: a sender may go on after a false sendMessage if and only if that call had handed over nothing or the receiver returns nothing more anyway; otherwise some later messages make it return what is a prefix neither of what was passed in nor of that without the failed message |
| `FramedChannelFailures.ReceiverMayGoOnIff` | platform/src/ipc/UnixSocket.cpp:369-372 | after any run: a receiver may go on after a false receiveMessage if and only if that call had consumed nothing, or the sender has failed inside a frame as well and what is left on the wire happens to be right; otherwise it can be made to return what is wrong even without the failed message |
| `FramedChannelFailures.WrittenOffGoesOn` | platform/src/ipc/UnixSocket.cpp:314-379 | the next call after a failed one does the same as after the failure is forgotten, but for the mark of having strayed, so going on may be judged there |
| `FramedChannelFailures.SilentStaysIff` | platform/src/ipc/UnixSocket.cpp:353-379 | when nothing more can be sent, a receiver's whole future is right exactly if the messages parsed from the rest of the wire continue what it has returned |
| `FramedChannelFailures.DoomedStaysExact` | platform/src/ipc/UnixSocket.cpp:363-372 | a receiver lost inside a frame, or inside one whose announced size its limit must refuse, never returns anything wrong, whatever follows on the wire |
| `FramedChannelRuns.SendIsARun` | platform/src/ipc/UnixSocket.cpp:314-328 | for every message and every count of its frame's bytes some run of a send call moves exactly those, and it is complete exactly if that is all of them |
| `FramedChannelRuns.ReceiveIsARun` | platform/src/ipc/UnixSocket.cpp:353-379 | for all bytes a receive call may consume some run of one consumes exactly those, returning their message or failing |
| `Deadlines.PollTimeout` | platform/src/ipc/UnixSocket.cpp:29-38 | the result lies in -1..INT_MAX, is the count itself for every representable one, INT_MAX for every larger one and -1 exactly for negative ones |
| `Deadlines.RemainingMillis` | platform/src/ipc/UnixSocket.cpp:47-50 | never negative, zero past the deadline, otherwise the time left rounded down to whole milliseconds |
| `Deadlines.TimeoutIsLate` | platform/src/ipc/UnixSocket.cpp:46-62 | a poll that ran its whole timeout ends less than 1 ms before the smaller of the deadline and INT_MAX ms after its start |
| `Deadlines.LoadDeadline` | platform/src/ipc/PosixMessageQueue.cpp:52-77 | the deadline is exactly now plus the timeout with 0 <= nsec < 10^9; negative timeouts and clock failures are told apart |
| `UnixSocketConnection.WaitForDescriptor` | platform/src/ipc/UnixSocket.cpp:40-72 | terminates, polls for exactly the whole milliseconds left as far as an int holds them, repeats that exactly while it is interrupted or wakes up for nothing, and answers what its last poll reported; it never times out more than 1 ms early |
| `UnixSocketConnection.WriteAll` | platform/src/ipc/UnixSocket.cpp:74-124 | true exactly if all bytes went out in order, false leaves a strict prefix; false exactly if its last system call was an error, a closed connection or a wait that came to nothing, and none before it was; with a deadline every send directly follows a poll that reported readiness, and a timeout is never early by 1 ms |
| `UnixSocketConnection.RecvInto` | platform/src/ipc/UnixSocket.cpp:131-143 | one recv puts the next bytes of the stream at the read position and leaves the rest of the buffer alone |
| `UnixSocketConnection.ReadAll` | platform/src/ipc/UnixSocket.cpp:126-176 | the buffer starts with exactly the bytes taken off the stream, the rest is untouched; true exactly if it is full; stopped, paced and timed like WriteAll |
| `UnixSocketConnection.FrameConsumed` | platform/src/ipc/UnixSocket.cpp:363-378 | header and payload read separately are one whole frame exactly if the payload has the announced size |
| `UnixSocketConnection.UnixSocketConnection.SendMessage` | platform/src/ipc/UnixSocket.cpp:314-351 | true exactly if the whole frame was appended, otherwise a strict prefix of it; nothing at all when refused; false exactly if its last system call was the first to be an error, a closed connection or a wait that came to nothing; a timed call times out less than 1 ms before its deadline at the earliest, INT_MAX ms of one wait permitting |
| `UnixSocketConnection.UnixSocketConnection.ReceiveMessage` | platform/src/ipc/UnixSocket.cpp:353-413 | success consumes exactly the frame of the message returned; an oversized header consumes exactly 4 bytes; it fails exactly for such a header or if its last system call was the first that stops it; undisturbed, it succeeds exactly if a whole frame within the limit is there; timed like SendMessage |
| `UnixSocketConnection.UnixSocketConnection.Close` | platform/src/ipc/UnixSocket.cpp:415-421 | the descriptor is closed and given up, the byte histories stay |
| `UnixSocketConnection.UnixSocketConnection.MoveFrom` | platform/src/ipc/UnixSocket.cpp:288-302 | the descriptor changes hands, the target's old one is closed, a self-move changes nothing |
| `SocketPaths.StepKeepsRecords` | platform/src/ipc/UnixSocket.cpp:428-477 | every harmless step of any server keeps: what a server holds, owns or has recorded it has made itself, and identities are unique |
| `SocketPaths.EntriesAreSafe` | platform/src/ipc/UnixSocket.cpp:195-274 | in every run without harmful steps an entry is only disturbed if it is a socket, and then by its maker or by a listen() that has probed this very entry; non-sockets never |
| `SocketPaths.ListenersAreSafe` | platform/src/ipc/UnixSocket.cpp:195-237 | in such runs an entry being listened on is disturbed if and only if it is unlinked after a probe of it that failed for another reason than that nobody listens |
| `SocketPaths.ExclusiveIsHarmless` | platform/src/ipc/UnixSocket.cpp:428-477 | runs of any servers in which none works on a path that another is in its window on have no harmful step; servers on other paths interleave freely |
| `SocketPaths.StepKeepsInv` | platform/src/ipc/UnixSocket.cpp:444-461 | each exclusive step keeps every window sound: the path is as its server left it, and one window per path |
| `SocketPaths.CloseSparesOthers` | platform/src/ipc/UnixSocket.cpp:540-553 | in every run without harmful steps a close leaves every entry it did not bind exactly where it is |
| `SocketGaps.ReboundIff` | platform/src/ipc/UnixSocket.cpp:449-461 | a path that led to an inode and leads somewhere leads elsewhere if and only if some step rebound it, since inodes are fresh |
| `SocketGaps.HarmIff` | platform/src/ipc/UnixSocket.cpp:195-257 | for any steps of other servers: the step that ends a window does harm if and only if the path leads somewhere and was rebound since the probe or bind, or the probed entry has come to be listened on |
| `SocketGaps.ListenedSince` | platform/src/ipc/UnixSocket.cpp:464-469 | an inode that has come to be listened on has done so by a ::listen in between |
| `SocketGaps.TakeOverSucceeds` | platform/src/ipc/UnixSocket.cpp:444-476 | a listen that takes a socket for stale ends listening on its own fresh entry |
| `SocketGaps.TakeOverIff` | platform/src/ipc/UnixSocket.cpp:195-237 | a take-over can go through if and only if the probe fails otherwise or the kernel answers that nobody listens; with a listener there, exactly if the probe fails otherwise, and the listener is left at no path |
| `SocketGaps.GapLosesOwnership` | platform/src/ipc/UnixSocket.cpp:449-461 | from any state between bind and identity: after a take-over there, the first server's close removes the other's live entry |
| `SocketGaps.StaleGapEvicts` | platform/src/ipc/UnixSocket.cpp:209-237 | from any state between probe and unlink: after a take-over there, the unlink removes the other's live entry |
| `SocketGaps.BlindGapTakesFile` | platform/src/ipc/UnixSocket.cpp:457-461 | from any state between bind and identity: if the entry is unlinked and a file takes its place, the failed listen removes the file |
| `SocketGaps.GapIsReal` | platform/src/ipc/UnixSocket.cpp:428-477 | the first of these happens from an empty directory |
| `SocketGaps.StaleGapIsReal` | platform/src/ipc/UnixSocket.cpp:209-237 | the second happens from a directory with a socket left over |
| `SocketGaps.BlindGapIsReal` | platform/src/ipc/UnixSocket.cpp:457-461 | the third happens from an empty directory |
| `SocketGaps.PathIsKeptIff` | platform/src/ipc/UnixSocket.cpp:457-469 | over exclusive runs the path leads to what a server has identified if and only if nobody has unlinked it as stale |
| `SocketGaps.ListenerIsReachedIff` | platform/src/ipc/UnixSocket.cpp:457-476 | over exclusive runs with definite probes: after a successful ::listen, until close or death, the path leads to the server if and only if no other server unlinked it as stale between identity read-back and ::listen |
| `SocketGaps.OrphanIsReal` | platform/src/ipc/UnixSocket.cpp:457-476 | from an empty directory such a run ends with two successful listens and one server unreachable |
| `UnixSocketServer.UnixSocketServer.Close` | platform/src/ipc/UnixSocket.cpp:540-553 | only the entry with the recorded identity goes, only this server's socket stops listening |
| `UnixSocketServer.UnixSocketServer.UnlinkOwnedSocketPath` | platform/src/ipc/UnixSocket.cpp:259-274 | the directory changes only if the path holds a socket with that identity |
| `UnixSocketServer.UnixSocketServer.RemoveStaleSocketPath` | platform/src/ipc/UnixSocket.cpp:195-237 | true exactly if the path was free or held a socket that the probe, answered or failed, takes for dead and that could be unlinked; only that one is ever removed |
| `UnixSocketServer.UnixSocketServer.Listen` | platform/src/ipc/UnixSocket.cpp:428-477 | succeeds exactly under the stated conditions and then adds one fresh listened-on entry; failure removes exactly a socket that was taken for stale |
| `UnixSocketServer.OnlySocketsAreDisplaced` | platform/src/ipc/UnixSocket.cpp:220-237 | whatever fails, listen only displaces what is at its path, and that only if it is a socket |
| `UnixSocketServer.ListenerIsDisplacedIff` | platform/src/ipc/UnixSocket.cpp:195-237 | listen displaces an entry being listened on if and only if its probe fails for another reason and lstat and unlink work |
| `UnixSocketServer.ListenSucceedsIff` | platform/src/ipc/UnixSocket.cpp:178-237 | listen succeeds if and only if the path has 1 to 107 characters, its system calls go through, and the path is free or holds a socket whose probe finds nobody or fails otherwise |
| `UnixSocketServer.CloseIsARun` | platform/src/ipc/UnixSocket.cpp:540-553 | whatever the other servers are doing, one server's close taken in one go leaves the entries that Close promises, and is an exclusive run if no other server is in its window on the path |
| `UnixSocketServer.ListenIsARun` | platform/src/ipc/UnixSocket.cpp:428-477 | the same for listen, under every combination of failing calls and failing probes, against whoever really is listening, down to the server's fields |
| `ThreadManagerProtocol.TakeAll` | platform/src/threading/ThreadManager.cpp:93-97 | one swap moves exactly the registered thread objects into the batch |
| `ThreadManagerProtocol.StepKeepsInv` | platform/src/threading/ThreadManager.cpp:36-108 | every step of any thread keeps mutex, registry, pending threads, batches and tickets sound |
| `ThreadManagerProtocol.WaitsRaiseTickets` | platform/src/threading/ThreadManager.cpp:91-108 | a thread blocked joining a worker swapped before any joinAll of that worker did |
| `ThreadManagerProtocol.NoJoinCycle` | platform/src/threading/ThreadManager.cpp:91-108 | in every reachable state no chain of blocked joins, of any length, returns to its start |
| `ThreadManagerProtocol.NoJoinUnderMutex` | platform/src/threading/ThreadManager.cpp:93-108 | no thread waits in join while holding the mutex |
| `ThreadManagerProtocol.NeverStuck` | platform/src/threading/ThreadManager.cpp:36-108 | whenever a thread is inside the manager some thread can take a step there, or a chain of joins leads to a worker still in its own code |
| `ThreadManagerProtocol.ExactlyOneHome` | platform/src/threading/ThreadManager.cpp:36-108 | every started thread is in exactly one of: a startThread under way, the registry, one batch, joined, detached; joined ones have ended |
| `ThreadManagerProtocol.BatchIsSpent` | platform/src/threading/ThreadManager.cpp:99-107 | joinAll leaves no joinable thread object when its batch is destroyed |
| `ThreadManagerProtocol.QuiescentAllDone` | platform/src/threading/ThreadManager.cpp:91-108 | with no call in progress and an empty registry every worker is detached, or has ended and is joined |
| `ThreadManagerProtocol.StopReachesAll` | platform/src/threading/ThreadManager.cpp:83-89 | a requestStop about to leave has raised the flag of every registered worker |
| `ThreadManagerProtocol.NamesDistinct` | platform/src/threading/ThreadManager.cpp:43-47 | registered names are pairwise distinct in every reachable state |
| `ThreadManagerProtocol.NoWorkerIsDetached` | platform/src/threading/ThreadManager.cpp:101-103 | a worker is detached only if workers call the manager |
| `ThreadManagerProtocol.ShutdownJoinsAll` | platform/src/threading/ThreadManager.cpp:30-34 | if workers never call the manager, an empty registry at rest means every started thread has ended and been joined |
| `ThreadManager.ThreadManager.StartThread` | platform/src/threading/ThreadManager.cpp:36-81 | exactly the empty worker and duplicate names are refused; a failing thread creation leaves everything as it was |
| `ThreadManager.ThreadManager.RequestStop` | platform/src/threading/ThreadManager.cpp:83-89 | exactly the registered workers' flags are raised |
| `ThreadManager.ThreadManager.JoinAll` | platform/src/threading/ThreadManager.cpp:91-108 | the registry empties, every worker in it is joined, except the caller itself, which is detached |
| `ThreadManager.ThreadManager.Destroy` | platform/src/threading/ThreadManager.cpp:30-34 | every registered worker is asked to stop, has ended and is joined |
| `ThreadManagerRuns.StartIsARun` | platform/src/threading/ThreadManager.cpp:36-81 | from any state with a free mutex a startThread taken in one go changes nothing, or registers one new running worker last; without a worker it returns at once |
| `ThreadManagerRuns.StopIsARun` | platform/src/threading/ThreadManager.cpp:83-89 | a requestStop taken in one go raises exactly the registered workers' flags |
| `ThreadManagerRuns.JoinIsARun` | platform/src/threading/ThreadManager.cpp:91-108 | a joinAll during which the registered workers end leaves them joined, the caller itself detached, the registry empty and all other thread objects and flags alone |
| `ThreadManagerRuns.ReachableCanCall` | platform/src/threading/ThreadManager.cpp:36-108 | what these runs ask of the registry holds in every reachable state with a free mutex |
| `ThreadManagerStops.ReachableFlags` | platform/src/threading/ThreadManager.cpp:49-79 | in every reachable state only workers that have been registered have their stop flag raised |
| `ThreadManagerStops.BatchIsAskedIff` | platform/src/threading/ThreadManager.cpp:30-34 | over every run between a requestStop and a later swap: every worker in the batch has been asked to stop if and only if no thread object was pushed after the last swap in between |
| `ThreadManagerStops.LateStart` | platform/src/threading/ThreadManager.cpp:30-34 | from every reachable state with two callers: a startThread between the two calls leaves joinAll with a running worker that nobody has asked to stop |
| `NamedObjects.StepKeepsInv` | platform/src/ipc/SharedMemory.cpp:73-193 | every create, open, close, move and owner's unlink keeps owners bound to what they created |
| `NamedObjects.ValidNameExact` | platform/src/ipc/PosixMessageQueue.cpp:28-39 | the names that pass the check are exactly a slash followed by a text without one |
| `NamedObjects.OwnersHoldTheirNames` | platform/src/ipc/SharedMemory.cpp:104-148 | over every disciplined run owning handles have pairwise distinct names, each leading to the object that handle created |
| `NamedObjects.OnlyOwnNamesGo` | platform/src/ipc/PosixMessageQueue.cpp:295-315 | a name only disappears through its own owner and never changes its object |
| `NamedObjects.UnlinkCondition` | platform/src/ipc/SharedMemory.cpp:282-288 | an unlink keeps all owners sound if and only if no other handle owns the name, which holds for every owner |
| `NamedObjects.OldOwnerRobs` | platform/src/ipc/PosixMessageQueue.cpp:295-315 | from every sound state in which a handle unlinks a name that another owns: a create of it by any handle but that owner ends with its object removed by the old owner's close |
| `NamedObjects.UnlinkIsSafeIff` | platform/src/ipc/SharedMemory.cpp:282-288 | after an unlink no call of any disciplined run ever removes another handle's object, if and only if no other handle owned the name |
| `NamedObjects.StrangerUnlinkHurts` | platform/src/ipc/PosixMessageQueue.cpp:309-315 | a disciplined run for every name to a state in which an opener's unlink is not safe |
| `SharedMemory.InRange` | platform/src/ipc/SharedMemory.cpp:40-43 | for size_t arguments the wrap-free test is the unbounded comparison |
| `SharedMemory.Unwritten` | platform/src/ipc/SharedMemory.cpp:104-148 | a position no accepted write covers reads as zero |
| `SharedMemory.LatestIsLast` | platform/src/ipc/SharedMemory.cpp:220-240 | the byte at a position is that of the last write covering it |
| `SharedMemory.OthersStayValid` | platform/src/ipc/SharedMemory.cpp:264-288 | a mapped region stays inside its backing object whatever is done through other regions |
| `SharedMemory.SharedMemoryRegion.Create` | platform/src/ipc/SharedMemory.cpp:104-148 | succeeds exactly for a slash-and-no-other name that is free after the handle's own close, a size within off_t and no failure, and then owns the name of a zero object of that size; whatever fails, the handle is closed and the table as that close left it |
| `SharedMemory.SharedMemoryRegion.Open` | platform/src/ipc/SharedMemory.cpp:150-193 | succeeds exactly for a slash-and-no-other name that exists after the handle's own close and a positive size that fits the backing object; otherwise the handle is closed; either way the table is as that close left it |
| `SharedMemory.SharedMemoryRegion.Write` | platform/src/ipc/SharedMemory.cpp:220-240 | accepted exactly if mapped, with a source, and in range; lies inside the backing object and changes that range only |
| `SharedMemory.SharedMemoryRegion.Read` | platform/src/ipc/SharedMemory.cpp:242-262 | returns byte by byte the latest value written through any region on the object |
| `SharedMemory.SharedMemoryRegion.Close` | platform/src/ipc/SharedMemory.cpp:264-280 | owners unlink their name, others leave the table alone |
| `SharedMemory.SharedMemoryRegion.Unlink` | platform/src/ipc/SharedMemory.cpp:282-288 | the name goes and ownership ends, the mapping stays |
| `SharedMemory.SharedMemoryRegion.MoveFrom` | platform/src/ipc/SharedMemory.cpp:73-102 | the mapping and ownership change hands, the source is closed, a self-move changes nothing |
| `MessageQueue.InsertOrdered` | platform/src/ipc/PosixMessageQueue.cpp:180-200 | the queue stays ordered by priority, is first in first out within each priority, and gains exactly the new message |
| `MessageQueue.InsertAppends` | platform/src/ipc/EventBus.cpp:60-67 | with one priority in use the queue is a plain FIFO |
| `MessageQueue.PosixMessageQueue.Create` | platform/src/ipc/PosixMessageQueue.cpp:113-144 | the queue is made exactly for a slash-and-no-other name that is free after the handle's own close, positive sizes and a working open; a failed attribute query then returns false but leaves the handle open, owning and with limit 0; every other failure leaves it closed and the table as that close left it |
| `MessageQueue.PosixMessageQueue.Open` | platform/src/ipc/PosixMessageQueue.cpp:146-163 | an existing slash-and-no-other name opens without ownership, a failed attribute query included; otherwise the handle is closed; the table is as the handle's own close left it |
| `MessageQueue.PosixMessageQueue.SendMessage` | platform/src/ipc/PosixMessageQueue.cpp:180-230 | true exactly if the message is queued behind all of at least its priority; otherwise no queue changes |
| `MessageQueue.PosixMessageQueue.ReceiveMessage` | platform/src/ipc/PosixMessageQueue.cpp:232-293 | true exactly if the head was taken, and then it is what is returned; otherwise no queue changes |
| `MessageQueue.PosixMessageQueue.Close` | platform/src/ipc/PosixMessageQueue.cpp:295-307 | owners unlink their name, others leave the table alone |
| `MessageQueue.PosixMessageQueue.Unlink` | platform/src/ipc/PosixMessageQueue.cpp:309-315 | the name goes and ownership ends, the descriptor stays |
| `MessageQueue.PosixMessageQueue.MoveFrom` | platform/src/ipc/PosixMessageQueue.cpp:86-111 | descriptor, limit and ownership change hands, the source is closed, a self-move changes nothing |
| `EventBus.DecodeEncode` | platform/src/ipc/EventBus.cpp:13-43 | every publishable event decodes back to itself, newlines in the payload included |
| `EventBus.EncodeDecode` | platform/src/ipc/EventBus.cpp:28-43 | exactly the encodings of publishable events decode, each to the event it encodes |
| `EventBus.WireFormExact` | platform/src/ipc/EventBus.cpp:13-43 | both directions accept exactly a nonempty topic without a byte 10, that byte, and any payload |
| `EventBus.EventsConserved` | platform/src/ipc/EventBus.cpp:60-98 | for any publishers and competing receivers: received events followed by queued ones are the published ones, in order |
| `EventBus.MessageQueueEventBus.Publish` | platform/src/ipc/EventBus.cpp:60-78 | does to the shared queue exactly one Publish step of the machine |
| `EventBus.MessageQueueEventBus.Receive` | platform/src/ipc/EventBus.cpp:80-98 | does to the shared queue exactly one Receive step of the machine |
| `Text.TrimInverts` | platform/src/config/KeyValueConfiguration.cpp:11-18 | trimming removes any surrounding whitespace and nothing else |
| `Text.TrimSplits` | platform/src/config/DatabaseConfiguration.cpp:13-19 | every text is whitespace, its trimmed form and whitespace |
| `Text.SpaceCodes` | platform/src/config/KeyValueConfiguration.cpp:11-18 | whitespace is the blank and the control characters 9 to 13 |
| `Text.LowerSpells` | platform/src/config/KeyValueConfiguration.cpp:20-26 | folding gives a word exactly for the texts that spell it in any mixture of capitals and small letters |
| `Seqs.Find` | platform/src/config/KeyValueConfiguration.cpp:47-58 | the first occurrence, or none exactly if there is none |
| `Integers.ToStringInjective` | applications/sample_service/main.cpp:64-65 | different numbers have different texts |
| `Integers.WholeIntExact` | platform/src/config/DatabaseConfiguration.cpp:133-147 | a text is accepted as an int exactly if it is optional whitespace, an optional sign and digits of a value within int, with nothing after |
| `Integers.WholeIntSpelled` | platform/src/config/KeyValueConfiguration.cpp:96-110 | the texts read as a value within int are exactly whitespace, "+", "-" or neither, any zeros, and the number as to_string writes it |
| `Integers.DigitsMean` | platform/src/config/DatabaseConfiguration.cpp:104-108 | the ten digits have their values, and one more digit multiplies by ten and adds |
| `Integers.ToStringSpelled` | platform/src/config/DatabaseConfiguration.cpp:104-108 | to_string writes "-" exactly for negative numbers and a leading zero for zero only |
| `Integers.IntRoundTrip` | platform/src/config/DatabaseConfiguration.cpp:104-108 | every 32-bit int is read back from its decimal text |
| `PersistentStore.LastPairWins` | platform/src/storage/PersistentStore.cpp:65-91 | of several pairs with one key the last wins |
| `PersistentStore.OtherKeysKept` | platform/src/storage/PersistentStore.cpp:65-91 | keys not mentioned keep what they had |
| `PersistentStore.PutPairsOverlay` | platform/src/storage/PersistentStore.cpp:65-91 | putting pairs overlays the old table with the pairs put into an empty one |
| `PersistentStore.PersistentStore.Put` | platform/src/storage/PersistentStore.cpp:56-63 | true exactly if the statement ran; the view then has the pair, else the committed table is as it was |
| `PersistentStore.PersistentStore.PutAll` | platform/src/storage/PersistentStore.cpp:65-91 | true exactly if BEGIN, every put and COMMIT work, and then all pairs are committed; otherwise nothing is; a failing put or COMMIT is followed by one ROLLBACK, so a transaction of this call stays open exactly if the failing statement did not end it and the ROLLBACK failed too |
| `PersistentStore.PersistentStore.Get` | platform/src/storage/PersistentStore.cpp:93-113 | the callback loop yields a value exactly if the key is stored and the query ends well, and none if it fails after delivering the row |
| `PersistentStore.PersistentStore.Has` | platform/src/storage/PersistentStore.cpp:123-137 | the callback loop answers true exactly when Get yields a value |
| `PersistentStore.PersistentStore.Remove` | platform/src/storage/PersistentStore.cpp:115-121 | exactly that key goes, or the committed table is as it was |
| `PersistentStore.PersistentStore.Clear` | platform/src/storage/PersistentStore.cpp:205-208 | everything goes, or the committed table is as it was |
| `ConfigText.LinesMakeText` | platform/src/config/KeyValueConfiguration.cpp:43-45 | the lines read are newline-free and put together again are the text, up to a missing last newline |
| `ConfigText.AcceptedMeaning` | platform/src/config/KeyValueConfiguration.cpp:43-78 | a text without bad lines is accepted with its settings in order |
| `ConfigText.RejectedMeaning` | platform/src/config/DatabaseConfiguration.cpp:57-86 | any other text is rejected for its first bad line, with its number and fault; ParseLineExact says which lines are bad |
| `ConfigText.SettingIsRead` | platform/src/config/KeyValueConfiguration.cpp:46-76 | a setting with any whitespace and comment around it is read as exactly its key and value |
| `ConfigText.ParseLineExact` | platform/src/config/KeyValueConfiguration.cpp:46-76 | a line is skipped, a setting, or bad for want of "=" or of a key, exactly if it is a decorated writing of that; each of the four forms is given by concatenation |
| `ConfigText.EveryLineIsWritten` | platform/src/config/KeyValueConfiguration.cpp:46-76 | every line is a writing of one of the four forms |
| `ConfigText.RenderedParses` | platform/src/config/KeyValueConfiguration.cpp:41-78 | a file of proper settings, however decorated, yields exactly its settings in order |
| `ConfigText.MistakeIsFound` | platform/src/config/DatabaseConfiguration.cpp:57-86 | a file whose first mistake is line i is rejected with number i and the fault of that line's form |
| `ConfigText.EveryTextIsWritten` | platform/src/config/KeyValueConfiguration.cpp:43-78 | every text is a file of such lines |
| `Configuration.VerdictMeaning` | platform/src/config/KeyValueConfiguration.cpp:30-82 | for every list of written lines: loaded with exactly its settings if none is a mistake, otherwise refused for the first one, "expected key=value" or "key is empty"; a missing file cannot be opened |
| `Configuration.SetIntThenGet` | platform/src/config/DatabaseConfiguration.cpp:104-147 | getInt returns what setInt stored, for every int |
| `Configuration.SetBoolThenGet` | platform/src/config/DatabaseConfiguration.cpp:110-164 | getBool returns what setBool stored |
| `Configuration.BoolIgnoresDecoration` | platform/src/config/KeyValueConfiguration.cpp:112-127 | case and surrounding whitespace never change what getBool makes of a text |
| `Configuration.BoolOfMeans` | platform/src/config/KeyValueConfiguration.cpp:112-127 | the texts read as true are exactly true, 1, yes and on, those read as false exactly false, 0, no and off, in any capitals and with any whitespace around |
| `Configuration.GettersAnswer` | platform/src/config/KeyValueConfiguration.cpp:89-127 | every getter answers what the stored text is or means, and the default exactly for a missing key or a text without meaning |
| `Configuration.StoredTexts` | platform/src/config/DatabaseConfiguration.cpp:104-114 | what setInt and setBool write is the plain number and the word true or false |
| `Configuration.ReadInt` | platform/src/config/KeyValueConfiguration.cpp:96-110 | the number if the whole text is one, the default otherwise, whatever stoi throws |
| `Configuration.KeyValueConfiguration.LoadFromFile` | platform/src/config/KeyValueConfiguration.cpp:30-82 | the loop computes the parser's verdict; success holds exactly the parsed map, failure keeps the old one |
| `Configuration.DatabaseConfiguration.LoadFromFile` | platform/src/config/DatabaseConfiguration.cpp:46-96 | the same verdict; success overlays the store in one transaction, anything else leaves it alone; a failed write leaves a transaction open exactly if the ROLLBACK failed |
| `Configuration.DatabaseConfiguration.SetInt` | platform/src/config/DatabaseConfiguration.cpp:104-108 | the decimal text is stored, or the committed table is as it was |
| `Configuration.DatabaseConfiguration.SetBool` | platform/src/config/DatabaseConfiguration.cpp:110-114 | the word is stored, or the committed table is as it was |
| `Configuration.DatabaseConfiguration.GetInt` | platform/src/config/DatabaseConfiguration.cpp:133-147 | answers as the other backend would on the store's view; a failing query reads like a missing key |
| `Configuration.DatabaseConfiguration.GetBool` | platform/src/config/DatabaseConfiguration.cpp:149-164 | answers as the other backend would on the store's view |
| `Configuration.KeyValueConfiguration.GetInt` | platform/src/config/KeyValueConfiguration.cpp:96-110 | the number stored under the key or the default |
| `Configuration.KeyValueConfiguration.GetBool` | platform/src/config/KeyValueConfiguration.cpp:112-127 | the truth value stored under the key or the default |
| `Configuration.LoadBoth` | platform/src/config/DatabaseConfiguration.cpp:46-96 | one file loaded into both backends gives one verdict and, from an empty store, the same contents |
| `Configuration.WrittenMapLoads` | platform/src/config/KeyValueConfiguration.cpp:11-82 | any decorated writing of a map loads back to exactly that map |
| `Configuration.EveryMapCanBeWritten` | platform/src/config/KeyValueConfiguration.cpp:30-82 | every map of proper keys and values has such a writing |
| `ServiceApplication.CallbackDiscipline` | platform/src/service/ServiceApplication.cpp:96-217 | every callback at most once; initialize first; deinitialize last and exactly if initialize returned; stop exactly if start returned true |
| `ServiceApplication.ExitMatchesState` | platform/src/service/ServiceApplication.cpp:68-236 | exit 0 exactly with Stopped, every other exit with Failed, no exit only while running unasked |
| `ServiceApplication.ExitMeaning` | platform/src/service/ServiceApplication.cpp:68-221 | each exit code 2 to 7 if and only if its own condition on the outcomes: explicit configuration missing, handlers, initialize, start, stop, deinitialize, the first of them that goes wrong |
| `ServiceApplication.StatesFollowLifecycle` | platform/src/service/ServiceApplication.cpp:96-217 | the states are the lifecycle in order up to where the exit code says the run ends, then one last state; the callbacks come in their order |
| `ServiceApplication.ServiceApplication.AwaitShutdown` | platform/src/service/ServiceApplication.cpp:169-177 | the wait ends exactly if a request has come or comes |
| `ServiceApplication.ServiceApplication.Run` | platform/src/service/ServiceApplication.cpp:68-221 | exit code, callbacks and states for every combination of outcomes and every arrival point; a request after the initial clear is never lost, whatever earlier runs left in the flag |
| `ServiceApplication.ShutdownFlag.Tick` | platform/src/signals/SignalHandler.cpp:34-42 | a request raises the flag and nothing but a clear lowers it |
| `Devices.FileDevice.OpenDevice` | platform/src/device/FileDevice.cpp:69-80 | a descriptor is held exactly if the device is Open, else it is Failed |
| `Devices.FileDevice.CloseDevice` | platform/src/device/FileDevice.cpp:82-91 | the descriptor is given up; a Failed device stays Failed |
| `Devices.FileDevice.MoveFrom` | platform/src/device/FileDevice.cpp:38-62 | descriptor and state change hands, descriptor held exactly if Open on both sides |
| `Devices.FileDevice.Write` | platform/src/device/FileDevice.cpp:108-133 | true exactly if all bytes reached the file in order, else a strict prefix; false exactly on a closed device or if its last ::write was the first to fail or write nothing |
| `Devices.TracesMirror` | platform/src/device/DeviceManager.cpp:36-43 | the closes undo the opens in the opposite order |
| `Devices.CloseReversed` | platform/src/device/DeviceManager.cpp:38-43 | the rollback closes the opened devices last first |
| `Devices.DeviceManager.Add` | platform/src/device/DeviceManager.cpp:17-29 | a device is added exactly if it exists and its name is new; names stay distinct |
| `Devices.DeviceManager.Find` | platform/src/device/DeviceManager.cpp:57-75 | the device of that name, or null exactly if there is none |
| `Devices.DeviceManager.OpenAll` | platform/src/device/DeviceManager.cpp:31-48 | all or nothing: success opens all in order; failure at i leaves opens 0..i, closes i-1..0, no earlier device Open, later ones untouched |
| `Devices.DeviceManager.CloseAll` | platform/src/device/DeviceManager.cpp:50-55 | no device holds a descriptor afterwards; Failed ones stay Failed |
| `SampleService.WorkerNamesDiffer` | applications/sample_service/main.cpp:64-65 | no two workers get the same name |
| `SampleService.SampleService.Initialize` | applications/sample_service/main.cpp:50-58 | the configured numbers with lower bounds 1 and 100 |
| `SampleService.SampleService.Start` | applications/sample_service/main.cpp:62-78 | true exactly if every thread could be created; however it ends, every thread created is registered |
| `SampleService.SampleService.Stop` | applications/sample_service/main.cpp:80-85 | every registered worker is asked to stop and joined |
| `SampleService.ExpectedInOrder` | platform/src/service/ServiceApplication.cpp:96-217 | run() makes its callbacks in order and at most once, and stop among them if it returns 0 |
| `SampleService.Perform` | applications/sample_service/main.cpp:37-90 | callbacks in any such order leave every worker created registered, and after stop every one asked to stop, ended and joined |
| `SampleService.RunSample` | applications/sample_service/main.cpp:37-90 | when run() returns 0 every worker ever started has been asked to stop, has ended and is joined |
| `SampleService.RunToExit` | platform/src/threading/ThreadManager.cpp:30-34 | on whatever exit, the same holds once the service has been destroyed |
| `SampleIpc.ReplyIsPrefixed` | applications/sample_ipc_server/main.cpp:75-92 | from any partly transferred request and reply, a response read can only be the prefixed request |
| `SampleIpc.PrefixText` | applications/sample_ipc_server/main.cpp:92 | the 18 bytes of the prefix are "sample_ipc_server:" |
| `SampleIpc.ServeOne` | applications/sample_ipc_server/main.cpp:67-95 | the reply to a client is the framed prefixed request or a prefix of it; undisturbed it is complete exactly for a whole request within the limit |
| `SampleIpc.Listen` | applications/sample_ipc_server/main.cpp:65-97 | over every run of the loop each client is served as if it were the only one, completely if it is undisturbed and its request is whole and within the limit |
| `SampleIpc.ClientOfLoop` | applications/sample_ipc_client/main.cpp:38-49 | whatever response a client of the loop can read is its prefixed request; undisturbed, the whole reply is there |
| `SampleIpc.ReadReply` | applications/sample_ipc_client/main.cpp:43-47 | success yields the prefixed request |
| `SampleIpc.Exchange` | applications/sample_ipc_client/main.cpp:38-49 | with the calls one after the other: success yields the prefixed request; undisturbed it succeeds exactly for requests of at most 65518 bytes |
| `SampleExchange.StepKeepsInv` | applications/sample_ipc_server/main.cpp:66-97 | every system call of either side, overlapping in any way, keeps both directions to at most the request and its answer |
| `SampleExchange.OnlyPrefixedReplies` | applications/sample_ipc_client/main.cpp:38-49 | in every run of the two overlapping sides all the client can get is the prefixed request, and that only for requests of at most 65518 bytes |
| `SampleExchange.LimitsDoNotFail` | platform/src/ipc/UnixSocket.cpp:368-372 | for such requests neither side's 64 KiB limit ever makes a receive fail |
| `SampleExchange.RemainingFalls` | applications/sample_ipc_server/main.cpp:66-97 | every step that is no retry and no failure brings the exchange closer to its end |
| `SampleExchange.UndisturbedSucceeds` | applications/sample_ipc_client/main.cpp:38-49 | for such requests an exchange without errors has succeeded or can take such a step, in every state it reaches |

## Left out

Assumptions:

- Interrupts, empty wakeups and would-block results are finite in number per run; with infinitely many the loops need not end.
- SocketPaths.EntriesAreSafe: holds for runs without harmful steps, since the code takes no lock; SocketGaps.HarmIff says exactly when one is harmful, and SocketPaths.ExclusiveIsHarmless gives a schedule without any.
- SocketPaths.CloseSparesOthers: the same; lstat and unlink of an owned unlink count as one step, as do lstat and connect of a probe.
- SocketGaps.ListenerIsReachedIff: over exclusive runs whose probes do not fail for other reasons; SocketPaths.ListenersAreSafe has what a failing probe does.
- Inodes are never reused and all paths lie on one device; other programs only add non-socket files.
- NamedObjects.OwnersHoldTheirNames: holds for runs in which only current owners call unlink and no other program unlinks the names; see NamedObjects.UnlinkIsSafeIff for the rest.
- Configuration.LoadBoth: the store is open, holds no transaction and its statements do not fail; LoadFromFile of each backend has no such condition.
- Keys, values and texts contain no NUL characters, which the database binding would cut them at; characters are those of the C locale.
- A moved-from std::string is taken to be empty.
- No thread uses a ThreadManager after its destructor has begun, and no manager is destroyed by one of its own workers.
- SampleService.RunSample: the sample's workers never call the manager and return once they are asked to stop, so join is a step that always completes; initialize, stop and deinitialize of the sample do not throw; run() is followed with the results of the callbacks, which are then made on the service in the order in which run() makes them.
- Deadlines.LoadDeadline: seconds of the clock below 2^48 for the result to fit a 64-bit time_t; the 64-bit overflow of steady_clock deadlines some 292 years ahead is not modelled.

Not modelled:

- MessageQueue.PosixMessageQueue.SendMessage: waiting for room, and waiting for ever, is not a step; the outcome of the kernel call is a parameter.
- MessageQueue.PosixMessageQueue.ReceiveMessage: waiting for a message is not a step either.
- A ::send that blocks for longer than the deadline after poll reported the socket writable: the code gives no bound there.
- FramedChannel covers one direction of a connection; the other is the same machine with the roles exchanged.
- accept and tryAccept beyond "a client or nobody": descriptor passing, their retry loops, and the client's connect.
- Unsynchronised access to the server object while the sample IPC server shuts down: the listener thread polls a descriptor that stop() closes.
- SampleIpc.Exchange: its calls follow one another; SampleExchange has the overlapping ones.
- ServiceApplication: exceptions outside the four callbacks, argument parsing and log configuration.
- Database.cpp: an abstract table with begin, commit, rollback and arbitrary failures stands for SQLite; blobs, keys() and the schema statement are left out.
- Error texts, log lines, time stamps and errno values: the error cases are there, their wording is not.
- GpioPin, HealthMonitor, ConsoleLogger, the name tables and the other sample programs: wiring and look-ups that would only add easy members.
- FileDevice::read and the accessors of all classes.
