# A verified model of the mirroring remote file system

The program is a FUSE remote file system in four stacked layers. Each of them is modelled here
over the same abstract files (byte sequences, gaps filled with zeros) and the same sequential
file server. The layers above the wire see the server through `Link.Link`: a write returns when
its data is accepted and is stored later, at the latest before the next call that gets through
is answered; when a connection breaks, what it had taken on may be carried out late or never.
`WireLink.WireIsLink` proves that every run of the wire protocol, failures included, is a
series of calls on that link.

| layer | files |
|---|---|
| files and the sequential server every layer is measured against | `Files.dfy`, `FileServer.dfy`, `Answers.dfy` |
| wire protocol of `FtpClient` and `FtpServer::run` | `Codec.dfy`, `Wire.dfy`, `WireInvariant.dfy`, `WireSafety.dfy`, `WireFraming.dfy`, `WireRefinement.dfy`, `WireDelivery.dfy`, `WireProgress.dfy`, `WireAnswers.dfy`, `FtpClient.dfy`, `FtpServer.dfy` |
| the server behind the wire as the layers above use it | `Link.dfy`, `WireLink.dfy`, `LinkFiles.dfy` |
| delayed writes and closes, the retry queue and its worker | `DelayTasks.dfy`, `DelayTaskManager.dfy`, `DelayRemote.dfy`, `DelayConvergence.dfy`, `DelayLeaks.dfy` |
| mirror: pull, push, add, delete and the handle table | `Disk.dfy`, `HandleTable.dfy`, `Paths.dfy`, `Transfer.dfy`, `Mirror.dfy`, `MirrorTheorems.dfy`, `OfflineEdit.dfy` |
| metadata cache and the remote file system above it | `MetaCache.dfy`, `RemoteFs.dfy` |
| configuration text | `MapEditor.dfy` |

## How the pieces are modelled

Code that runs on one thread is written as classes and methods with the program's own fields,
loops and branches, each tied by its `ensures` to specification functions or relations. What
runs concurrently is also a machine of interleaved steps, and the theorems over all
interleavings are about the machine:

- **Wire.** `Wire.World` holds the client, every connection it has opened, one server thread for
  each, and the files. A step is one connect, send, receive or file call; a send reports any
  number of bytes up to the message, a receive takes all it asked for or fails, either side may
  fail at any time, and a connection given up never comes back. `FtpClient` and `FtpServer` hold
  the code of both ends as classes; their contracts say that whatever the operating system
  answers, the calls they make and the results they return are those of the machine, and
  `RunTracks` in both modules says the converse, that in every run of the machine each
  operation and each thread makes calls the code can make.
- **Delayed calls.** Every access to a shared variable by `task_loop`, `add_task` and `stop` is
  one step, including the queue calls the worker makes outside the lock.
  `DelayTaskManager.dfy` is the code, with the other threads let in between any two accesses.
- **Network under the mirror and the delaying layer.** A remote call gets through, breaks off
  with the request taken on by the server or not, or finds no connection; before each call the
  server's threads may have done anything they still can. The state keeps the write in flight
  and, for every connection given up, the requests its thread may still carry out. Theorems
  about a file's contents say which of these leftovers would have to stay away
  (`LinkFiles.Aside`, `DelayConvergence.NoBypass`), and what is lost or arrives late when the
  last chunk's delivery was never confirmed.

What the operating system decides (descriptors, short reads, errors, clock readings, row order
of a query, what lstat and readdir report) arrives as data, so each theorem is for all such
choices.

## What the code does where its comments or its evident intent say otherwise

The model follows the code. Each point is visible in a contract.

- `mfs.cc:56` sets out to keep the descriptors of the two file systems apart, but
  `close_`, `read_` and `write_` pass the table index to the layer below instead of the stored
  descriptor. `MirrorTheorems.RemoteHandleExact`, `RemoteCloseExact` and `RemoteReadExact` give
  the exact condition under which each still does what it should. `RemoteHandleAstray` is a run
  in which a write is lost with success reported, `RemoteHandleCrossed` one in which a read
  returns another file's bytes and a close that returns 0 closes the other file's descriptor and
  leaves its own open.
- A write through a descriptor that the server does not have is acknowledged and dropped
  (`ftpserver.cc:246-264`); a queued write returns 0, not its size (`drfs.cc:101`); a failed
  `create_` returns +1 (`ftpclient.cc:393`).
- The delaying layer tries the network first although older writes wait, so order needs a
  hypothesis; `DelayConvergence.NoBypass` is that hypothesis, proved exact for every step
  (`DelayConvergence.StepExact`), and `DelayRemote` has runs in which its absence reorders,
  drops or misdirects calls.
- A write that returned its size has only been accepted by `send` (`ftpclient.cc:357`), so a
  connection that breaks afterwards can lose it: `WireDelivery.AcceptedWriteLost` on the wire,
  `DelayConvergence.LostInFlight` for the delaying layer, whose queue never sees that write
  again. `push_` ignores what its last `close_` returns (`mfs.cc:382`), and so can report
  success with its last chunk missing (`Transfer.LastChunkLost`).
- An open whose reply was lost may still be carried out and leave a descriptor that nobody
  closes: `DelayLeaks.LateOpenLeaks`; the files converge all the same (`DelayLeaks.FilesConverge`).
- `stop(false)` does not always drain the queue: `DelayTasks.RaceLosesTask`.
- `pull_` with a stat larger than the file never ends on a network that never fails
  (`Mirror.MirrorFileSystem.Pull_`), and `push_` never shortens the remote file
  (`OfflineEdit.PushThenPull`).
- `get_download_path` drops one slash at the end of the directory, so two strings that differ in
  such a slash get one temporary path (`Paths.TempExact`); as files, distinct canonical paths
  never collide (`Paths.DistinctMirrors`, `Paths.DistinctTemp`).
- `getattr_` clears its request after construction, so the type inside the structure is 0; the
  server does not look at it (`Codec.InnerTag`).

## Model

| member | source | states |
|---|---|---|
| Files.OvertakingExact | drfs.cc:91-104 | storing a write ahead of a backlog instead of behind it gives the same file if and only if, at every byte it covers, the backlog's last word is the same byte or none |
| Files.ApplyAllBytes | mfs.cc:118-135 | after any series of positioned writes each byte is the one the last write covering it stored, else the old one, and the length is the larger of the old one and the furthest reach |
| Files.WriteNextChunk | mfs.cc:361-380 | writing the next chunk of a file at its own offset extends the replaced prefix and leaves the old tail beyond it |
| Codec.Dec32Enc32 | ftp-type.h:11-24 | every C int survives the four bytes of the wire, negative ones included |
| Codec.DecPathEncPath | ftp-type.h:34-37 | every path that fits its field with a terminating NUL is read back whole |
| Codec.DecReqEncReq | ftp-type.h:30-108 | the structure of every request is read back field by field by the server that dispatched on its type |
| Codec.DecHdrEncHdr | ftp-type.h:39-112 | every reply header is read back with both fields |
| Codec.ServeSound | ftpserver.cc:58-286 | every reply a handler computes announces in its header exactly the number of bytes sent after it, for all requests and all operating system outcomes whose byte count fits an int |
| Answers.ServeAnswers | ftpserver.cc:58-286 | what each request does and what its caller gets, from the operating system's choice alone: the negated errno of a failed call (-1 for a failed read, +1 for a failed create), the stat's bytes, every listing entry in its place, the descriptor, exactly the file's bytes from an offset on; and each file and descriptor afterwards, byte by byte |
| Answers.CallAnswers | ftpclient.cc:63-394 | a call that gets through gives its caller that answer from the server as the client sees it, and leaves the client seeing that change |
| WireInvariant.BeginKeeps | ftpclient.cc:63-80 | a new request on a connection left idle by the one before finds both channels in the state its sends and receives expect |
| WireInvariant.RecvResKeeps | ftpclient.cc:88-106 | the header the client receives is that of its own request, and what it does next fits what is still under way |
| WireInvariant.RecvPayKeeps | ftpclient.cc:139-155 | each received block brings the payload closer to the one the server computed, and the last one leaves the reply channel empty |
| WireInvariant.RequestArrives | ftpserver.cc:211-217 | the structure a handler receives is the one the client built for the oldest unfinished request |
| WireInvariant.ServerSendFramed | ftpserver.cc:227-237 | a server send of any number of bytes, complete or not, keeps both channels in step with the control points |
| WireSafety.StepSafe | ftpclient.cc:63-394 | every step of the network, the client or a server thread keeps framing, bookkeeping and the sequential meaning of the files |
| WireSafety.ReachesApply | ftpserver.cc:240-266 | when a handler is about to lseek and write, every byte of that request was delivered, so the request did not fail in transport and was not stored before |
| WireSafety.FailedWriteHasNoEffect | ftpclient.cc:323-363 | over all interleavings, short sends, timeouts and closes: a write returned -ENETDOWN exactly when it failed in transport, and then the server never reaches lseek and write for it, then or later; any other write returned its size; no write is stored twice |
| WireSafety.RetryStoresOnce | drfs.cc:21-29 | repeating a write until a try does not fail in transport stores it at most once |
| WireFraming.DecodeEncAll | ftpserver.cc:292-355 | the dispatch loop's reading of a byte stream recovers exactly the requests that were encoded into it |
| WireFraming.Framing | ftpclient.cc:63-394 | in every reachable state, on every connection, the bytes under way read from the server's control point are its unfinished requests, cut off at what is unsent; between operations the client has either no socket or has consumed every byte of every reply |
| WireRefinement.PipelinedRefinement | ftpclient.cc:282-363 | while no operation fails in transport, every result is the answer of an atomic sequential server that has carried out all earlier operations, including writes not yet stored; at most two requests are outstanding, and with none outstanding the files are the sequential server's |
| WireAnswers.RunAnswers | ftpclient.cc:63-394 | over every run without a transport failure there is a chain of servers, one for each operation, in which each operation does and returns exactly what goes with the choice the operating system made for it, including what is listed, read and refused |
| WireProgress.NoMutualWait | ftpclient.cc:63-394 | in every reachable state a client that waits for bytes on a connection whose server thread has not given up has them, or that thread has a receive, file call or send it can complete: the two never wait for each other |
| WireDelivery.ReplyMeansStored | ftpclient.cc:323-363 | over all runs, failures anywhere: once an operation has its reply, every earlier write of its connection that did not fail in transport has been stored |
| WireDelivery.OneWriteOutstanding | ftpclient.cc:323-363 | a connection holds at most one write that returned its size and is not stored, an abandoned one holds it just before the request it was abandoned for |
| WireDelivery.AcceptedWriteLost | ftpclient.cc:357-363 | for every server state, a run in which a write returns its size, the connection breaks, and the data is never stored |
| WireLink.WireIsLink | ftpclient.cc:63-394 | every run of the wire protocol, failed operations and the threads of abandoned connections included, gives the results of a series of calls on the link with the same operations, and ends with its files, its write in flight and its leftovers |
| LinkFiles.ActsMove | ftpserver.cc:292-357 | whatever the server's threads do between calls, if the leftovers keep away from a file, the client's view of it and the descriptors they do not name stay |
| LinkFiles.CallBreaks | ftpclient.cc:63-394 | a call that breaks off returns -ENETDOWN, and the write in flight was stored before or is lost from the connection in use |
| LinkFiles.LooseActs | ftpserver.cc:240-266 | once a connection broke on an accepted write, the file is and remains what it was without it or with it, however late the write is stored |
| LinkFiles.ClearLeast | ftpserver.cc:292-357 | leaving aside the descriptors the leftovers name asks for no more than leaving aside any other set |
| FtpClient.Client.Conn | connection.cc:116-129 | an open socket is reused, and a non-negative result is the socket now held |
| FtpClient.Client.CloseSocket | connection.cc:131-137 | afterwards there is no socket |
| FtpClient.FtpClient.Ask | ftpclient.cc:63-88 | connect, type, request and header are the machine's calls; any that falls short closes the socket and returns -ENETDOWN |
| FtpClient.FtpClient.Getattr_ | ftpclient.cc:63-107 | makes the machine's calls and returns its result with the socket open, or -ENETDOWN with it closed |
| FtpClient.FtpClient.List | ftpclient.cc:109-206 | the same for listings of any length: the entries are received one by one, and one cut short drops them all |
| FtpClient.FtpClient.Open_ | ftpclient.cc:208-243 | makes the machine's calls and returns the descriptor or the negated errno |
| FtpClient.FtpClient.Close_ | ftpclient.cc:245-280 | makes the machine's calls and returns 0 or the negated errno |
| FtpClient.FtpClient.Read_ | ftpclient.cc:282-321 | makes the machine's calls, including the receive of -1 bytes after a failed server read |
| FtpClient.FtpClient.Write_ | ftpclient.cc:323-363 | makes the machine's calls; success means that send accepted the data, a short send means a closed socket and -ENETDOWN |
| FtpClient.FtpClient.Create_ | ftpclient.cc:365-394 | makes the machine's calls and negates the server's -1 |
| FtpClient.RunTracks | ftpclient.cc:63-394 | in every run of the machine the current operation's calls are ones the code makes, and each result is the one the code returns after them |
| FtpServer.FtpServer.Getattr_ | ftpserver.cc:58-80 | makes the machine's calls: request, lstat, header, and the stat only without error |
| FtpServer.FtpServer.Readdir_ | ftpserver.cc:82-122 | makes the machine's calls: the entries follow the header when there are any |
| FtpServer.FtpServer.Ls_ | ftpserver.cc:124-166 | makes the machine's calls: the entries follow the header when there are any and opendir worked |
| FtpServer.FtpServer.Open_ | ftpserver.cc:177-193 | makes the machine's calls: request, open, header |
| FtpServer.FtpServer.Close_ | ftpserver.cc:195-209 | makes the machine's calls: request, close, header |
| FtpServer.FtpServer.Read_ | ftpserver.cc:211-238 | makes the machine's calls: a read without error sends its bytes, even none |
| FtpServer.FtpServer.Write_ | ftpserver.cc:240-266 | makes the machine's calls: the acknowledgement precedes the data, and the files change only after all of it has arrived |
| FtpServer.FtpServer.Create_ | ftpserver.cc:268-286 | makes the machine's calls: request, creat, header |
| FtpServer.FtpServer.Run_ | ftpserver.cc:292-357 | from start to close the thread makes the machine's calls, and the files are what these file calls make of them |
| FtpServer.RunTracks | ftpserver.cc:292-357 | in every run of the machine each server thread's calls are ones the code makes and leave it where the code stands |
| DelayTasks.TasksConserved | delaytask.cc:22-52 | in every reachable state all that was ever added is the completed ones followed by the queue, the one executing heads the queue, and the completed ones are those whose exec_ succeeded, once each and in order |
| DelayTasks.LeavesInnerLoop | delaytask.cc:28-38 | over every run the worker leaves the inner loop only at a test that found the strict flag set or the queue empty |
| DelayTasks.HeadIsExecuted | delaytask.cc:22-38 | whatever heads the queue gets its exec_ within seven steps of the worker, however the other threads' steps fall in between, unless a strict stop is set or the worker stands at the outer test with `term` set |
| DelayTasks.QueueMakesProgress | delaytask.cc:22-52 | with something queued the worker has a step of its own, or a holder of the mutex that is at most four steps from releasing it |
| DelayTasks.SuccessPops | delaytask.cc:33-37 | an exec_ that succeeds is followed, at the worker's next step, by the pop of that very task |
| DelayTasks.NoLostWakeup | delaytask.cc:25-26 | a worker asleep with no notification delivered or under way has an empty queue and no stop to see |
| DelayTasks.StrictStopBounded | delaytask.cc:11-40 | once a strict stop has set its flags at most one more exec_ begins and the worker takes at most six more steps, whatever is queued or fails |
| DelayTasks.StopMakesProgress | delaytask.cc:11-40 | after a stop the worker always has a step of its own, or a holder of the mutex that is at most four steps from releasing it |
| DelayTasks.GentleStopDrains | delaytask.cc:11-40 | when the worker exits after stop(false), everything added before the stop took effect is completed if and only if the worker was not at the outer test with tasks queued at that moment |
| DelayTasks.CutIsTaken | delaytask.cc:11-16 | that moment is the step that sets `term`, recorded once with the number of tasks added and whether the worker stood at the outer test |
| DelayTasks.RaceLosesTask | delaytask.cc:23-40 | a run in which a task added before stop(false) is never executed |
| DelayTaskManager.DelayTaskManager.Enter | delaytask.cc:47-52 | add_task and stop get the mutex only when it is free |
| DelayTaskManager.DelayTaskManager.MoveOn | delaytask.cc:11-20 | inside add_task and stop each access is the machine's step: push, flags in order, notification, release |
| DelayTaskManager.DelayTaskManager.Wait | delaytask.cc:25-26 | the wait ends with the mutex held and a task or a stop to act on |
| DelayTaskManager.DelayTaskManager.Drain | delaytask.cc:28-38 | the inner loop leaves only with the queue empty or the strict flag set |
| DelayTaskManager.DelayTaskManager.TaskLoop | delaytask.cc:22-40 | whatever the other threads do in between, the loop's accesses are the machine's steps, so nothing is lost, at most one exec_ starts late, and it exits only after a stop, drained exactly when there was no race |
| DelayRemote.ReplayEffect | drfs.cc:21-43 | carrying out a queue changes each file by exactly the waiting writes that reach it through descriptors not closed before, in order, and closes the descriptors it names |
| DelayRemote.DirectWriteExact | drfs.cc:91-104 | a write sent straight out while a backlog waits leads to program order's server if and only if it agrees byte for byte with the waiting writes to its file |
| DelayRemote.DirectCloseExact | drfs.cc:74-84 | a close sent straight out leads to program order's server if and only if its file ends up the same, length and last writer of every byte, without the writes that wait for the descriptor |
| DelayRemote.DirectOpenExact | drfs.cc:70-72 | an open sent straight out leads to program order's server if and only if no close of the descriptor it is handed waits and the writes that wait for that descriptor do not show in the file |
| DelayRemote.OvertakesExact | drfs.cc:70-104 | one condition for writes, closes and opens, writes behind a waiting close included: overtaking the backlog changes nothing if and only if it holds |
| DelayRemote.WriteUnnoticed | drfs.cc:21-29 | carrying out a write once more, late, or not at all ahead of a backlog makes no difference in the end if and only if every byte of it is overwritten or was there and it does not lengthen the file |
| DelayRemote.UnnoticedExact | drfs.cc:21-43 | two servers come to the same after a backlog if and only if their descriptors agree but for those it closes and every file ends up the same |
| DelayRemote.LossExact | ftpclient.cc:323-363 | a broken connection takes the write in flight with it unnoticed if and only if losing it does not show once the queue has been carried out |
| DelayRemote.UnmentionedHarmless | drfs.cc:70-84 | a close or an open whose descriptor no waiting call names is always harmless |
| DelayRemote.DisjointHarmless | drfs.cc:91-104 | disjointness from the waiting ranges is enough for a write |
| DelayRemote.DelayedAnswers | drfs.cc:74-104 | what the caller is told: its size for a write that gets through, the server's word for a close, and 0 for a call that joins the queue, which it does exactly when the network fails it |
| DelayRemote.OverlapReorders | drfs.cc:93 | an overlapping write sent straight out is undone by the older one behind it |
| DelayRemote.CloseDropsWrites | drfs.cc:76 | a close sent straight out makes writes waiting for its descriptor disappear |
| DelayRemote.ReplayedCloseHitsNewFile | ftpclient.cc:271-274 | a close whose reply was lost, replayed after its descriptor was reused, closes the new file |
| DelayRemote.DelayRemoteFileSystem.Write_ | drfs.cc:91-104 | a write goes out or is queued; what is in flight and queued then leads to program order's server if it overtakes nothing it disagrees with and, when the network fails, no accepted write is missed |
| DelayRemote.DelayRemoteFileSystem.Close_ | drfs.cc:74-84 | the same for a close, also when it was taken on and its reply lost |
| DelayRemote.DelayRemoteFileSystem.Retry | drfs.cc:21-43 | one round of the worker leaves what is in flight and queued leading to the same server, when it gets through, or when the write lost with the connection would not show |
| DelayConvergence.WriteThroughExact | drfs.cc:91-104 | in every converging state a direct write, no close of its descriptor waiting, keeps the system on the way to program order if and only if it agrees with the waiting writes to its file |
| DelayConvergence.StepExact | drfs.cc:21-104 | every step, of the caller, the worker, the network or an abandoned server thread, keeps the system on the way to program order if and only if the no-bypass condition of that step holds |
| DelayConvergence.ConvergesExactly | drfs.cc:21-104 | a run that keeps the condition up to its last step converges if and only if the last step keeps it |
| DelayConvergence.LostInFlight | drfs.cc:91-104 | a run in which a write got through, nothing is queued, and the server does not have it |
| DelayConvergence.DelayedCallsConverge | drfs.cc:21-104 | over all interleavings of caller, worker, network failures and late server threads without bypass, the write in flight and then what waits lead to the server of program order; with nothing waiting the client sees that server, and with nothing in flight it is that server |
| DelayLeaks.FilesConverge | drfs.cc:21-104 | over all such interleavings, late opens of existing files included as long as no call names the descriptor they leave behind: the write in flight and then what waits lead to the files of program order, and to its descriptors but for those |
| DelayLeaks.LeakIsNoBypass | ftpclient.cc:208-243 | such a late open satisfies the no-bypass condition of that theorem whatever waits |
| DelayLeaks.LateOpenLeaks | ftpclient.cc:208-243 | a run in which an open whose reply was lost is carried out late: no-bypass in the strict sense fails, the files are those of program order and one descriptor is left over |
| DelayConvergence.StopLeavesNothing | drfs.cc:48-50 | after a race-free stop(false) with nothing issued later, the client's view of the server holds everything ever issued, and so does the server when nothing is in flight |
| HandleTable.NewMapIndex | common.h:45-53 | the search ends, at the least index not in use, which is at most the size of the table |
| HandleTable.TakenBound | common.h:45-53 | the first n indices can be taken only in a table of at least n entries |
| Paths.RealPathInjective | common.cc:163-172 | two absolute paths with the same path under a root are the same path |
| Paths.RealPathIs | common.cc:163-172 | "/" leads to the root itself, every other absolute path to the root less one trailing slash followed by the path |
| Paths.PartsUnder | common.cc:163-172 | whatever the root, an absolute path leads to what its components name below the root |
| Paths.EntryUnder | common.cc:163-172 | an entry's name joined to a directory leads to that name in the directory |
| Paths.TempUnder | mfs.cc:278-303 | a temporary file lies below the mirror root, in the directory of its file, under the prefixed name |
| Paths.JoinAssociates | common.cc:163-172 | joining an entry to its directory and then to the root, or the directory to the root first, gives one path, so listings and stats are filed under the same keys |
| Paths.SplitPath | common.cc:115-180 | every path with a slash, but the root itself, is its directory, a slash and its name, and the name has no slash |
| Paths.DownloadPathIs | mfs.cc:278-283 | the download path lies beside its file, with the prefix before the name |
| Paths.TempIsNoMirror | mfs.cc:287-303 | no temporary file is the mirror file of a path whose name lacks the prefix |
| Paths.TempExact | mfs.cc:278-283 | two absolute paths have the same temporary path if and only if they agree in name and, but for one trailing slash, in directory |
| Paths.TempInjective | mfs.cc:278-283 | paths without a doubled slash have temporary files of their own |
| Paths.DoubledSlashShares | mfs.cc:278-283 | a path whose directory has one slash too many is a different string with the temporary path of the tidy one |
| Paths.CanonicalUnique | common.cc:163-172 | paths without empty, dot or dot-dot components that name the same file are the same string |
| Paths.DistinctMirrors | common.cc:163-172 | two such paths have the same mirror file, compared component by component, if and only if they are equal |
| Paths.DistinctTemp | mfs.cc:278-303 | nor is a temporary file, compared so, the mirror file of a path whose name lacks the prefix |
| MapEditor.SaveThenLoad | common.cc:20-54 | loading what was saved, in any order of the lines, gives the map back if and only if keys and values are non-empty and free of space, newline and NUL |
| MapEditor.LoadSaveLoad | common.cc:20-54 | for every text that loads, loading, saving and loading again is loading once |
| MapEditor.LoadFails | common.cc:23-28 | loading fails exactly when some line has no token |
| MapEditor.TokensAre | common.cc:26-36 | the tokens of every line: blanks are skipped, and a word ends at a blank or at the end of the line |
| MapEditor.LinesAre | common.cc:22-23 | the lines of every text, with or without a newline at its end |
| MapEditor.WrittenByHand | common.cc:23-36 | a key and values with single spaces between them and none after the last are added to what the key has |
| MapEditor.FinalNewline | common.cc:22-23 | a missing newline after the last line makes no difference |
| MapEditor.Editor.LoadText | common.cc:20-39 | the getline loop computes the specified map, or dies at the first line without a token with the lines before it added |
| MapEditor.Editor.AddTokens | common.cc:26-36 | one line appends its tokens after the first to the values of the first, and touches no other key |
| MapEditor.Editor.SaveText | common.cc:41-54 | what is written is the text of the map in some order of its keys, and loads back exactly when the map is clean |
| MetaCache.UpdateStatsRows | metacache.cc:183-188 | after storing a listing's stats each path holds the stat and the reading of the last entry that named it, else what it held before |
| MetaCache.UpdateDirentsRows | metacache.cc:160-181 | the upsert leaves one row for each name of the listing, that of the last entry with it, and keeps every other row, leftovers of the same directory included |
| MetaCache.StatAllHits | metacache.cc:126-136 | a listing served from the cache has for every entry a stat row not expired when it was looked up |
| MetaCache.StatAllStops | metacache.cc:130-133 | the first entry without such a row ends the lookup with a miss |
| MetaCache.Metacache.Getattr_ | metacache.cc:42-67 | a stat is found exactly when its row is at most 60 seconds old, and an older row is deleted |
| MetaCache.Metacache.Readdir_ | metacache.cc:80-119 | the first row's age alone decides; a hit returns every row of the directory, a miss by age deletes them all |
| MetaCache.Metacache.Ls_ | metacache.cc:121-137 | a listing is found when the first row is fresh and each entry's stat is, at its own reading of the clock; what expired on the way is deleted |
| MetaCache.Metacache.UpdateDirent_ | metacache.cc:160-181 | every entry of a listing is inserted or replaced, all with the one reading made before the loop |
| MetaCache.Metacache.UpdateLs_ | metacache.cc:183-193 | the stat of every entry is stored under its joined path at its own reading of the clock, then the directory rows at a later one |
| RemoteFs.RemoteFileSystem.Getattr_ | rfs.cc:27-39 | the server is asked only when the cache has no fresh row, its refusal is passed on and stores nothing, its answer is stored at a later reading of the clock |
| RemoteFs.RemoteFileSystem.Readdir_ | rfs.cc:41-54 | the same for listings, at the clock readings each row was looked up and stored with |
| RemoteFs.GetattrAnswers | rfs.cc:27-39 | a getattr is answered by a row at most 60 seconds old, which then stays; otherwise by the server, whose value, and nothing else, is stored, and whose refusal is passed on and leaves no row |
| RemoteFs.GetattrFillsCache | rfs.cc:27-39 | over all histories, what the server said to a getattr answers every getattr of that path for 60 seconds, whatever the server would say, unless a listing brings a newer stat |
| RemoteFs.RefusedAsksAgain | rfs.cc:31-34 | after a refusal the next getattr asks the server again |
| RemoteFs.ReaddirAnswers | rfs.cc:41-54 | a readdir the cache does not answer passes the server's listing or refusal on; a listing leaves a row and a stat for every name, a refusal no new row |
| RemoteFs.StatIsRecent | rfs.cc:27-39 | over all histories and clock readings, a getattr that succeeds returns a value the server reported for that very path and that was stored at most 60 seconds before, by a stat or by a listing |
| RemoteFs.CachedListingSound | metacache.cc:80-137 | over all histories a cached listing has every name of the latest listing stored for the directory, and each of its entries, leftovers included, has a stat reported for its path at most 60 seconds before |
| RemoteFs.ListingServesGetattr | rfs.cc:41-54 | the stat of a listed entry answers a getattr of the path joined from directory and name, within 60 seconds |
| RemoteFs.CachedListingExact | metacache.cc:80-137 | when the clock stands still within each call, a cached listing is exactly the latest one, without leftovers, since any older row's stat would have expired |
| RemoteFs.CachedListingWhen | metacache.cc:80-137 | when the clock stands still within each call, a readdir is answered by the cache if and only if the directory's latest listing was not empty and was stored at most 60 seconds before |
| Mirror.ConfiguredProper | mfs.cc:278-283 | for every pair of roots, distinct canonical paths have distinct mirror files and no mirror file of a visible path has the name of a temporary one |
| Mirror.ConfiguredUnder | mfs.cc:144-146 | for every pair of roots, mirror and temporary files lie below the mirror root and remote files below the remote root, each under the components of its path |
| Mirror.ChunkSizes | common.cc:155-157 | chunk sizes passed through int are right for every size below 2^31 and negative at 2^31 |
| Transfer.Writes | mfs.cc:361-380 | a chunk that is accepted proves the one before stored; one that is refused leaves the one before stored, still to come, or lost, and nothing else |
| Transfer.WriteCloses | mfs.cc:381-384 | after the close all accepted chunks are stored and nothing of the push is outstanding if it was answered, else all but the last, which may still arrive |
| Transfer.LeftLater | ftpserver.cc:240-266 | whatever the server's threads do after a push, at most its last chunk arrives late |
| Transfer.LastChunkLost | mfs.cc:361-384 | the calls of a push that returns 0, its close unanswered, after which the file lacks its only chunk until a left-over thread stores it |
| Mirror.MirrorFileSystem.Download | mfs.cc:310-333 | for every pattern of short reads and faults the temporary file holds the bytes read so far and nothing else on the local disk differs; if nothing left over interferes, those bytes are a prefix of the remote file, and with a reliable network the loop reaches the stat's size if and only if the file is that long |
| Mirror.MirrorFileSystem.Pull_ | mfs.cc:287-340 | success publishes exactly the bytes received, as many as the stat said, and, if nothing left over interferes, these are the beginning of the remote file; failure leaves every name, content and descriptor as it was and the temporary name removed; the remote file does not change, and its descriptor is closed when the close succeeds; a failed stat and a failed open give their own codes, what is not a regular file -EINVAL |
| Mirror.MirrorFileSystem.Upload | mfs.cc:361-380 | if nothing left over interferes, after k accepted chunks the remote file is the first k chunks of the mirror file over its old contents, the last possibly in flight; when a chunk fails, the last accepted one is stored, late or lost; over a reliable network without local faults no chunk fails |
| Mirror.MirrorFileSystem.Push_ | mfs.cc:342-384 | success with the close answered makes the remote file the mirror file followed by its own old tail and leaves nothing outstanding; success without that, and failure, leave a whole number of chunks, one fewer than accepted at worst, and nothing outstanding but that one; the local disk is unchanged; with nothing left over in the way, a reliable network and no local faults it succeeds and its close is answered; a failed open gives its own code |
| Mirror.MirrorFileSystem.Add_ | mfs.cc:386-393 | nothing for a mirrored file, a pull for any other |
| Mirror.MirrorFileSystem.Delete_ | mfs.cc:395-400 | the name is gone and nothing else changes |
| Mirror.MirrorFileSystem.Open_ | mfs.cc:57-77 | a path with a mirror file is opened locally and any other on the server; the handle goes to the index the search finds, and no handle is made when the open fails |
| Mirror.MirrorFileSystem.Close_ | mfs.cc:79-97 | the handle leaves the table and 0 is returned whatever the server answers, a dead network included; the index, not the stored descriptor, is what a remote close names |
| Mirror.MirrorFileSystem.Read_ | mfs.cc:99-116 | a local handle is positioned and read, a remote one read at its index on the server |
| Mirror.MirrorFileSystem.Write_ | mfs.cc:118-135 | a local handle is positioned and written, a remote write goes to the server or into the retry queue, where it counts as done |
| MirrorTheorems.Perform | mfs.cc:189-216 | every operation of the object is a step of the relation the run theorems are about |
| MirrorTheorems.RunOk | mfs.cc:57-135 | in every state of every run each local handle has a live descriptor of its own |
| MirrorTheorems.OpenAddsOne | mfs.cc:57-77 | open adds exactly one handle, at the least free index, with a descriptor nobody had, and disturbs no other handle, name or content |
| MirrorTheorems.LocalOpen | mfs.cc:62-67 | opening a mirrored file fails, with -1, exactly when the file call does, and otherwise gives the least free index |
| MirrorTheorems.RemoteOpen | mfs.cc:68-73 | opening any other file gives the server's negated errno, -ENETDOWN, or a handle that holds the descriptor the server handed out |
| MirrorTheorems.LocalRead | mfs.cc:106-112 | a read through a local handle returns as many bytes as were asked for or the file has from there, each of them the file's, and moves the descriptor behind them; it fails, with -EIO, exactly when the file call does |
| MirrorTheorems.LocalWrite | mfs.cc:126-131 | a write through a local handle stores every byte where it lands, fills a gap with zeros, leaves every other inode, and returns its size; it fails exactly when the file call does |
| MirrorTheorems.RemoteCalls | mfs.cc:99-126 | through a remote handle a read gives what the server as the client sees it gives for the index, and a write its size, or 0 with the write queued when the network fails |
| MirrorTheorems.CloseLeaves | mfs.cc:79-97 | a close returns 0 exactly for an index in the table, takes it out, closes a local handle's descriptor and no other |
| MirrorTheorems.WriteLands | mfs.cc:118-135 | a write changes one inode at most, at its offset or, when that is negative, where the descriptor stands |
| MirrorTheorems.ReadAfterWrite | mfs.cc:99-135 | what was written through one local handle is read back through any handle on the same file |
| MirrorTheorems.ClosedIsBad | mfs.cc:79-135 | an index that is not in the table, or no longer, gives -EBADF and changes nothing |
| MirrorTheorems.RemoteHandleExact | mfs.cc:118-126 | writes through a remote handle that get through leave what the client sees as writes to its file would if and only if the server takes the table index and the stored descriptor to the same file |
| MirrorTheorems.RemoteHandleAstray | mfs.cc:57-126 | for every configuration, a run in which the first remote file's write is lost with success reported |
| MirrorTheorems.RemoteCloseExact | mfs.cc:79-97 | a close of a remote handle that gets through returns 0, and closes the descriptor the handle was opened with if and only if that is the table index |
| MirrorTheorems.RemoteReadExact | mfs.cc:99-116 | reads through a remote handle that get through give what reads of its file would if and only if the server takes the table index to a file of the same content |
| MirrorTheorems.RemoteHandleCrossed | mfs.cc:57-116 | for every configuration and other remote file, a run in which a remote handle reads the other file's bytes, and its close returns 0, closes the other file's descriptor and leaves its own open |
| MirrorTheorems.NoTemporaryFiles | mfs.cc:287-400 | over every run of all operations no temporary file exists between calls, and every successful pull leaves exactly the st_size bytes received, the remote file's first if nothing left over interferes |
| OfflineEdit.PullBegins | mfs.cc:287-340 | after a pull no handle opened before leads to the new mirror file |
| OfflineEdit.SessionKeeps | mfs.cc:57-135 | through every run of opens, closes, reads, writes, commands on other files and pushes, the mirror file is the pulled one with the noted writes applied in order, and the handles that lead to it are those opened on it since |
| OfflineEdit.OfflineEdits | mfs.cc:287-384 | whatever others do at the server meanwhile, the push leaves the edited file as far as it was stored, all of it if the close was answered, followed by what was there; with a fresh stat that is the original with the edits if and only if what is missing was there already and nothing lies beyond |
| OfflineEdit.OfflineEditTheorem | mfs.cc:57-384 | with a fresh stat, nobody else making the remote file longer than the mirror file, and no leftover in the way of the pull and the last push, pull, any sequence of operations, and push leave the remote file equal to the original with the edits applied in order if the push's close was answered; otherwise if and only if the last chunk was stored or is what the file already held there |
| OfflineEdit.LateChunkAlone | mfs.cc:361-384 | an earlier push of the session that broke off meets that hypothesis however late its last chunk is stored |
| OfflineEdit.PushThenPull | mfs.cc:287-384 | sending a file and fetching it back gives it again if and only if what was not stored was there already and nothing lies beyond: if the close was answered, if and only if the remote file was not longer |

## Left out

- FUSE callbacks and argument handling, console output, the pipe reader, `readdir_mirror`, `makedir`, the access history of `recorder.cc`, `asynctask.cc` and `TryFtpClient`: wiring, or alternatives the file system does not use.
- Echo requests, host authorisation and the accept loop: a request type outside the eight modelled ones closes the connection.
- Several clients: one client process with one connection at a time; the server threads of connections it gave up may still run, and each positions and writes in one step, so two threads cannot slip in between each other's lseek and write.
- A server descriptor stands for a path: nothing in the program renames or unlinks on the server.
- Short and failing writes by the server's operating system: part of the wire model, assumed away above it (`WireLink.WholeRun`, `Link.Chosen`); short local reads and writes and failing renames and removals are assumed away throughout.
- Structure layout: fields are four-byte little-endian integers and fixed blocks, bytes the program leaves uninitialised are zero, and stat and dirent blocks are opaque.
- FtpClient.FtpClient.Ask: the mutex around each operation is not modelled; operations of one client never overlap.
- FtpServer.FtpServer.Run_: describes a thread that has the files to itself; interleaving with other threads is in `Wire`.
- SQLite as a store: two tables keyed as its unique constraints say, whose statements succeed; the 32-bit column time is read as an unbounded integer, and the order of rows is any order.
- RemoteFs.StatIsRecent: a report's time is the time it was stored, not the time the server computed it.
- MapEditor.Editor.SaveText: the order of lines is any order, not the map's key order; files that cannot be opened are not modelled.
- Paths.RealPathInjective: an empty root is taken to have no trailing slash, as reading the last character of an empty string is undefined.
- Mirror.MirrorFileSystem.Pull_: takes the stat, possibly cached, as a parameter, for sizes below 2^31 only; beyond that chunk sizes go wrong, as `Mirror.ChunkSizes` shows.
- Mirror.MirrorFileSystem.Push_: for mirror files below 2^31 bytes only, for the same reason.
- Mirror.MirrorFileSystem.Add_: for stat sizes below 2^31 only, for the same reason.
- MirrorTheorems.Perform: for stat and mirror sizes below 2^31 only, for the same reason.
- Mirror.MirrorFileSystem.Close_: a failing local close is not modelled.
- Mirror.MirrorFileSystem.Open_: directories, symbolic links and permission errors of the local file system are not modelled beyond a fault that makes the call fail.
- Paths are in the form the kernel hands them to the file system, without empty, dot or dot-dot components; other spellings typed into a control pipe, which name the same files, are not modelled, nor are symbolic links.
- Concurrency of the commands: pull, push, add and delete run on the pipe reader's own thread, without a lock against the file calls, but `MirrorTheorems.Step` makes each operation atomic.
- DelayConvergence.DelayedCallsConverge: one thread issues the calls; several would interleave between the network call and the queue.
- DelayLeaks.FilesConverge: one issuing thread as well.
- Codec.ServeSound: listings of more than 2^31 - 1 bytes, whose byte count overflows int in `ftpserver.cc:116` and `ftpserver.cc:160`, are not modelled.
- FtpServer.FtpServer.Readdir_: without such listings, for the same reason.
- FtpServer.FtpServer.Ls_: without such listings, for the same reason.
- DelayRemote.DelayRemoteFileSystem.Write_: the clause about order is for calls before which no server thread moves; moves in between are steps of `DelayConvergence`.
- DelayRemote.DelayRemoteFileSystem.Close_: likewise, and for closes that the server carries out.
- DelayRemote.DelayRemoteFileSystem.Retry: likewise.
- Delivery of retried calls inside the mirror: calls queued by the delaying layer are recorded there; their replay is the subject of `DelayRemote` and `DelayConvergence`, and appears to the mirror as a change made elsewhere.
- DelayTaskManager.DelayTaskManager.TaskLoop: follows the worker for as long as a finite but arbitrary script of the other threads lasts.
- Memory errors, data races inside containers and the exhaustion of descriptors.
