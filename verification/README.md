# Verified models of nine parts of a C collection

The repository is a collection of ten C projects. This project models, in Dafny, parts
of six of them whose correctness is hard to see, and proves what they are for.

| area | files here | C files |
|---|---|---|
| resumable file transfer | Wire, StreamIO, TransferLoops, Session, Framing, SessionTheorems, SessionRefinement, SessionProgress, ResumeDownload, ResumeUpload, ResumeCompletes, SessionRuns, SessionLimits, SessionFaults, SessionAnswers, UploadAtomic | linux-file-server client.c, server.c, protocol.c |
| thread pool | Tally, ThreadPool, ThreadPoolSafety, ThreadPoolTheorems, ThreadPoolCalls, ThreadPoolEnd, TaskQueue | linux-file-server thread_pool.c |
| key-value store | KvTable, KvFile, KvStore, KvDatabase | kv-database kvdb.c |
| block allocator | BlockLists, Mempool | memory-pool mempool.c |
| rate limiter | RateLimiter | linux-file-server rate_limit.c |
| asynchronous log | RingBuffer, AsyncLog, AsyncLogTheorems, AsyncLogCalls | log-system log.c |
| log rotation | LogRotation | linux-file-server log.c |
| shell | ShellSyntax, Shell | mini-shell parser.c, executor.c |
| URL codec | UrlCodec | web-server http.c |

Protocols (file transfer, thread pool, asynchronous log) are step systems: a state, the
steps each party or thread can take, and theorems about every run. What the C code
changes in place (queue, buckets, block headers, ring, token bucket, buffers) is a class
or an array whose methods are proved against value-level functions, and the theorems are
about those functions. `dafny verify dfyconfig.toml` checks everything.

Where the code does not do what its comments or signatures suggest, the model follows
the code:

- kvdb accepts keys of 256 bytes, but the load loop's buffer holds 255 and a NUL
  (`KvDatabase.ReopenAfterRun` gives the exact condition).
- A failed task allocation uses up a wakeup, so a producer can sleep beside a free slot
  (`ThreadPoolTheorems.FailedAllocationStrandsProducer`).
- usleep gets whole microseconds, so the pass after a pause can come too early
  (`RateLimiter.OnePause`); a request above the bucket size waits for ever.
- mempool_realloc returns NULL when no other block is free, even if the size fits the
  block it already has (`Mempool.Pool.Realloc`).
- A refused upload does not drain its body, lengths of 2^32 bytes or more wrap, and a
  directory is announced as data that never comes (`SessionLimits.AcceptableIsExact`
  says which commands these are, and that there are no others).
- After a short write the client goes on with the rest of the reply in its channel, and
  the server with the rest of the body: `SessionLimits.SettledIsExact`,
  `SessionFaults.GoingOnCorrupts` and `SessionFaults.MagicIsExact` say when that is
  harmless and what it does otherwise.
- thread_pool_destroy frees the pool under callers that its own broadcast has just woken
  (`ThreadPoolEnd.CallersAtTheEnd`).
- The client's download functions return SUCCESS after a broken transfer too. "Comes to
  its end" below means that the loop reached remaining == 0, not the return value.
- `${NAME}` swallows the next character (`ShellSyntax.BraceSwallows`), and the shell's
  command string leaves redirections out (`ShellSyntax.PrintParseBare`).
- A quoted bar still splits a command line (`ShellSyntax.QuotedBarSplits`).
- http_url_encode passes over a byte whose triple does not fit and goes on
  (`UrlCodec.DropsFromTheMiddle`).
- A rotate_max_files of zero or less keeps one rotated file (`LogRotation.KeepsSuffix`).

## Model

| member | source | states |
|---|---|---|
| `ResumeDownload.ResumeDownloadConverges` | linux-file-server/src/client.c:246-336 | Start with the local file absent or a prefix of the remote one. After every run (any chunking, any number of connections, a break or a short write at any point, other commands in between, none of them begun with part of an old reply outstanding) the remote file is unchanged and the local one is absent or a prefix of it; whenever an attempt then comes to its end, the two are equal. |
| `ResumeDownload.CompletedDownload` | linux-file-server/src/client.c:307-335 | The step that brings `remaining` to zero (not a short write) leaves the local file equal to the remote one. |
| `ResumeDownload.ResumeKeepsProgress` | linux-file-server/src/client.c:256-305 | While only resumed downloads write the local file, no step of such a run ever makes it shorter: what a broken attempt received is not fetched again. |
| `ResumeDownload.DownStep` | linux-file-server/src/server.c:257-318 | Each single step of either party, a short write with the client going on included, keeps the prefix relation and the remote file. |
| `ResumeUpload.ResumeUploadConverges` | linux-file-server/src/client.c:339-453 | Start with the server copy absent or a prefix of the local file. After every run (probe, skip loop, offset choice, unlink of a failed fresh upload, retention of a failed resumed one, any breaks) the local file is unchanged and the copy is absent or a prefix; every attempt that the server confirms, or that finds nothing to send, leaves the two equal. |
| `ResumeUpload.CompletedUpload` | linux-file-server/src/server.c:355-383 | The step with which the client finishes a confirmed upload finds the server copy equal to the local file. |
| `ResumeUpload.UpStep` | linux-file-server/src/server.c:321-384 | Each single step of either party keeps the copy absent or a prefix, and the local file. |
| `SessionTheorems.ProbeReports` | linux-file-server/src/client.c:361-404 | The probe of a resumed upload answers OK with a positive length iff there is a nonempty copy under an allowed name, and the length is then that of the copy. |
| `SessionTheorems.SessionFraming` | linux-file-server/src/server.c:451-511 | At every point of every run the requests the server has decoded are a prefix of those sent, and the responses the client has decoded a prefix of those sent; between two commands they are equal, and both channels are empty with the server waiting for a fresh header iff the client has read the last reply to its end. |
| `SessionTheorems.SessionStep` | linux-file-server/src/protocol.c:14-39 | The session invariant (channel contents, partial headers, counters, histories) is kept by every step of client, server and network, failed writes at both ends included. |
| `SessionRefinement.SessionIsSequential` | linux-file-server/src/client.c:125-243 | For any sequence of upload, download, both resume forms, delete, mkdir, rmdir and pwd without faults, and any chunking: between two commands the files on both sides are what executing the commands one after the other, each at once, makes of them. |
| `SessionRefinement.HeadsStep` | linux-file-server/src/client.c:456-550 | The step-wise form of that refinement: the world the session is heading for changes only when a command begins, and then by exactly that command. |
| `Framing.StepKeeps` | linux-file-server/src/server.c:458-511 | Framing invariant: unread bytes are exactly the not yet read part of the current request and reply, both ends agree on the bytes outstanding, and a partly received header is a prefix of the one sent. |
| `Framing.AssembledRequest` | linux-file-server/src/server.c:459-471 | The header that the server puts together from arbitrary pieces decodes to the request the client encoded. |
| `Framing.AssembledResponse` | linux-file-server/src/client.c:204-208 | The response that the client puts together from arbitrary pieces decodes to the one the server encoded. |
| `Framing.DerailedMagic` | linux-file-server/src/server.c:466-471 | After a failed write the server reads file data as headers; data without the magic bytes is refused, whatever its chunking. |
| `SessionLimits.AcceptableIsExact` | linux-file-server/src/server.c:256-384 | At any point of any session where the client has read the last reply to its end: the next command is carried out as expected (somebody can always move until it is done; then both channels are empty and the files are what it means) for every chunking, if and only if it is acceptable: lengths below 2^32, no directory announced as data, no nonempty upload refused. |
| `SessionLimits.SettledIsExact` | linux-file-server/src/client.c:318-335 | At any point of any session, short writes included: the client can go on with a command on the same connection if and only if it has read the last reply to its end. |
| `SessionLimits.GoesOnUnsettled` | linux-file-server/src/client.c:233-242 | With n > 0 bytes of an old reply outstanding, even a pwd ends with n bytes left in the client channel. |
| `SessionLimits.LongDownload` | linux-file-server/src/server.c:288-302 | For every file with 2^32 bytes or more to transfer there is a run after which the client considers the download finished with data left in its channel. |
| `SessionLimits.DirectoryDownload` | linux-file-server/src/server.c:268-312 | For every directory and every offset below its size, the client waits for data and the server for a header: nobody can move. |
| `SessionLimits.UploadLeftOver` | linux-file-server/src/server.c:323-338 | For every nonempty body that is refused, and every body of 2^32 bytes or more, there is a run after which the client has its response while part of the body is still in the channel. |
| `SessionLimits.LongResume` | linux-file-server/src/client.c:394-403 | For every local file of 2^32 bytes or more a resumed upload leaves body bytes in the channel, or reports success without sending what is missing. |
| `SessionFaults.GoingOnCorrupts` | linux-file-server/src/client.c:285-323 | For a family of files: a download whose write fails after one byte leaves a prefix; resuming on the same connection takes file bytes for a response, empties the local file, and ends with a file that is no prefix. |
| `SessionFaults.MagicIsExact` | linux-file-server/src/server.c:367-374 | An upload the server accepts, resumed or not, keeps the two parties in step through every fault (the server decodes only requests that were sent) if and only if its body has the magic bytes at no position i with 1 <= i <= length - header size. |
| `SessionFaults.UploadMagicIsExact` | linux-file-server/src/client.c:125-180 | The same for a plain upload begun at any point of any session, as a condition on the local file. |
| `SessionFaults.MagicIsDecoded` | linux-file-server/src/server.c:458-471 | For every body with the magic bytes at such a position: a failed write of the byte before it makes the server decode a request that was never sent. |
| `Wire.RequestRoundTrip` | linux-file-server/include/common.h:92-99 | The packed request header decodes to itself for all field values that fit. |
| `Wire.ResponseRoundTrip` | linux-file-server/include/common.h:114-118 | The packed response header decodes to itself for all field values that fit. |
| `StreamIO.RecvAll` | linux-file-server/src/protocol.c:28-39 | Success iff exactly `len` bytes were taken; what was taken is the front of the stream, in order, and the rest of the buffer is untouched, for every behaviour of recv. |
| `StreamIO.SendAll` | linux-file-server/src/protocol.c:14-25 | Success iff all bytes were appended; on failure a proper prefix was, for every behaviour of send. |
| `StreamIO.CarryRequest` | linux-file-server/src/protocol.c:42-57 | A header carried over any chunking arrives as it was sent, and leaves the stream empty, or a failure was reported. |
| `TransferLoops.ReceiveFile` | linux-file-server/src/client.c:307-323 | The receive loop: the file is the old one with the first bytes of the stream behind it; `remaining` is zero iff all of them were stored; the stream lost exactly what was taken; and the turns of the loop are a run of the session model with the same file, stream and end. |
| `TransferLoops.ReceiveTurn` | linux-file-server/src/client.c:311-323 | One turn of that loop is one step of the client in the session model. |
| `TransferLoops.SkipFile` | linux-file-server/src/client.c:383-392 | The skip loop takes exactly length - remaining bytes off the stream; its turns are a run of the session model, which starts the upload when nothing remains. |
| `TransferLoops.SendFile` | linux-file-server/src/server.c:304-312 | The send loop: the file from the position on goes to the stream; success iff all of it did, otherwise a prefix. |
| `TransferLoops.SendsAreSteps` | linux-file-server/src/client.c:428-436 | What the loop sends is what a send step of the session model puts on the channel, for the client and for the server. |
| `TransferLoops.StoreFile` | linux-file-server/src/server.c:351-383 | The upload loop: success iff the whole body was stored at the offset; the file is given up iff the upload failed and was a fresh one; its turns are a run of the session model with the same stream and disk. |
| `SessionProgress.NeverStuck` | linux-file-server/src/server.c:458-511 | No deadlock: in the middle of a command on a working connection, some party can send or receive. |
| `SessionProgress.MoveWorks` | linux-file-server/src/client.c:311-323 | Every fault-free step of a command uses up some of a measure (bytes still to be sent and received by both ends, the predicted reply and the upload after a probe included). |
| `SessionProgress.CommandCompletes` | linux-file-server/src/client.c:125-243 | Every acceptable command, begun at any point of any session and cut up anyhow, makes a bounded number of steps while nothing breaks; until it is ready somebody can step, and when it is ready the files are exactly what the command means. |
| `ResumeCompletes.ResumedDownloadCompletes` | linux-file-server/src/client.c:246-336 | Total convergence: after any run of broken attempts, one resumed download that nothing breaks is bounded, never stuck before its end, and ends with the local file equal to the remote one. |
| `ResumeCompletes.ResumedUploadCompletes` | linux-file-server/src/client.c:339-453 | Total convergence: after any run of broken attempts, one resumed upload that nothing breaks is bounded, never stuck before its end, and ends with the server copy equal to the local file. |
| `ResumeCompletes.Recover` | linux-file-server/src/server.c:458-464 | From every state, whatever was in flight, the parties can give up and reach a fresh connection. |
| `SessionAnswers.CommandIsAnswered` | linux-file-server/src/server.c:256-511 | The client of every acceptable command, begun at any point of any session, is told the truth: while nothing breaks, the statuses it has read since the command began are a prefix of those that the files at that moment call for (Told: denied, not found, error, OK, partial, per command, for a resumed upload the probe and then the upload if anything is missing), and exactly those when it is ready again. |
| `SessionAnswers.UploadIsConfirmed` | linux-file-server/src/server.c:377-383 | An upload, resumed or not, to a name that the server takes: whenever its answer is there the status is OK, and OK is the last status the client is told. |
| `SessionAnswers.UnbrokenUploadCompletes` | linux-file-server/src/client.c:439-453 | The step that ends an unbroken upload meets every condition of CompletedUpload, so the copy is then the local file. |
| `SessionAnswers.DispatchAnswers` | linux-file-server/src/server.c:256-449 | For every request and disk, with literal numbers: status, new disk and data as a fact about the files. Denied iff the name has a slash or two dots in a row; delete, mkdir and rmdir OK iff the disk changes that way; upload received iff the name is not a directory; a download carries the file from the offset on. |
| `SessionAnswers.HandleAnswers` | linux-file-server/src/server.c:473-509 | Every decoded request is answered at once with that status, or, an accepted upload with a body, received first and not answered yet. |
| `SessionAnswers.StoredIsConfirmed` | linux-file-server/src/server.c:376-380 | The step that stores the last byte of a body answers OK, with the bytes at their place in the file. |
| `SessionAnswers.AbandonedIsNotConfirmed` | linux-file-server/src/server.c:367-373 | A failed write is not answered. |
| `SessionAnswers.WrongMagicIsRefused` | linux-file-server/src/server.c:466-471 | A header without the magic number is answered with an error, changes nothing, and ends the connection. |
| `SessionAnswers.DeniedIsTraversal` | linux-file-server/src/server.c:259-262 | The names refused are those with a slash or two dots in a row. |
| `SessionAnswers.HeaderStart` | linux-file-server/include/common.h:92-101 | Every request starts with the bytes 56 52 53 46. |
| `SessionAnswers.ReceivesFitBuffers` | linux-file-server/src/protocol.c:28-39 | No receive step takes more than is left of its buffer: 280 bytes of header, 264 of response, 4096 of data. |
| `UploadAtomic.UploadIsAtomic` | linux-file-server/src/server.c:340-383 | A plain upload is all or nothing: after any steps and faults of the attempt, once the server has let go of it, the name holds what it held, nothing, or the whole file, and other names are untouched; while the server receives, the name holds a prefix; whenever the server has answered OK it holds the whole file. |
| `UploadAtomic.StepStores` | linux-file-server/src/server.c:355-374 | Each step, a failed write and a lost connection with their unlink included, keeps that. |
| `Wire.RequestBytes` | linux-file-server/include/common.h:92-99 | Where every byte of every field of the packed header lies, lowest byte first, and that the name is padded with zeros. |
| `Wire.ResponseBytes` | linux-file-server/include/common.h:114-118 | The same for the response. |
| `TransferLoops.WriteEach` | linux-file-server/src/server.c:347-367 | What write() at an offset leaves at each position: new bytes, old bytes, zeros in a gap. |
| `ThreadPoolTheorems.NoLostWakeup` | linux-file-server/src/thread_pool.c:20-46 | In every reachable state before shutdown with the lock free: if a worker sleeps, queued tasks are at most the awake idle workers; if a producer sleeps, free slots are at most the awake producers plus the failed allocations so far (so at most the awake producers when allocation succeeds). |
| `ThreadPoolTheorems.QueuedTaskIsServed` | linux-file-server/src/thread_pool.c:23-42 | In every reachable state with a queued task and the lock free, some worker can step. |
| `ThreadPoolTheorems.NobodySleepsAfterShutdown` | linux-file-server/src/thread_pool.c:190-199 | Once the destroyer has given up the lock nobody is asleep on either condition, in any later state of any run. |
| `ThreadPoolTheorems.AcceptedInOrder` | linux-file-server/src/thread_pool.c:133-181 | In every reachable state, dequeued tasks followed by queued ones are the accepted ones in order, and 0 <= task_count == length of the queue <= max_tasks. |
| `ThreadPoolTheorems.DestroyDropsNothing` | linux-file-server/src/thread_pool.c:201-213 | When the workers have been joined the queue is empty and the executed tasks are, with multiplicity, the accepted ones. |
| `ThreadPoolTheorems.ShutdownRunsAreBounded` | linux-file-server/src/thread_pool.c:184-213 | Every run after shutdown is at most as long as a measure of its first state, plus four steps for each new call of add_task. |
| `ThreadPoolTheorems.ShutdownNeverStalls` | linux-file-server/src/thread_pool.c:190-205 | After shutdown and until destroy returns, some thread other than a new caller can step: no deadlock. |
| `ThreadPoolTheorems.ShutdownCompletes` | linux-file-server/src/thread_pool.c:184-213 | A run after shutdown that can only go on with new calls has ended with destroy done and each task accepted before shutdown executed exactly once. |
| `ThreadPoolTheorems.FailedAllocationStrandsProducer` | linux-file-server/src/thread_pool.c:156-161 | A reachable state with one failed allocation in which a producer sleeps beside a free slot and no producer is awake: the term for failed allocations in NoLostWakeup is needed. |
| `ThreadPoolTheorems.NothingAcceptedAfterShutdown` | linux-file-server/src/thread_pool.c:141-154 | No run accepts a task after shutdown, including by producers woken inside the wait loop. |
| `ThreadPoolCalls.EveryCallIsDecided` | linux-file-server/src/thread_pool.c:133-181 | Over every run from a new pool, for each caller: the tasks of its calls, in order, are those decided for it and then the one it still holds; a task is turned away only by shutdown or a failed allocation; it is told 0 exactly for the accepted ones and -1 for the others, in order; the history of accepted tasks is the accepted ones of all callers in the order of their enqueueing. |
| `ThreadPoolCalls.EveryCallRunsOrFails` | linux-file-server/src/thread_pool.c:133-213 | When destroy has returned and no caller is inside: the tasks of all calls are, with multiplicity, the executed ones and those turned away. |
| `ThreadPoolCalls.CallsAreDecided` | linux-file-server/src/thread_pool.c:133-181 | The same for each caller from any state on, reachable or not. |
| `ThreadPoolCalls.RunAccounts` | linux-file-server/src/thread_pool.c:139-181 | For all callers together, with multiplicity: tasks in hand and tasks called are those accepted, turned away and still in hand. |
| `ThreadPoolTheorems.ReachableInv` | linux-file-server/src/thread_pool.c:59-80 | Every state reachable from a created pool, for any number of workers and producers, satisfies the whole invariant. |
| `ThreadPoolSafety.InvStep` | linux-file-server/src/thread_pool.c:16-56 | Lock ownership, queue, shutdown, wakeup and task-accounting invariants are kept by every step of every thread, spurious wakeups and failed allocations included. |
| `ThreadPoolSafety.WakeStep` | linux-file-server/src/thread_pool.c:139-178 | The counting invariant behind NoLostWakeup is kept by every step, including the states between an enqueue and its signal. |
| `ThreadPoolSafety.HeldStep` | linux-file-server/src/thread_pool.c:34-52 | For each task: dequeued count = executed count + copies in the hands of workers, at every step. |
| `TaskQueue.Queue.Enqueue` | linux-file-server/src/thread_pool.c:167-174 | The linked queue gains one task at its end, as the enqueue step of the pool model has it; head, tail and count stay consistent. |
| `TaskQueue.Queue.Dequeue` | linux-file-server/src/thread_pool.c:34-42 | The linked queue loses its first task, as the dequeue step of the pool model has it; the tail is null iff the queue is empty; an empty queue is left alone. |
| `TaskQueue.Queue.Discard` | linux-file-server/src/thread_pool.c:207-213 | The clean-up loop ends and drops exactly the tasks still queued: none, in every reachable state in which the workers have been joined. |
| `ThreadPoolEnd.CallersAtTheEnd` | linux-file-server/src/thread_pool.c:201-220 | With no new calls: destroy can return, and the pool be freed, while somebody is inside add_task, if and only if somebody is inside when destroy starts joining. |
| `ThreadPoolEnd.WokenAfterDestroy` | linux-file-server/src/thread_pool.c:195-205 | A reachable state in which destroy has returned and two producers, woken by its broadcast, still want the lock. |
| `KvDatabase.RunRefines` | kv-database/src/kvdb.c:331-498 | Every run of get, set, delete, exists, count and clear on the hash table reports what the same run on a finite map reports (values cut to the buffer, full size, not-found iff absent, length and read-only errors), and ends with that map. |
| `KvDatabase.StepRefines` | kv-database/src/kvdb.c:331-498 | The same for one operation, from every table that represents the map. |
| `KvDatabase.ReadsLastWrite` | kv-database/src/kvdb.c:331-406 | After any run on a new database, get of a key reports the value last written by a set that was let in, with no delete or clear after it: the first bytes of it that the buffer holds and its full length, or not-found if there is none. Limits are literal (256 and 65536). |
| `KvDatabase.GetReports` | kv-database/src/kvdb.c:331-361 | For every map: too long, not found, or data that is the front of the value, as long as the smaller of buffer and value, with the full length. |
| `KvDatabase.WritesReport` | kv-database/src/kvdb.c:364-498 | What set, delete and clear report: success exactly when they may and can write, with literal limits and the order of the tests. |
| `KvDatabase.LastWriteWins` | kv-database/src/kvdb.c:364-498 | After any run a key holds what the last operation that concerns it left. |
| `KvTable.HashAppend` | kv-database/src/kvdb.c:72-79 | The hash of a key with one more character: 33 times the hash, plus the character as a signed number, in 32 bits, from 5381. |
| `KvDatabase.ReadOnlyKeeps` | kv-database/src/kvdb.c:376-378 | No run on a read-only handle changes the table. |
| `KvDatabase.ReopenAfterRun` | kv-database/src/kvdb.c:259-315 | After any run on a new database with C-string keys: close and open brings back the same map if and only if no stored key is 256 bytes long (the longest kvdb_set accepts, one more than the load buffer holds). |
| `KvDatabase.Database.Get` | kv-database/src/kvdb.c:331-361 | Changes nothing; reports too long, not found, or the first bytes of the value, as many as fit the buffer, with the full length. |
| `KvDatabase.Database.Set` | kv-database/src/kvdb.c:364-406 | New table and result are those of the specification. |
| `KvDatabase.Database.Delete` | kv-database/src/kvdb.c:409-445 | New table and result are those of the specification. |
| `KvDatabase.Database.Exists` | kv-database/src/kvdb.c:448-457 | Reports what the specification reports, and changes nothing. |
| `KvDatabase.Database.Count` | kv-database/src/kvdb.c:460-468 | Reports what the specification reports, and changes nothing. |
| `KvDatabase.Database.Clear` | kv-database/src/kvdb.c:471-498 | New table and result are those of the specification. |
| `KvDatabase.Database.Close` | kv-database/src/kvdb.c:292-319 | The data file becomes the serialised table, or stays as it was for a read-only handle. |
| `KvTable.InsertRepresents` | kv-database/src/kvdb.c:135-181 | Inserting turns a table for m into a table for m[k := v]: each key once, only in bucket hash % capacity, size equal to the cardinality. |
| `KvTable.RemoveRepresents` | kv-database/src/kvdb.c:184-207 | Removing turns a table for m into a table for m without k. |
| `KvStore.HashString` | kv-database/src/kvdb.c:72-79 | The loop computes the 32-bit hash of the specification. |
| `KvStore.HashMap.Find` | kv-database/src/kvdb.c:120-132 | Finds the first node of the right bucket with the key, or null when there is none. |
| `KvStore.HashMap.Put` | kv-database/src/kvdb.c:135-181 | On nodes in the heap: the table becomes the inserted one, by overwriting the value in place or by a new first node. |
| `KvStore.HashMap.Delete` | kv-database/src/kvdb.c:184-207 | On nodes in the heap: the table becomes the one without the key, unlinking first or inner nodes; false iff the key is absent. |
| `KvStore.HashMap.Clear` | kv-database/src/kvdb.c:478-491 | On nodes in the heap: every bucket empty, size zero. |
| `KvStore.HashMap.Save` | kv-database/src/kvdb.c:304-315 | The save loop writes the records bucket by bucket, chain by chain. |
| `KvStore.LoadFile` | kv-database/src/kvdb.c:259-286 | The load loop builds the table of the specification from any bytes, or stops where a 256-byte key would leave the buffer. |
| `KvFile.CloseOpen` | kv-database/src/kvdb.c:263-315 | For a table with settable entries: loading its saved file succeeds iff every key is shorter than 256 bytes, and then gives the table with every chain reversed. |
| `KvFile.CloseOpenSameMap` | kv-database/src/kvdb.c:259-315 | The reopened table represents the same map. |
| `KvFile.TwoCyclesReproduceFile` | kv-database/src/kvdb.c:174-178 | Two close/open cycles give back the same table and the same file, byte for byte. |
| `KvFile.TruncatedFile` | kv-database/src/kvdb.c:263-285 | Loading any byte prefix of a saved file finds exactly the records wholly inside it, so the result is a sub-map of what was saved. |
| `KvFile.LoadPrefix` | kv-database/src/kvdb.c:263-285 | From any table: loading a prefix of serialised records inserts exactly the whole records, in order. |
| `Mempool.Create` | memory-pool/src/mempool.c:78-137 | Null iff there are no blocks; otherwise a valid pool with rounded block size, all blocks free in address order. |
| `Mempool.Pool.InitBlocks` | memory-pool/src/mempool.c:59-76 | Links all blocks into one free list in address order; the lists partition the blocks. |
| `Mempool.Pool.Alloc` | memory-pool/src/mempool.c:163-236 | Keeps the pool valid. Succeeds iff 0 < size <= block size and a block is free, and then returns the data of the first free block, moved to the front of the used list; otherwise only the failure counter changes. |
| `Mempool.Pool.Free` | memory-pool/src/mempool.c:251-316 | Keeps the pool valid. For NULL or any data pointer of the pool: OK iff NULL or in use; a used block moves to the front of the free list, anything else changes nothing. |
| `Mempool.Pool.Realloc` | memory-pool/src/mempool.c:318-357 | Keeps the pool valid. Non-NULL iff 0 < size <= block size and another block is free; then the new block holds the first `size` bytes of the old one and no other block changes. A NULL for a nonzero size leaves lists, headers and data as they were. |
| `Mempool.Pool.Reset` | memory-pool/src/mempool.c:484-505 | Keeps the pool valid; all blocks free again, the largest use so far kept. |
| `Mempool.Pool.Check` | memory-pool/src/mempool.c:402-468 | Ends on every pair of properly linked lists, whatever headers and counters say, and answers OK iff magic numbers, flags and counters are right. |
| `Mempool.Pool.SoundIsPartition` | memory-pool/src/mempool.c:411-461 | When the counters add up to the number of blocks, that answer is OK iff the two lists hold every block exactly once. |
| `Mempool.Pool.ValidIsSound` | memory-pool/src/mempool.c:402-468 | In every state the operations reach, the check answers OK. |
| `Mempool.Pool.StatisticsHold` | memory-pool/src/mempool.c:219-228 | In every state the operations reach: used + free size is the total, nothing underflows, and max_used is the largest value used_size has had. |
| `Mempool.Pool.LiveSeparated` | memory-pool/src/mempool.c:20-33 | Data of live pointers is 8-aligned, inside the arena, and disjoint for different pointers. |
| `Mempool.RegionsDisjoint` | memory-pool/src/mempool.c:26-33 | Data regions of different blocks meet neither each other nor a header. |
| `Mempool.RegionPlaced` | memory-pool/src/mempool.c:97-102 | A data region is aligned and inside the arena, and its address gives its block back. |
| `BlockLists.TakeFirstKeeps` | memory-pool/src/mempool.c:198-211 | Moving the first free block to the used list keeps both doubly linked lists acyclic, well formed and a partition. |
| `BlockLists.GiveBackKeeps` | memory-pool/src/mempool.c:278-295 | Moving any used block (first, inner or last) to the free list keeps both lists well formed and a partition. |
| `RateLimiter.WindowBound` | linux-file-server/src/rate_limit.c:21-97 | In every history of a limiter, with any callers and any rate changes up to `bound`, the bytes granted in a window [from, to] are at most bound + bound * (to - from). |
| `RateLimiter.WindowBoundIsReached` | linux-file-server/src/rate_limit.c:39-54 | Every whole rate reaches that bound in every window of whole seconds. |
| `RateLimiter.TokensInRange` | linux-file-server/src/rate_limit.c:21-37 | At a fixed rate every run keeps 0 <= tokens <= max_tokens == rate. |
| `RateLimiter.RefillTwice` | linux-file-server/src/rate_limit.c:26-36 | A refill on the way does not matter: polling early or often changes no later outcome. |
| `RateLimiter.AdmittedFromDeadline` | linux-file-server/src/rate_limit.c:63-73 | Without contention a request that fits the bucket is admitted at a time iff the time has reached its deadline. |
| `RateLimiter.OnePause` | linux-file-server/src/rate_limit.c:70-77 | One pause of consume ends within a microsecond before the deadline; the pass right after it succeeds iff the wait is a whole number of microseconds, and one microsecond later always. |
| `RateLimiter.OnePauseTooShort` | linux-file-server/src/rate_limit.c:75-75 | One byte at 3 bytes a second: the pass after the pause fails. |
| `RateLimiter.TooLargeNeverAdmitted` | linux-file-server/src/rate_limit.c:63-69 | After any history, a request above max_tokens fails whenever it is made. |
| `RateLimiter.Limiter.Refill` | linux-file-server/src/rate_limit.c:21-37 | The fields become the refilled bucket. |
| `RateLimiter.Limiter.TryConsume` | linux-file-server/src/rate_limit.c:81-97 | One pass: the fields become the next bucket of the specification, 0 iff admitted. |
| `RateLimiter.RateChangeKeepsTokens` | linux-file-server/src/rate_limit.c:112-124 | After a rate change a request is admitted at once iff it fits both the tokens there were and the new rate, and later iff it fits the new rate and the tokens plus what the new rate has earned: the tokens that fit the new bucket are kept, no more. |
| `RateLimiter.Limiter.ChangeRate` | linux-file-server/src/rate_limit.c:112-124 | The fields become the bucket with the new rate. |
| `RateLimiter.Limiter.Consume` | linux-file-server/src/rate_limit.c:56-79 | Over any clock readings the loop returns at the first one at which the request is admissible from the start, with the effect of that one pass; at a positive rate the pauses asked for are those of the specification. |
| `RateLimiter.Create` | linux-file-server/src/rate_limit.c:39-54 | Null iff the rate is not positive; otherwise a full bucket. |
| `AsyncLogTheorems.FaithfulFifo` | log-system/src/log.c:252-333 | For every capacity > 0, any producers and every run: output, then the entry in hand, then the ring is exactly what was pushed; total_entries is the number written out (one behind between the two statements); (head + count) % capacity == tail. |
| `AsyncLogTheorems.FinalPop` | log-system/src/log.c:318-332 | The pop that ends the consumer happens on an empty ring of a stopped logger, with everything pushed so far written out and counted. |
| `AsyncLogTheorems.OutputAtEnd` | log-system/src/log.c:296-333 | From then on, in every run, the output is what had been pushed at that moment; anything pushed later stays in the ring. |
| `AsyncLogTheorems.NobodyStuck` | log-system/src/log.c:255-278 | The consumer waits only on an empty ring of a running logger; while a producer sleeps and the ring has room, another producer has been woken and can step. |
| `AsyncLogTheorems.DrainIsBounded` | log-system/src/log.c:317-330 | After the stop request the consumer always can step until it has ended, and makes at most three steps for each entry in the ring or still pushed, plus four. |
| `AsyncLog.StepKeeps` | log-system/src/log.c:252-294 | The FIFO and wakeup invariants are kept by every step of consumer, producers and stop request, spurious wakeups included. |
| `RingBuffer.Buffer.constructor` | log-system/src/log.c:222-238 | An empty ring of the given capacity. |
| `RingBuffer.Buffer.Push` | log-system/src/log.c:260-263 | In the array: the contents gain the entry at the end, around the wrap. |
| `RingBuffer.Buffer.Pop` | log-system/src/log.c:280-288 | In the array: fails iff empty, otherwise yields and removes the oldest entry. |
| `AsyncLogCalls.LoggedInOrder` | log-system/src/log.c:252-269 | Over every run, for each producer: the entries it logs, in order, are those of its pushes and then the one it waits with. |
| `AsyncLogCalls.EveryEntryIsSomewhere` | log-system/src/log.c:252-318 | Over every run: the entries logged are, with multiplicity, those written out, the one in the hand of the consumer, those in the ring, and those producers wait with. |
| `AsyncLogTheorems.RunsUntilStop` | log-system/src/log.c:372-376 | The logger is running iff it was at first and no stop request has been made. |
| `RingBuffer.PutAppends` | log-system/src/log.c:260-263 | The value form of push: positions and contents agree. |
| `RingBuffer.TakeRemovesFirst` | log-system/src/log.c:285-288 | The value form of pop: positions and contents agree. |
| `LogRotation.KeepsSuffix` | linux-file-server/src/log.c:147-179 | After any writes on a fresh log the files .k, ..., .1 and the log, concatenated, are exactly the last lines written; no other numbered file exists; k is at most max(maxFiles, 1), and equal to it whenever a line has been dropped. |
| `LogRotation.RotatedSizes` | linux-file-server/src/log.c:110-116 | Every rotated file is at least the limit and less than the limit plus its last line; the log itself is below the limit. |
| `LogRotation.PastIsEverything` | linux-file-server/src/log.c:166-176 | No line is lost, repeated or moved where the chunks are cut. |
| `LogRotation.Rotate` | linux-file-server/src/log.c:120-142 | The rename loop is an exact shift for every directory, missing numbers included, and every limit, zero and negative ones included. |
| `LogRotation.Log.CheckRotate` | linux-file-server/src/log.c:110-144 | Rotates iff rotation is on and the log has reached the limit; otherwise nothing changes. |
| `LogRotation.Log.Write` | linux-file-server/src/log.c:147-179 | Keeps the directory equal to what the lines written so far amount to; lines below the level change nothing. |
| `LogRotation.ShiftedKept` | linux-file-server/src/log.c:123-136 | A rotation moves each kept chunk up by one number and drops the oldest at the limit. |
| `ShellSyntax.PrintParse` | mini-shell/src/executor.c:165-177 | For every pipeline of 1 to 16 commands of 1 to 255 plain words whose command string fits a line, and every environment: parsing the command string gives back the same commands and background flags. |
| `ShellSyntax.WriteParse` | mini-shell/src/parser.c:114-191 | For every pipeline of 1 to 16 commands of plain words, with any of < file, > file and >> file behind their words, written on a line that it fits, and every environment: parsing gives back the whole pipeline, redirections, append flags and background flags included. |
| `ShellSyntax.RedirectedFile` | mini-shell/src/parser.c:117-128 | Each operator takes the word behind it as its file; a later one replaces an earlier one. |
| `ShellSyntax.DanglingOperator` | mini-shell/src/parser.c:117-131 | An operator that is the last word is an argument. |
| `ShellSyntax.LongCommand` | mini-shell/src/parser.c:68-108 | A command of more than 255 words keeps the first 255. |
| `ShellSyntax.LongPipeline` | mini-shell/src/parser.c:159-180 | A pipeline of more than 16 commands keeps the first 16. |
| `ShellSyntax.NameExpands` | mini-shell/src/parser.c:33-55 | $NAME, the longest run of letters, digits and underscores up to 255: replaced by its value if it is set and fits the buffer, and by nothing otherwise; the rest follows. |
| `ShellSyntax.ScanDoubleQuoted` | mini-shell/src/parser.c:82-96 | Every word can be written between double quotes, with a backslash before each quote and backslash in it. |
| `ShellSyntax.PrintParseBare` | mini-shell/src/executor.c:165-177 | With redirections: the command string parses to the pipeline without them, so the round trip holds if and only if there were none. |
| `ShellSyntax.BraceSwallows` | mini-shell/src/parser.c:26-32 | ${NAME} is its value, if it is set and fits the buffer, and takes the character after its brace with it: for every name, character and rest. |
| `ShellSyntax.TokensOfEscaped` | mini-shell/src/parser.c:68-108 | Within one segment: any nonempty words without $ (blanks, quotes, backslashes in them included), with a backslash before every character, are read back as they were. |
| `ShellSyntax.ParseEscaped` | mini-shell/src/parser.c:140-191 | On a whole line: escaped words without $ and bars, none a redirection operator and the last not ending in &, are read back as one foreground command. |
| `ShellSyntax.ScanSingleQuoted` | mini-shell/src/parser.c:82-96 | Single quotes protect every character but a single quote. |
| `ShellSyntax.QuotedBarSplits` | mini-shell/src/parser.c:159-161 | A bar inside quotes still splits the line: segments are cut before quotes are looked at. |
| `ShellSyntax.ExpandPlain` | mini-shell/src/parser.c:15-61 | A token without $ that fits the buffer expands to itself. |
| `ShellSyntax.TokensOfWords` | mini-shell/src/parser.c:68-108 | Plain words between single blanks, with any spaces and tabs on either side, are read back as exactly these words, as many as there is room for. |
| `ShellSyntax.CommandsOfBars` | mini-shell/src/parser.c:159-180 | Printed commands between bars are split and read back as what their words say, as many as there is room for. |
| `ShellSyntax.BodyOfPrinted` | mini-shell/src/parser.c:147-157 | The trailing ampersand is recognised and removed iff the printer put it there. |
| `Shell.ExpandVariables` | mini-shell/src/parser.c:15-61 | The loops compute the expansion of the specification, buffer limits included. |
| `Shell.Tokenize` | mini-shell/src/parser.c:68-108 | The loops compute the words of the specification: quotes, escapes, blanks and the limit of 255 words. |
| `Shell.ParseRedirections` | mini-shell/src/parser.c:114-134 | The in-place compaction leaves exactly the words, and collects exactly the redirections, of the specification. |
| `Shell.ParseLine` | mini-shell/src/parser.c:140-191 | Returns 0 iff the specification finds a command, and then its pipeline. |
| `Shell.CommandString` | mini-shell/src/executor.c:165-177 | The nested loops build the command string of the specification, when it fits its buffer. |
| `UrlCodec.RoundTrip` | web-server/src/http.c:135-171 | decode(encode(s)) == s for every s, with destinations of at least 3|s|+1 and |s|+1 bytes. |
| `UrlCodec.EncodeSpells` | web-server/src/http.c:154-171 | Which bytes are escaped, by code points: 0-9, A-Z, a-z and - _ . ~ stand for themselves, every other byte for a percent sign and two upper-case hexadecimal digits whose value is the byte; the encoding is one such spelling after the other. |
| `UrlCodec.AllSpellingsAreEqual` | web-server/src/http.c:154-171 | There is only one text that spells a given one in this way, so the encoder is determined. |
| `UrlCodec.DecodeReads` | web-server/src/http.c:135-151 | The decoder on any text: a percent sign with two hexadecimal digits of either case is that byte, a plus is a blank, a percent sign near the end and any other byte is itself; other triples as strtol reads them. |
| `UrlCodec.SurvivesIfItFits` | web-server/src/http.c:154-171 | A short destination passes over a byte iff its spelling and the NUL do not fit behind what is written so far. |
| `UrlCodec.ShortBuffer` | web-server/src/http.c:154-171 | For every nonempty encoder destination: decoding gives a subsequence of s, and all of s if and only if the whole encoding and its NUL fit; the output is a C string. |
| `UrlCodec.WholePieces` | web-server/src/http.c:158-168 | For every destination size the output is the whole encoding of the bytes not passed over (no triple is split), and stays inside. |
| `UrlCodec.DropsFromTheMiddle` | web-server/src/http.c:162-166 | A short destination can lose a byte in the middle and keep a later one. |
| `UrlCodec.DecodesPrefix` | web-server/src/http.c:135-151 | A short decoder destination receives exactly the first bytes of the decoding. |
| `UrlCodec.UrlEncode` | web-server/src/http.c:154-171 | In the array: the spelling, by code points, of a subsequence of the text that is all of it when it fits, a NUL, nothing else changed, never out of bounds. |
| `UrlCodec.UrlDecode` | web-server/src/http.c:135-151 | In the array: the specified bytes, a NUL, nothing else changed, never out of bounds. |

## Left out

- File transfer: LIST, QUIT, AUTH and the other commands of the enumeration, TLS, authentication, compression and metadata (a header with the number of LIST or QUIT, which the modelled client never sends, counts as an unknown command); the wording of responses (numbers stand for the fixed texts).
- File transfer: a header or response handed to one successful send() is taken as sent whole, as the code assumes; data goes through the loops and may be split anywhere.
- File transfer: a recv or send that fails means that the connection is gone. A call interrupted by a signal on a healthy connection, after which the code would go on reading at the wrong place, is not modelled; nor is what the client still sends on a dead connection after its skip loop broke off.
- File transfer: one client works on a file at a time, and a server thread has noticed the end of its connection before the client reconnects. Opening the local file for writing succeeds; the empty name and "." are not used as remote names.
- File transfer: the theorems about runs are for runs whose commands are acceptable (`Framing.Acceptable`) and begun with the last reply read to its end (`Framing.Settled`), and whose failed server-side writes are of bodies without the magic bytes where a header could start (`Framing.NoMagic`). Each of the three is a condition a caller can check, and is proved exact (`SessionLimits.AcceptableIsExact`, `SessionLimits.SettledIsExact`, `SessionFaults.MagicIsExact`); a directory is taken to have the size 4096.
- Thread pool: thread_pool_create's rollback after a failed pthread_create, which sets the flag without the lock; the models start from a created pool.
- Key-value store: the write-ahead log (never replayed), statistics, timestamps, malloc failure, freeing of nodes, and NULL arguments.
- Block allocator: links are block numbers instead of pointers and headers are kept beside the data bytes, so writes of a user beyond the end of a block are not captured; the debug build, the mutex, size_t overflow of the arena size, malloc failure and pointers that are not of the pool are left out; base addresses are 8-aligned as aligned_alloc promises.
- Rate limiter: floating-point rounding, and pauses of more than 2^32 microseconds.
- Asynchronous log: the stop request is one atomic step, though log_close sets the flag without the ring's lock; output targets and formatting; log-system's own size rotation.
- Log rotation: log_set_rotate in the middle of a run, old files from earlier runs, failing renames and reopens, and the console copy of each line.
- Shell: job control, fork and exec, builtins; getenv is a parameter. Lines are shorter than MAX_LINE, as the shell reads them; a longer token would make tokenize loop for ever.
- Shell.CommandString: only for command strings that fit their buffer, because the separators are appended by strcat without a bound.
- UrlCodec.UrlEncode: only for destinations with room for the NUL, because dst_size - 1 wraps at zero.
- UrlCodec.UrlDecode: only for destinations with room for the NUL, because dst_size - 1 wraps at zero.
- The other projects of the collection and the vendored libraries: thin wrappers over system calls, or simpler copies of the parts above.
