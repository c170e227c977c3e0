# cpip: verified models of the stateful engines

cpip moves heavy Python work from a phone to a cloud backend. Most of it is glue; what can go subtly wrong sits in a few
small engines. This project models them in Dafny and proves what they promise over whole runs:

- **Build queue and worker** (`BuildQueue.dfy`, `BuildSchedule.dfy`, `BuildWorker.dfy`): a stably sorted priority queue whose
  failed jobs come back one level lower.
- **Remote calls** (`Protocol.dfy`, `Rpc.dfy`, `RpcSystem.dfy`): the wire messages, the dispatcher and message loop of the
  server, the pending-call tables of `CloudSession` and the daemon, and the two of them joined by first-in first-out channels
  under timeouts, late replies, heartbeats and lost connections.
- **Rate limiter** (`RateLimiter.dfy`): a lossy sliding window against the full accept history.
- **Chunk downloader** (`Fetcher.dfy`): range partition, concurrent writes, semaphore, and when the hash is checked.
- **Serializer** (`Base64.dfy`, `Serialization.dfy`, `KeywordArgs.dfy`): the tagged encoding of nested values, and of arguments.
- **Streams** (`Streaming.dfy`): demultiplexing, reassembly and assembly.
- **Package cache** (`Cache.dfy`, `CacheRuns.dfy`): least-recently-used eviction, size bound, integrity.
- **Retry, fallback, circuit breaker, reconnect** (`Fallback.dfy`).
- **Layers and mounts** (`Layers.dfy`, `Mount.dfy`): memoised overlays and the import path.

`Json.dfy` holds the values the modules exchange. Code that updates objects in place is a class here; each of its methods is
proved equal to a step function, and the theorems about whole runs are about those step functions.

Time is an input that does not go back, ids from `uuid4` are fresh, and SHA-256 is injective where a lemma says so. Floating
point is read as exact arithmetic (`real`, or whole numbers for the cache size).

## Main results

- Remote calls: over every run of client, channels and server, a settled call has the outcome of its own method and parameters
  and every live call is in exactly one place (`RpcSystem.Correlation`); emptying the channels settles everything sent on the
  connection, and they can always be emptied (`DrainAnswers`, `CanDrain`); no call is begun twice (`AtMostOnce`);
  the server's own calls and heartbeats are answered in order, each exactly once unless its dispatch raises
  (`ServerIsAnswered`).
- Build queue: no job at priority 10 or better starves, with an exact count of who can come before it (`NoStarvation`,
  `RankIsExact`, `StarvationExactly`), carried over to the worker's loop (`WorkerServes`).
- Cache: eviction takes the least recently used entries and no more than needed (`EvictionIsLru`); what is found is what was
  last stored, whatever others do to the files, exactly if its recorded hash was its own (`Agreement`).
- Rate limiter: deciding by a lossy window is deciding by the full history (`CheckByHistory`, `ExactlyOneWindow`).
- Downloads: in every order of arrival and writing the file is the source, and every maximal run gets there
  (`DownloadCorrect`, `MaximalRunFinishes`).
- Serializer and streams: exact round trips (`Serialization.RoundTrip`, `KeywordArgsRoundTrip`), and delivery through any
  interleaving up to the value the caller gets (`StreamDelivers`).
- Breaker, layers, mounts: invocation bounds under failure (`Throttled`, `InvocationBound`), composition as an exact overlay
  (`CompositionIsOverlay`), exact restoration of the import path (`UnmountAllRestores`, `UndoExactly`).

## Where the code falls short of what one would expect

Each of these is proved, with the exact condition under which the expectation holds.

- Nothing keeps a build priority within 1..10, and the cap at 10 lifts a failed job above one pushed with more than 10. A job
  can starve exactly if its priority is beyond 10 (`StarvationExactly`).
- The limiter decides as the full history would exactly if all limits share one window: a check under a short window throws
  away what a longer one still needs (`ExactlyOneWindow`). The limits in the repository all use 60 seconds.
- `retry_async` caps every delay but the first, so the closed form holds exactly if the base delay is within the maximum
  (`BackoffClosedForm`).
- `verify_integrity` can delete a file after having passed another entry for it; everything left is intact exactly if no
  intact entry shares its file with a later corrupt one (`VerifyLeavesIntact`). Three stores under one filename get the cache
  there (`SharedFilename`).
- The index is a faithful record of the disk after a store exactly if the file written and the key belong together: storing a
  key under another filename leaves the old file on disk with no entry to evict it by (`StoreKeepsFaithfulExactly`).
- A set with a tuple in it encodes but does not decode (`Serialization.RoundTrip`).
- A keyword argument named `__type__` is read as a tag. The arguments come back exactly if nothing reads as a tag, or they look
  like an encoded dict whose items come back, or the tag is unknown and every argument is a scalar (`KeywordArgsRoundTrip`);
  "pickle" is as good as unknown unless it comes with a class that may be pickled.
- The daemon answers a call by the server exactly if its dispatch does not raise; a cache invalidation with a list for
  parameters arrives whole and is never answered (`DaemonAnswersExactly`, `UnansweredCall`).
- A session that loses its connection can connect again by itself exactly if it has noticed the loss. An orderly close by the
  server goes unnoticed, and until the session is closed with `close()` no call issued after one is ever settled
  (`ReconnectsExactly`, `OrderlyCloseStrands`).
- A wheel stored with a hash that is not its own is deleted by the next get; it is found exactly if the hash is the file's own
  or none was given (`StoredIsFoundExactly`). The installer passes on the registry's hash unchecked.
- A download with the hash given is kept exactly if it is the right file, whatever the server sends, if and only if it is done
  in chunks: the plain way never looks at the hash (`HashCheckedExactly`).
- A stream without a content type of its own cannot tell one chunk that is a list from that list sent in pieces, and confuses
  nothing else (`ConfusedExactly`).
- Unmounting undoes mounting exactly if the directory was not on the path before (`UndoExactly`).
- A composed directory is never made again, so a layer missing the first time stays missing. The directory is the plain overlay
  exactly if, wherever an absent layer is the last to hold a path, the last present one to hold it holds the same bytes
  (`CompositionIsOverlay`); a list composed before its layer is stored stays empty (`ComposedTooEarly`). A layer whose archive
  failed to unpack counts as stored the second time (`FailedStoreIsTakenForDone`).

Read, not proved: `CloudSession` calls `exec.call`, which `server/ws/rpc.py` does not register, so with the handlers
registered there every such call settles with "Unknown method". The theorems hold for any table of handlers.

## Model

| member | source | states |
|---|---|---|
| BuildQueue.SortIsStable | builder/queue.py:25-27 | the re-sort after a push orders by (priority, timestamp) and keeps entries of equal key in their old order |
| BuildQueue.StableSortUnique | builder/queue.py:27 | order plus stability determine the list, so the sort of the model is the only one a stable sort can be |
| BuildQueue.BuildQueue.PushRequest | builder/queue.py:25-27 | the object's queue becomes the stable sort of the old one with the new tuple; the request keeps one place |
| BuildQueue.BuildQueue.PopRequest | builder/queue.py:29-34 | the first job moves to the processing table under its own id; an empty queue gives nothing and changes nothing |
| BuildQueue.BuildQueue.FailRequest | builder/queue.py:39-43 | the request's own priority is lowered one level, capped at 10, and it is pushed again; an unknown id changes nothing |
| BuildSchedule.PushJoinsLine | builder/queue.py:25-27 | with a clock that does not go back, a push joins the end of the line of its priority and leaves all other lines alone |
| BuildSchedule.PopTakesMostUrgent | builder/queue.py:29-34 | a pop takes the earliest arrival of the most urgent priority and nothing else |
| BuildSchedule.StepInv | builder/queue.py:25-43 | every operation keeps the list ordered, ids distinct and queued and processing jobs apart |
| BuildSchedule.ConservedAndDemoted | builder/queue.py:17-43 | from the empty queue, over every run, and told by its events alone: a pushed job is in exactly one of queued, processing and completed, and once only in the queue; its priority is min(p0 + k, 10) after k > 0 failures and p0 before |
| BuildSchedule.RankCountsDown | builder/queue.py:25-43 | the sum over jobs ahead of max(1, p_i - p_j), plus what jobs in processing can still owe, drops by one with each job taken, whatever fails |
| BuildSchedule.NoStarvation | builder/queue.py:25-43 | a job at priority 10 or better is taken after at most that many others, even if every job taken fails |
| BuildSchedule.RankIsExact | builder/queue.py:25-43 | the bound is met: if nothing completes and that many have been taken, the job is next |
| BuildSchedule.RankAmongPeers | builder/queue.py:25-34 | with nothing in processing and only peers ahead the rank is the place in the line |
| BuildSchedule.StarvationExactly | builder/queue.py:39-43 | a job can be overtaken for ever, with nothing more urgent arriving, if and only if its priority is beyond 10 |
| BuildWorker.ProcessBuild | builder/worker.py:43-68 | every path of a build, exceptions included, reports exactly one of complete and fail, and complete only after compile, clean scan and signature; only a cancelled build reports neither and leaves its job in the processing table |
| BuildWorker.BuildEnds | builder/worker.py:43-68 | in terms of the steps alone: a job is done with if and only if it compiles to a wheel with a path, the wheel scans clean and signing returns; cancelled while compiling or scanned, nothing happens; otherwise it waits again at min(p + 1, 10), and nothing else moves |
| BuildWorker.Work | builder/worker.py:30-38 | the worker's loop, with any pushes by others while a build is awaited or an empty queue is slept on, is the run of takes, arrivals and verdicts the schedule theorems speak of; a cancelled build ends it |
| BuildWorker.TurnEnds | builder/worker.py:34-38 | a turn takes the head of the queue and leaves it in processing only if the build is cancelled |
| BuildWorker.WorkerLeavesNothing | builder/worker.py:30-38 | a worker that is not cancelled leaves nothing of its own in processing, however long it runs |
| BuildWorker.CancelledWorkerStops | builder/worker.py:30-38 | the first cancelled build ends the worker: nothing happens after what others pushed meanwhile |
| BuildWorker.WorkerServes | builder/worker.py:30-68 | one worker that is not cancelled takes a given job at priority 10 or better within a number of turns known beforehand, however the builds end and whatever no more urgent job arrives meanwhile |
| Protocol.WireNormalises | shared/protocol.py:92-134 | what arrives is the message with an empty method or error turned into none, whatever the receiver's uuid and clock |
| Protocol.WireRoundTrip | shared/protocol.py:92-134 | a constructed message survives the wire if and only if its method and its error are each absent or non-empty |
| Protocol.WireIdempotent | shared/protocol.py:92-134 | a second trip changes nothing |
| Protocol.HelpersSurvive | shared/protocol.py:158-261 | replies, errors, heartbeats, stream and session messages always survive; calls and notifications exactly if the method is non-empty |
| Protocol.ReplyWires | shared/protocol.py:167-196 | results, heartbeats and their acknowledgements written out key by key, version and type string included |
| Protocol.ErrorWire | shared/protocol.py:176-186 | an error message written out, with code, message and data |
| Protocol.StreamWires | shared/protocol.py:199-220 | the three stream messages written out |
| Protocol.NamedWires | shared/protocol.py:158-261 | calls, notifications and session inits written out, with the device information in the latter |
| Protocol.UntypedIsCall | shared/protocol.py:122-134 | a dictionary without a type is a call, one whose type is no text is refused |
| Json.FalsyValues | shared/protocol.py:84-109 | which values count as false, on which `or` and the keys written depend |
| Rpc.DeviceConnection.OnText | server/app.py:118-147 | one turn of the message loop: what is sent, and which of metadata and last heartbeat change |
| Rpc.ServerAnswersExactly | server/app.py:118-147 | the server answers session inits and calls and nothing else, and a call exactly if its method can be looked up |
| Rpc.SessionIsAcknowledged | server/app.py:123-131 | the acknowledgement of a session, written out, names the device |
| Rpc.UnknownMethodSays | server/ws/rpc.py:30-35 | the error for a method nobody registered, written out; a call without a method is one of "" |
| Rpc.HandlerSays | server/ws/rpc.py:37-49 | the result with its duration, or the error with the text of the exception and its traceback, written out |
| Rpc.PendingCalls.Open | runtime/interceptor.py:129-131 | a call's future is in the table, waiting, before anything is sent |
| Rpc.PendingCalls.TimeOut | runtime/interceptor.py:137-138 | a timeout cancels the future and leaves the entry |
| Rpc.PendingCalls.OnMessage | runtime/interceptor.py:74-92 | one message pops at most its own entry and settles at most its own future, and only if that is waiting |
| RpcSystem.WireTransparent | runtime/interceptor.py:79-88 | the client's handling of a dictionary is the system's handling of the message it was made from |
| RpcSystem.DispatchMeans | server/ws/rpc.py:30-49 | the reply reads back as the outcome of the call's own method and parameters |
| RpcSystem.RunInv | runtime/interceptor.py:56-154 | every interleaving of issues, turns, timeouts, losses, closings and reconnections keeps the system invariant |
| RpcSystem.IssueIsRecorded | runtime/interceptor.py:122-135 | issuing a call records its name and parameters, opens its entry, and sends exactly that call if there is a connection |
| RpcSystem.ReplyIsRecorded | server/ws/rpc.py:37-49 | the handler runs in the world recorded for its call, and the reply goes last on the way back |
| RpcSystem.ConnectionEnds | runtime/interceptor.py:56-154 | a connection that ends loses what is under way on it and no call of the client's; a session takes itself for connected afterwards if and only if the server closed in order |
| RpcSystem.Correlation | runtime/interceptor.py:74-139 | over every run a settled call has its own outcome, and an id is in exactly one of request channel, server and reply channel if its entry belongs to the open connection, and nowhere otherwise |
| RpcSystem.SettledOnce | runtime/interceptor.py:80-88 | a settled or cancelled future never changes again |
| RpcSystem.ReplyArrives | runtime/interceptor.py:80-88 | an arriving reply clears its entry; a waiting call gets its own outcome, a timed-out one nothing |
| RpcSystem.AtMostOnce | server/app.py:137-141 | over every run, reconnections included, the server begins a call at most once, and never one it had begun before |
| Rpc.CpipDaemon.HandleMessage | client/daemon.py:83-148 | one message in the daemon's loop: replies settle calls, a heartbeat or a dispatched call is answered, a raising dispatch sends nothing |
| Rpc.HeartbeatIsAcknowledged | client/daemon.py:98-100 | a heartbeat is answered by an acknowledgement under its own id, which the server reads as one |
| Rpc.DaemonSays | client/daemon.py:112-148 | the results of the three handlers and the reply to any other method, written out |
| Rpc.DefaultTexts | runtime/interceptor.py:84-88 | the texts a client makes up for an error that has none, and the message of one that has |
| Rpc.DaemonAnswersExactly | client/daemon.py:112-148 | a call by the server is answered, once and under its own id, if and only if the dispatch does not raise: the method can be looked up, an invalidation brings an object, and no handler's input or output fails |
| Rpc.UnansweredCall | client/daemon.py:84-88 | `cache.invalidate` with a list for parameters survives the wire and gets no answer |
| RpcSystem.ServerCallsAnswered | client/daemon.py:83-148 | calls pushed from an idle connection on are handled in that order, and once nothing is under way the server has read one result for each whose dispatch returns, in order and under its id, and none for the others |
| RpcSystem.HeartbeatsAcknowledged | client/daemon.py:83-100 | every heartbeat pushed from an idle connection on is acknowledged once, in order and under its id, once nothing is under way |
| RpcSystem.ServerIsAnswered | client/daemon.py:83-148 | the same at any moment of any run on one connection, for calls and heartbeats, with what is under way accounted for |
| RpcSystem.ReconnectsExactly | runtime/interceptor.py:56-154 | a lost connection can come back, by any run without `close()`, if and only if the client is the daemon or has noticed the loss; after `close()` a session always can |
| RpcSystem.OrderlyCloseStrands | runtime/interceptor.py:74-154 | after an orderly close by the server, and until its own `close()`, a session never connects again and no later call of it is ever settled |
| RpcSystem.DrainAnswers | server/app.py:118-141 | any run of server and client turns that empties the channels settles every waiting call sent on the connection with its own outcome and clears the timed-out ones |
| RpcSystem.CanDrain | client/daemon.py:96-116 | such a run always exists, no longer than the work in flight, heartbeats and calls by the server included |
| RateLimiter.RateLimiter.Check | server/auth/rate_limiter.py:36-56 | the loops and dictionary updates compute `Checked` |
| RateLimiter.RateLimiter.CountRemaining | server/auth/rate_limiter.py:58-65 | the counted sum gives max(0, limit - requests in the window) |
| RateLimiter.CheckedList | server/auth/rate_limiter.py:36-56 | after a check its key holds its requests in the window and the new one if accepted, which it is if and only if those in the window are fewer than the limit |
| RateLimiter.PrunesBeyondThousand | server/auth/rate_limiter.py:47-50 | up to a thousand keys all are kept; beyond that exactly those with a request in the window |
| RateLimiter.CheckByHistory | server/auth/rate_limiter.py:36-65 | with a cutoff that does not fall, `check` and `remaining` answer as the complete history would, and stay able to |
| RateLimiter.ExactlyOneWindow | server/auth/rate_limiter.py:17-56 | no run can tell the limiter from one that remembers everything if and only if all limits share one window |
| RateLimiter.AcceptBound | server/auth/rate_limiter.py:52-56 | an accept under limit L leaves at most L requests in its trailing window |
| RateLimiter.NeverMoreThanLimit | server/auth/rate_limiter.py:36-56 | over every run no interval (a, a+W] holds more than the largest limit of one client's accepts, and no more of them lie within less than W of each other; no stored list is longer |
| Fetcher.PlanChunks | virtualization/fetcher.py:65-70 | the loop cuts the file into consecutive ranges of 1 to chunk_size bytes, all but the last full |
| Fetcher.Download.StoreChunk | virtualization/fetcher.py:85-91 | the bytes are at their offset, no byte elsewhere changes, a gap is filled with zeros, and the bytes written so far are reported |
| Fetcher.DownloadCorrect | virtualization/fetcher.py:72-93 | in every order of arrival and writing, exact range replies leave the source in the file; progress rises strictly, equals the bytes written and ends at the total; the limit on fetches holds |
| Fetcher.CanMove | virtualization/fetcher.py:76-93 | while a chunk is missing some fetch can go on: no deadlock |
| Fetcher.MaximalRunFinishes | virtualization/fetcher.py:76-93 | a run that cannot go on has the whole source, after three moves per chunk |
| Fetcher.SimpleDownload | virtualization/fetcher.py:45-58 | the pieces of the body in order make up the file, and each report is the length so far |
| Fetcher.PiecesMakeSource | virtualization/fetcher.py:50-57 | pieces cut from a source in order, wherever it was cut, make up the source |
| Fetcher.NoHashKeepsAll | virtualization/fetcher.py:38-102 | without an expected hash every download is kept as received |
| Fetcher.HashCheckedExactly | virtualization/fetcher.py:34-102 | given a source's hash, a download is kept exactly if it is the source, whatever the server sends, if and only if ranges are supported and the file has at least two chunks |
| Base64.RoundTrip | runtime/serialization.py:48 | base64 with the alphabet and padding of section 4 of RFC 4648 reads back |
| Base64.Alphabet | runtime/serialization.py:48 | the alphabet in the order of table 1 of RFC 4648 |
| Base64.Vectors | runtime/serialization.py:48 | three vectors of section 10 of RFC 4648, with both paddings |
| Serialization.RoundTrip | runtime/serialization.py:36-101 | decoding an encoded value gives it back with tuples as lists, user keys named `__type__` included, unless a set in it holds a tuple; then it raises |
| Serialization.SequenceForms | runtime/serialization.py:41-42 | the encodings of lists and tuples written out |
| Serialization.SetForm | runtime/serialization.py:53-54 | the encoding of a set written out, in the order of iteration |
| Serialization.DictForm | runtime/serialization.py:44-45 | the encoding of a dict written out, whatever its keys |
| Serialization.OtherForms | runtime/serialization.py:47-51 | the encodings of bytes and complex numbers written out |
| Serialization.OnlyTuplesChange | runtime/serialization.py:41-42 | a value is its own normal form if and only if no tuple is in it, at any depth of lists and dicts; a tuple's is that of the list |
| Serialization.HashableValues | runtime/serialization.py:100-101 | which values can be members of a set |
| Serialization.PickledModules | runtime/serialization.py:17-20 | a class may be pickled if and only if its first module is one of the eight allowed |
| Serialization.EncodingIsInjective | runtime/serialization.py:36-101 | encodings tell values apart up to tuples and lists |
| Serialization.PositionalArgsRoundTrip | runtime/serialization.py:23-30 | positional arguments, encoded without an outer tag, come back as a list |
| KeywordArgs.KeywordArgsRoundTrip | runtime/serialization.py:31-179 | keyword arguments come back if and only if nothing reads as a tag and no set holds a tuple, or they look like an encoded dict whose items come back, or the tag is unknown (or "pickle" without a class that may be pickled) and all are scalars |
| KeywordArgs.RawIsNormOnlyForScalars | runtime/serialization.py:36-66 | an encoding left undecoded is the value itself if and only if that is a scalar |
| KeywordArgs.KeywordArgsWitnesses | runtime/serialization.py:31-115 | `__type__="list"` is lost, `__type__="note"` comes back, and `__type__="dict", items={}` comes back because it looks like an encoded dict |
| Streaming.StreamReceiver.AddChunk | runtime/streaming.py:30-33 | the padding loop and assignment compute `OnChunk`, for negative indices as list assignment does, and raise exactly if such an index is out of range |
| Streaming.NegativeIndex | runtime/streaming.py:30-33 | a negative index in range replaces the chunk that many places from the end, and nothing else |
| Streaming.StreamManager.CreateStream | runtime/streaming.py:68-71 | a fresh receiver takes over the id |
| Streaming.StreamManager.HandleMessage | runtime/streaming.py:73-83 | a message changes its own receiver only, the end of a stream lets it go, and only an index out of range raises |
| Streaming.Demultiplexes | runtime/streaming.py:65-83 | in any interleaving, an id's receivers are what its own messages alone would have made of them |
| Streaming.Frozen | runtime/streaming.py:81-83 | a receiver let go never changes again |
| Streaming.Reassembles | runtime/streaming.py:30-33 | any order and repetition of pieces rebuild the original if and only if the last piece arrived and every missing one is None |
| Streaming.StreamDelivers | runtime/streaming.py:30-83 | a stream opened once whose pieces all arrive before its end, with or without a STREAM_START, leaves one complete receiver, whatever else goes on, and that assembles to the original: a text wherever it was cut, and otherwise the list of chunks if and only if there is not exactly one |
| Streaming.ConfusedExactly | runtime/streaming.py:50-59 | without a content type of its own, two originals assemble to the same value if and only if they are equal or one is a single chunk holding the other as a list |
| Cache.CacheManager.MaybeEvict | client/cache.py:221-249 | the loop computes `Evict` and ends |
| Cache.CacheManager.FetchWheel | client/cache.py:103-126 | what is found is on disk with the recorded hash, the disk being untouched; what is not found has left the index |
| Cache.CacheManager.KeepWheel | client/cache.py:128-151 | evict, copy, hash, record; a missing source or a file evicted in place raises without recording |
| Cache.CacheManager.FetchLayer | client/cache.py:155-170 | what is found exists at its recorded path; what is not found has left the index; the disk is untouched |
| Cache.CacheManager.KeepLayer | client/cache.py:172-193 | evict, replace the directory, record its size |
| Cache.CacheManager.VerifyIntegrity | client/cache.py:289-306 | the loop computes `Verify` and reports `Issues`, in index order |
| CacheRuns.EvictionIsLru | client/cache.py:228-249 | eviction ends within 0.9 of the maximum (or empty), takes entries last used no later than any survivor, and none beyond need |
| CacheRuns.EvictsBeyondNineTenths | client/cache.py:221-249 | in bytes: within 9/10 of max_size_mb * 2^20 nothing goes, what is left is within that or nothing, and the last entry to go would have exceeded it |
| CacheRuns.EvictionDeletes | client/cache.py:240-247 | a file is deleted if and only if an evicted entry pointed to it |
| CacheRuns.EvictsLeastRecentlyUsed | client/cache.py:228-249 | after any run, what goes was last stored or got no later than what stays |
| CacheRuns.SizeBound | client/cache.py:128-249 | over every run the size of the index stays within 0.9 of the maximum plus the largest entry ever stored, each entry counting with its size when last stored |
| CacheRuns.BiggestWasStored | client/cache.py:128-193 | the largest entry of the bound was stored in the run, and none stored was larger |
| CacheRuns.Agreement | client/cache.py:103-151 | after any run, outside corruption and wrong hashes included, a wheel found has the hash recorded when its key was last stored, so it is the content last stored if and only if that hash was the file's own; a known key that yields nothing has left the index; distinct paths are not needed |
| CacheRuns.StoresAreRemembered | client/cache.py:128-151 | what last stored means: the file as given or in place, the hash given or its own, its size and its time; a store that raises is not remembered |
| CacheRuns.GetsCountAsUse | client/cache.py:103-170 | what use means: a get that finds something dates its key and no other |
| CacheRuns.StoredIsFoundExactly | client/cache.py:103-151 | a wheel just stored is found by the next get if and only if no hash was given or the file's own; otherwise that get deletes the file and forgets the key |
| CacheRuns.GetsLeaveOthers | client/cache.py:103-170 | a get that finds nothing forgets its own key only; one that finds something changes its own access time only |
| CacheRuns.StoredLayerIsFound | client/cache.py:172-193 | a layer stored from outside is found by the next get, with the content given and its size recorded; a missing source leaves neither directory nor entry |
| CacheRuns.TreeSizeIsSum | client/cache.py:252-261 | the size of a layer adds up the lengths of its files |
| CacheRuns.LayerAgreement | client/cache.py:155-193 | a layer found is its own directory and exists; a known layer that yields nothing has left the index |
| CacheRuns.VerifyKeepsExactly | client/cache.py:289-306 | an entry is kept if and only if it was intact and no earlier entry had its file deleted |
| CacheRuns.IntactMeans | client/cache.py:293-300 | an entry is intact if and only if its file is there and, for a wheel with a hash, has that hash |
| CacheRuns.IssuesAreDropped | client/cache.py:289-306 | what is reported are the keys of the entries dropped, in the order of the index |
| CacheRuns.VerifyLeavesIntact | client/cache.py:289-306 | all that is left is intact if and only if no intact entry shared its file with a later corrupt one |
| CacheRuns.SharedFilename | client/cache.py:128-306 | a run that gets there: two wheels of one filename, the first stored again last; the check keeps its entry and deletes its file |
| CacheRuns.StoreKeepsFaithfulExactly | client/cache.py:128-151 | a store keeps entries and files one to one, with true sizes, if and only if after eviction the file and the key belong together; otherwise a file is counted twice or orphaned |
| CacheRuns.NoIssues | client/cache.py:289-306 | nothing is reported if and only if every entry is intact |
| Fallback.Retry | runtime/fallback.py:52-75 | attempts, sleeps and result of the loop: it stops at the first decisive outcome, after at most max_retries + 1 attempts |
| Fallback.BackoffClosedForm | runtime/fallback.py:60-72 | the k-th sleep is min(base * factor^k, max) for every k if and only if base <= max |
| Fallback.TotalSleep | runtime/fallback.py:60-72 | total sleep is at most n maxima and at most the geometric sum |
| Fallback.Execute | runtime/fallback.py:38-49 | the first success decides, after trying everything before it; with none, the last error is raised |
| Fallback.CircuitBreaker.Call | runtime/fallback.py:107-119 | a refused call runs nothing; an admitted one records its outcome |
| Fallback.ClosedIffBelowThreshold | runtime/fallback.py:81-105 | with overlapping calls too, every reachable state is closed iff failures < threshold, exactly if threshold >= 1 |
| Fallback.CountsSinceSuccess | runtime/fallback.py:97-105 | after any run the count is the number of calls that ended badly since the last that ended well |
| Fallback.ClosedByHistory | runtime/fallback.py:88-105 | so the breaker is closed if and only if that number is below the threshold |
| Fallback.SuccessCloses | runtime/fallback.py:97-99 | a call that ends well, after any run, leaves the breaker closed with nothing counted, and the next call is admitted |
| Fallback.AskingHalfOpens | runtime/fallback.py:88-95 | asking moves an open breaker to half-open once its time is up, and changes nothing else |
| Fallback.HalfOpenReopens | runtime/fallback.py:101-105 | one failure in half-open opens the breaker again |
| Fallback.OpenAdmitsNothing | runtime/fallback.py:88-105 | while open nothing is admitted until a success or until more than reset_timeout has passed since the latest failure, and then the next call is |
| Fallback.Throttled | runtime/fallback.py:88-119 | if every admitted call fails, the n-th invocation beyond the threshold starts more than n * reset_timeout after the threshold-th failure |
| Fallback.InvocationBound | runtime/fallback.py:88-119 | so within time T after it at most threshold + T / reset_timeout calls are made |
| Fallback.ConnectionLoop | client/daemon.py:63-94 | the k-th consecutive reconnect wait is min(2^k, 60), counted anew after every connection |
| Fallback.ReconnectWaits | client/daemon.py:90-94 | the waits are 1, 2, 4, 8, 16, 32 and then 60 seconds |
| Fallback.StreakCounts | client/daemon.py:63-94 | waits count from the last connection: a broken one is waited for itself, one closed in order is not |
| Layers.LayerManager.StoreLayer | virtualization/layers.py:60-86 | a layer is unpacked once under its content id, and its files are reported |
| Layers.LayerManager.ComposeLayers | virtualization/layers.py:88-106 | the copying loops compute the overlay, unless the directory exists already |
| Layers.LayerManager.CleanupUnused | virtualization/layers.py:108-117 | exactly the inactive layers go, composed directories stay, and the count is right |
| Layers.StoreLeavesOthers | virtualization/layers.py:60-86 | storing a layer leaves other layers and compositions alone, and a stored layer as it is |
| Layers.CleanupKeepsActive | virtualization/layers.py:108-117 | a layer stays, as it is, if and only if it is active |
| Layers.LayersOfRun | virtualization/layers.py:60-117 | after any run a layer is there if and only if it was put and every clean-up since found it active |
| Layers.OverlayIsLastWins | virtualization/layers.py:98-105 | a path is composed iff some listed layer holds it, with the content of the last that does |
| Layers.JoinIsInjective | virtualization/layers.py:90-92 | the name of a composed directory determines the list of layers |
| Layers.CompositionIsOverlay | virtualization/layers.py:88-117 | after any run, memoised or not and with sources cleaned up, the directory is the overlay of the layers there at its first composition, and that is the plain overlay of all listed layers if and only if the absent ones are not missed: where one of them is the last to hold a path, the last present one to hold it holds the same bytes |
| Layers.PartialOverlayExactly | virtualization/layers.py:98-105 | composing only some layers gives the overlay of all if and only if, wherever a layer left out is the last to hold a path, the last of the others to hold it holds the same bytes |
| Layers.ComposedTooEarly | virtualization/layers.py:94-105 | a list composed before its layer is stored stays empty for ever, which is right if and only if the archive has no files |
| Layers.MemoIsFinal | virtualization/layers.py:94-95 | a composed directory never changes again |
| Layers.FailedStoreIsTakenForDone | virtualization/layers.py:66-86 | an archive that fails to unpack raises once; the next store of it succeeds |
| Mount.VirtualMount.MountPackage | virtualization/mount.py:24-33 | a mounted package stays put; a new one goes in front unless its directory is on the path |
| Mount.VirtualMount.Unmount | virtualization/mount.py:35-43 | the entry, the first occurrence of its directory and the package's modules go |
| Mount.VirtualMount.UnmountAll | virtualization/mount.py:51-53 | the loop unmounts every package of a snapshot of the names |
| Mount.UnmountTakesModules | virtualization/mount.py:41-43 | exactly the package and its dotted submodules leave `sys.modules`, mounted or not |
| Mount.OnlyDotsCount | virtualization/mount.py:41 | a longer name goes with the package if and only if a dot follows: "numpy.linalg", not "numpy_x" |
| Mount.FirstGoes | virtualization/mount.py:38-39 | of a directory listed more than once, the first occurrence goes |
| Mount.PathIsMountsThenOriginal | virtualization/mount.py:24-43 | if new packages have directories of their own, the path is always the live mounts newest first, then the original |
| Mount.UnmountAllRestores | virtualization/mount.py:51-53 | then `unmount_all` restores the original path exactly |
| Mount.UndoExactly | virtualization/mount.py:24-39 | unmount undoes mount if and only if the directory was not on the path before |

## Left out

- KeywordArgs.KeywordArgsRoundTrip: arguments whose tag, directly or through nested encoded dicts, is ndarray or tensor, or pickle with a class of an allowed module, are left open (`LeavesModel`), since those branches hand the data to numpy, torch and pickle.
- Serialization.Decode: ends in `Open` for the ndarray and tensor tags, for pickles of allowed classes, for base64 text not in canonical form, and for ill-typed "values", "real" and "imag" entries; no encoding of the modelled values leads there. Python's equalities between 1, 1.0 and True are not modelled.
- Fetcher.PlanChunks: requires a positive chunk size, because with zero the loop of the source never ends.
- Fetcher: a request that raises ends the download with its exception; only runs without one are modelled. Reading the two headers is an input.
- RpcSystem: `close()` is one event; closing a socket that raises, and the stopped event loop, under which old waiting calls can only time out, are not modelled. A send on a connection that was closed raises at once; the model lets such a call wait and time out, and it is never settled either way. Two first calls racing in `_connect`, so that two receive loops share one socket, are not modelled; a connection is one pair of channels. A server message that parses to no known type is skipped, which only `Rpc.PendingCalls.OnMessage` covers.
- Rpc: the rendering of a method that is no string, the traceback, the duration, and what the daemon's handlers find on disk are inputs. `sync.trigger` returns what the synchroniser gives it, which is not part of this model.
- BuildWorker: a worker cancelled in its sleep, or stopped, has no further turns. Nothing puts the job of a cancelled build back in the queue, in the source either.
- Authentication, `hub.disconnect` when a handler ends, and the hub's 90-second cut-off: a lost connection is an event that can happen at any time.
- RateLimiter: `_client_key` and the case of no request at all, which is always accepted.
- Cache: metadata files, the index file on disk, statistics and `clear`; a wheel path that became a directory, or a layer path that became a file. Keys are structured, so colons in package names or versions cannot make two of them equal.
- Streaming: bytes chunks, which JSON cannot carry; indices that are no integers; `wait` and its timeout.
- CacheRuns.SizeBound: bounds what the index counts. Orphaned files (`StoreKeepsFaithfulExactly`) are on disk beyond that bound.
- Layers: the content a layer id stands for is what unpacking its archive leaves, also when unpacking fails half-way. Hash truncation to 16 digits counts as injective; a path that is a file in one layer and a directory in another.
- Mount: the directory is an input, since `compose_layers` is the subject of `Layers.dfy`.
- Fallback: cancelled calls, which record nothing; jitter and clock resolution.
- Protocol: `make_log` and `make_progress` (one more constructor call each, the latter with float rounding), and the JSON and msgpack texts themselves.
- The container pool (`executor/container.py`), the scheduler, the model router, the resolver and the service classes: decision lists and single-table updates.
- Real input and output: sockets, HTTP, Docker, compilers, pip, tar.
