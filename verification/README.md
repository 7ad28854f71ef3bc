# SolarDrive: a verified model

SolarDrive is a self-hosted file drive: a C++ server with its own epoll network layer, an
HTTP/1.1 parser, a content-addressed chunk store on disk, PostgreSQL tables for files,
contents, folders and shares, and Redis for multipart sessions, hash hints and rate
limiting. This project models the parts of the server whose behaviour spans many calls and
proves what they promise over whole runs.

Check it with `dafny verify dfyconfig.toml` (Dafny 4.11).

## How the model is built

Each component has a specification module of step functions on values, one or more modules
of lemmas about runs of those steps, and a module with a class whose methods update fields
as the C++ methods do. Every method of a class is proved to make exactly the specified
step, so the lemmas about runs apply to it.

| component | steps | lemmas | class |
|---|---|---|---|
| chunk store | `ObjectStore` | `ObjectStore` | `ObjectStore.Store` |
| tables and handlers | `Tables`, `DriveSpec` | `DriveInvariant`, `DriveRefinement`, `DriveMultipart`, `DriveGc`, `DriveShares`, `DriveFolders`, `UniqueName` | `SolarDrive.Server` |
| request parser | `HttpSpec` | `HttpRoundTrip`, `Decimal` | `HttpParser.RequestParser` |
| byte buffer | (a plain byte sequence) | | `Buffer.Buffer` |
| TCP connection | `ConnectionSpec` | `ConnectionProofs`, `ConnectionConservation`, `ConnectionShutdown` | `TcpConnection.Connection`, `TcpConnection.Channel` |
| timer queue | `TimerSpec` | `TimerProofs` | `TimerQueue.TimerQueue` |
| rate limiter | `RateLimiterSpec` | `RateLimiterSpec` | `RateLimiter.RateLimiter`, `RateLimiter.RedisClient`, `RateLimiter.Redis` |
| WebSocket frames | `WebSocketSpec` | `WebSocketSpec` | `WebSocket.WsFrame` |
| base64url | `Base64Url` | `Base64Url` | (methods in `Base64Url`) |

Assumptions. SHA-256 is a parameter `sha` about which only `Common.CollisionFree` is
assumed: no collisions, and digests of at least four characters. Disk writes and removals
succeed. A handler call is one atomic step. The environment chooses everything else: the
order of calls, how much a `write` accepts, which event mask arrives, what callbacks do,
whether Redis drops a key, answers or is there at all.

What the drive part says. `DriveRefinement.RunRefines` is the centre: a server with chunks,
deduplication, hints, sessions, tombstones and garbage collection answers every request as
a plain table from file to bytes would, on every run. The other drive modules add what the
plain table cannot say: which chunks are on disk, what shares may still do, where folders
and files hang.

## Where the code differs from what one would expect

The model keeps the code as it is. For each of these cases there is a lemma that says exactly
when the code does what one would expect, and a lemma with an input or a run on which it does
not.

- Header values. The parser skips blanks before a value and then takes the next character
  whatever it is. A field is stored as written if and only if its value is not empty and does
  not start with a blank (`HttpRoundTrip.FieldReadBack`); otherwise the stored value is the
  rest after the blanks, or a carriage return if nothing is left
  (`HttpRoundTrip.EmptyValueMisread`).
- Body length. It is taken only from a field spelled `Content-Length`, although section 5.1 of
  RFC 9110 makes field names case-insensitive. A request is read as written if and only if its
  values are plain and the length read is that of its body (`HttpRoundTrip.OneRequest`). With
  `content-length` the body is taken for the start of the next request
  (`HttpRoundTrip.UnannouncedBody`, `HttpRoundTrip.LowerCaseLengthIgnored`).
- `base64url_decode` turns `-` and `_` back into `+` and `/` but looks characters up in the
  URL-safe table, so it refuses exactly the encodings that contain one of them
  (`Base64Url.RoundTrip`, `Base64Url.RefusedEncodings`), such as that of the byte 0xFB
  (`Base64Url.OneByteRefused`). The encoder is right (`Base64Url.EncodingFaithful`).
- Timers canceled in callbacks. A timer keeps one owner if and only if no callback cancels a
  timer of the running batch that is not re-inserted, or one not yet added
  (`TimerProofs.StepOwnedIff`). A repeating timer that cancels itself is deleted twice
  (`TimerProofs.DeletedTwice`); a timer canceled before it is added is inserted after its
  deletion (`TimerProofs.LateAddInsertsDeleted`).
- Chunks outside any row. A single upload whose row insert is rejected leaves its chunks on
  disk, and so does a part of an open session (`DriveGc.StepExact` says exactly which steps
  do, `DriveGc.UnlistedChunk` is such a run).
- Folders. A multipart upload can complete into a folder deleted meanwhile, and nothing else
  puts a live file there (`DriveFolders.StepPlaced`, `DriveFolders.LiveFileInDeletedFolder`).
- Part count. It is computed in 64 bits and stored in an `int`. A completed file is whole if
  and only if the count is below 2^31 (`DriveMultipart.CountCovers`,
  `DriveMultipart.MultipartExact`); with 2^32 + 1 parts one part makes the file
  (`DriveMultipart.CutShort`).
- High-water callbacks. `SHUT_WR` leaves no accepted byte unwritten if and only if no
  high-water callback requests a shutdown while the output buffer is still empty
  (`ConnectionShutdown.RunShuts`, `ConnectionShutdown.ShutTooEarly`,
  `ConnectionConservation.HighWaterShutdownTooEarly`). A send made there overtakes the bytes
  of the interrupted send (`ConnectionProofs.HighWaterSendOvertakes`); that order is kept
  without such sends is stated in one direction only (`ConnectionProofs.RunFlows`). The
  repository registers no such callback.
- The sliding window. On every run, with any clocks and any expiry of keys, a verdict is that
  of the complete history if and only if fewer than `limit` additions were made in the window
  or `limit` of them have not been dropped (`RateLimiterSpec.VerdictExact`), and an interval
  stays within the limit if and only if every request that comes when it is full finds `limit`
  undropped additions in its own window (`RateLimiterSpec.WindowHoldsIff`). Dropped additions are those an earlier request of
  the client pruned or found expired (`RateLimiterSpec.LogHolds`). Nothing of the window is
  missing while the clock does not go back and keys expire only with an empty window
  (`RateLimiterSpec.StepAgrees`, `RateLimiterSpec.ColdRunHolds`), and for a clock that goes
  back if nothing between the two window starts was dropped (`RateLimiterSpec.StepBackAgrees`).
  Runs on which the window overflows: the clock goes back
  (`RateLimiterSpec.ClockBackOverflows`), or the Redis clock runs ahead
  (`RateLimiterSpec.FastServerForgets`). Two limiters that produce the same member count it
  once (`RateLimiterSpec.SharedMemberUncounted`).

## Model

| member | source | states |
|---|---|---|
| ObjectStore.ChunkedRoundTrip | src/storage/object_store.cpp:162-194 | data put in chunks and read back by the returned hashes is the data, for every chunk size and whatever was on disk |
| ObjectStore.StoredAddressed | src/storage/object_store.cpp:89-124 | after any puts each file still hashes to its own name, and exactly the put hashes are new |
| ObjectStore.AssembledAgrees | src/storage/object_store.cpp:186-194 | a chunk list reads as the same bytes on any two content-addressed disks that hold it |
| ObjectStore.AssembledAfterRemove | src/storage/object_store.cpp:147-160 | removing chunks a list does not name leaves what the list reads as |
| ObjectStore.Store.constructor | src/storage/object_store.cpp:21-40 | an empty, valid store with a positive chunk size |
| ObjectStore.Store.Put | src/storage/object_store.cpp:89-124 | the data is on disk under its hash and nothing else changes, also when the file already existed |
| ObjectStore.Store.Get | src/storage/object_store.cpp:126-138 | the stored bytes, or the error exactly when the chunk is missing |
| ObjectStore.Store.Remove | src/storage/object_store.cpp:147-160 | tells whether a file was there, and removes only that one |
| ObjectStore.Store.PutChunked | src/storage/object_store.cpp:162-184 | the loop stores the pieces of the data in order and returns their hashes; empty data is one empty chunk |
| ObjectStore.Store.GetChunked | src/storage/object_store.cpp:186-194 | the concatenation of the chunks, or the error of the first missing one |
| Tables.PurgeOrderKeepsReferences | src/metadata/content_gc.cpp:49-64 | after each of the three deletions of a purge every foreign key holds; the purge commits exactly if the row exists and no live file refers to it |
| Tables.TombstonesFirstBreaksReferences | src/metadata/schema.cpp:54-135 | deleting tombstones before shares breaks a foreign key exactly when a share names one of them |
| UniqueName.CandidateInjective | src/metadata/file_dao.cpp:241-256 | the numbered names are pairwise different |
| UniqueName.FreshBelowLimit | src/metadata/file_dao.cpp:234-259 | with fewer than 10000 live names the result is not live and never depends on the clock |
| UniqueName.FreshClashes | src/metadata/file_dao.cpp:234-259 | the result is taken exactly when all 10000 tried names and the clock's name are |
| DriveInvariant.StepInv | src/metadata/schema.cpp:54-135 | every handler keeps foreign keys, unique keys, readable contents with the recorded hash, revoked shares of tombstones and well-shaped sessions |
| DriveInvariant.RunInv | src/metadata/schema.cpp:54-135 | all of that in every reachable state |
| DriveInvariant.RunExists | src/api/route_registry.cpp:36-60 | every sequence of events has a run: no handler is ever called outside what it relies on |
| DriveInvariant.PurgeInv | src/metadata/content_gc.cpp:35-75 | a purge never removes a chunk that a remaining row lists |
| DriveInvariant.UploadInv | src/api/file_upload_ops.cpp:76-164 | a single upload keeps the invariant on each of its branches |
| DriveInvariant.CompleteInv | src/api/multipart_upload_handler.cpp:196-281 | completing a session keeps the invariant although parts may have been collected |
| DriveInvariant.LinkFailsOnlyIfFull | src/metadata/file_dao.cpp:90-117 | linking stored content is rejected exactly when every candidate name is taken |
| DriveInvariant.LinkingSucceeds | src/api/share_handler.cpp:379-424 | saving a usable share, or uploading content already stored, succeeds below 10000 live names |
| DriveInvariant.CompleteAnswer | src/api/multipart_upload_handler.cpp:196-281 | when a complete succeeds, in terms of the state before it: owner, marks, chunks on disk, folder row and a name left |
| DriveRefinement.ReadIsExact | src/api/download_handler.cpp:16-58 | a live file reads as exactly the bytes of the plain table |
| DriveRefinement.PurgeMatches | src/metadata/content_gc.cpp:35-75 | a purge is invisible to the plain table |
| DriveRefinement.UploadRefines | src/api/file_upload_ops.cpp:76-164 | a created file holds the request body, deduplicated or not |
| DriveRefinement.CompleteRefines | src/api/multipart_upload_handler.cpp:196-281 | a completed file holds the joined parts of its session |
| DriveRefinement.SaveRefines | src/api/share_handler.cpp:379-424 | a saved share holds the bytes of the shared file |
| DriveRefinement.DeleteRefines | src/api/file_handler.cpp:42-70 | a delete removes one file of the plain table and no other |
| DriveRefinement.StepRefines | src/api/route_registry.cpp:36-60 | every step of the server is a step of the plain file table with an answer that table allows |
| DriveRefinement.RunRefines | src/api/download_handler.cpp:16-58 | on every run every answer is one of the plain table; downloads return exactly the uploaded bytes |
| DriveMultipart.JoinedSlices | web/app.js:522-525 | the slices a client cuts join to the file |
| DriveMultipart.CountCovers | src/api/multipart_upload_handler.cpp:112-117 | the computed part count covers the file exactly if it fits an `int` |
| DriveMultipart.OpenedOnce | src/api/multipart_upload_handler.cpp:74-131 | an upload id is handed out by at most one event of a run |
| DriveMultipart.SlicingRun | src/api/multipart_upload_handler.cpp:136-191 | whatever others do, and in any order with any repeats, a session holds only right slices |
| DriveMultipart.MultipartExact | src/api/multipart_upload_handler.cpp:196-281 | a successful complete yields exactly the original bytes if and only if the part count fits an `int` |
| DriveMultipart.CutShort | src/api/multipart_upload_handler.cpp:112-117 | a run, for every part size, whose completed file is not the original: 2^32 + 1 parts are counted as one |
| DriveMultipart.CompleteNeedsEveryPart | src/api/multipart_upload_handler.cpp:220-269 | a complete succeeds if and only if session, parts, chunks, folder row and name allow it, judged before the call; the new file then reads as the joined parts, and a failed complete changes nothing |
| DriveMultipart.ResendRepairs | src/api/multipart_upload_handler.cpp:136-191 | sending a part again makes its chunk readable and leaves the other parts as they were |
| DriveGc.PurgeCounts | src/metadata/content_gc.cpp:49-75 | the counters are the numbers of rows and distinct chunk files that disappear, also when a chunk repeats in a row |
| DriveGc.SweepCounts | src/metadata/content_gc.cpp:77-89 | so are the totals of a sweep |
| DriveGc.PurgeExactlyOrphans | src/metadata/content_gc.cpp:35-47 | a row with a live file is never purged and changes nothing; any other is; no other row is touched |
| DriveGc.SweepCollectsAll | src/metadata/content_dao.cpp:95-115 | after a sweep a row remains exactly if it has a live file or was not in the batch |
| DriveGc.StepExact | src/metadata/content_gc.cpp:65-72 | a step from a state without garbage leads to one exactly if it is not an upload whose row is rejected or a part that will be stored, with a chunk no row lists |
| DriveGc.UnlistedChunk | src/api/multipart_upload_handler.cpp:136-191 | a run from the empty server that ends with a chunk on disk no row lists |
| DriveGc.RunExact | src/metadata/content_gc.cpp:35-75 | on runs without those, after every step each row has a live file and the disk holds exactly the listed chunks |
| DriveShares.StepShares | src/api/share_handler.cpp:78-157 | per step: no share is un-revoked, counters only grow and by one per granted counted download, only usable shares are used |
| DriveShares.DeadStaysDead | src/metadata/share_dao.cpp:110-140 | a revoked or removed share is never used again in the run |
| DriveShares.RevokedNeverUsed | src/api/share_handler.cpp:283-315 | after its owner revokes it, no download and no save goes through a share |
| DriveShares.DeletedNeverShared | src/api/file_handler.cpp:55-64 | after a file is deleted no share ever made of it is used |
| DriveShares.LimitHolds | src/api/share_handler.cpp:131-154 | the granted counted downloads of a limited share never exceed its limit, and lie below the recorded count while its row exists |
| DriveFolders.ReachesRoot | src/metadata/folder_dao.cpp:141-159 | from every live folder a finite path of live folders of one owner leads to the root |
| DriveFolders.SiblingsDiffer | src/metadata/folder_dao.cpp:108-131 | live siblings have different names |
| DriveFolders.StepTree | src/api/folder_handler.cpp:53-176 | creating, deleting and renaming folders keep the tree |
| DriveFolders.RunTree | src/api/folder_handler.cpp:53-176 | the tree holds in every reachable state |
| DriveFolders.StepPlaced | src/api/multipart_upload_handler.cpp:230-269 | a step keeps files in live folders except exactly when a complete that can succeed names a folder deleted meanwhile |
| DriveFolders.LiveFileInDeletedFolder | src/api/multipart_upload_handler.cpp:230-269 | a run from the empty server that ends with a live file in a deleted folder |
| DriveFolders.RunPlaced | src/api/file_upload_ops.cpp:93-98 | without such a completion every live file of every reachable state is in a live folder of its owner |
| SolarDrive.Server.constructor | src/main.cpp:330 | an empty drive satisfies the invariant |
| SolarDrive.Server.MakeUniqueName | src/metadata/file_dao.cpp:234-259 | the loop returns the specified fresh name |
| SolarDrive.Server.LinkExisting | src/api/file_upload_ops.cpp:58-74 | one new entry, or no change when the insert is rejected |
| SolarDrive.Server.InsertFresh | src/metadata/file_dao.cpp:62-88 | content row and entry together, or neither |
| SolarDrive.Server.PurgeContent | src/metadata/content_gc.cpp:35-75 | the deletions and the unlink loop make exactly the specified purge, counters included |
| SolarDrive.Server.RemoveUnused | src/metadata/content_gc.cpp:65-73 | unlinks exactly the listed chunks no remaining row uses and counts each once |
| SolarDrive.Server.CollectOrphans | src/metadata/content_gc.cpp:77-89 | purges the batch in order and adds up the counters |
| SolarDrive.Server.HandleUpload | src/api/route_registry.cpp:36-50 | an upload request keeps the invariant and makes the specified step |
| SolarDrive.Server.HandleSingleUpload | src/api/file_upload_ops.cpp:76-164 | size and folder checks, the hint re-checked against the tables, dedup link or new content, on every branch as specified |
| SolarDrive.Server.OpenSession | src/api/multipart_upload_handler.cpp:74-131 | checks, part count and a session with no part received |
| SolarDrive.Server.HandlePart | src/api/multipart_upload_handler.cpp:136-191 | checks in order, then the chunk stored and the part marked with its hash |
| SolarDrive.Server.Progress | src/api/multipart_upload_handler.cpp:21-40 | the loop counts the received parts; percentage and byte count follow from it |
| SolarDrive.ProgressMeaning | src/api/multipart_upload_handler.cpp:21-40 | the percentage is 100 exactly when every part has arrived, and the byte count is then the file size |
| SolarDrive.Server.CompleteSession | src/api/multipart_upload_handler.cpp:196-281 | all parts present, every chunk read, then link or insert, hint and session removal as specified |
| SolarDrive.Server.HandleAbort | src/api/multipart_upload_handler.cpp:339-368 | removes the session of its owner and nothing else |
| SolarDrive.Server.HandleDownload | src/api/download_handler.cpp:16-58 | the assembled content of an owned live file, or the error |
| SolarDrive.Server.HandleDelete | src/api/file_handler.cpp:42-70 | soft delete, revocation and collection in this order |
| SolarDrive.Server.GenerateToken | src/api/share_handler.cpp:62-75 | the first unused of at most ten draws |
| SolarDrive.Server.HandleCreateShare | src/api/share_handler.cpp:161-248 | a share with an unused token and a zero counter on an owned live file |
| SolarDrive.Server.HandleRevoke | src/api/share_handler.cpp:283-315 | only the owner revokes, and only that share |
| SolarDrive.Server.ResolveShare | src/api/share_handler.cpp:78-157 | each error in order; on success the share, with its counter increased if counted |
| SolarDrive.Server.HandleShareDownload | src/api/share_handler.cpp:319-374 | the file of a resolved share, counted before it is read |
| SolarDrive.Server.HandleSave | src/api/share_handler.cpp:379-424 | a new entry in the user's root for the shared content |
| SolarDrive.Server.HandleCreateFolder | src/api/folder_handler.cpp:53-102 | a folder under an allowed parent unless the name is taken |
| SolarDrive.Server.HandleDeleteFolder | src/api/folder_handler.cpp:104-134 | only an empty owned folder is deleted |
| SolarDrive.Server.HandleRenameFolder | src/api/folder_handler.cpp:136-176 | renames unless a sibling has the name |
| Decimal.ValueOfPrint | src/http/http_parser.cpp:239-252 | reading back a printed number gives the number |
| Decimal.StoullOfPrint | src/http/http_parser.cpp:239-252 | also through the length conversion, below 2^64 |
| HttpRoundTrip.FeedAppend | src/http/http_parser.cpp:40-52 | feeding two buffers is feeding their concatenation, callbacks and exceptions included |
| HttpRoundTrip.CutAnywhere | src/http/http_parser.cpp:40-52 | where the input is cut does not matter |
| HttpRoundTrip.HeadParsed | src/http/http_parser.cpp:72-252 | what request line and headers lead to, for every header value and every length read |
| HttpRoundTrip.FieldReadBack | src/http/http_parser.cpp:160-223 | for every value: a field line is stored as written if and only if its value is not empty and does not start with a blank, and never fires, throws or derails the parser |
| HttpRoundTrip.OneReading | src/http/http_parser.cpp:72-258 | for every header value: a request comes out alone, with the values as stored, if and only if the length read is that of its body |
| HttpRoundTrip.OneRequest | src/http/http_parser.cpp:72-258 | a well-formed request comes out exactly as written and leaves a fresh parser if and only if its header values are plain and the length read is that of its body |
| HttpRoundTrip.PipelinedRoundTrip | src/http/http_parser.cpp:40-258 | pipelined requests cut anywhere fire once each, in order, as read, and the parser ends where it began; they fire as written if and only if all their header values are plain |
| HttpRoundTrip.PrintedLengthMatches | src/http/http_parser.cpp:239-252 | a printed body length is right for every body below 2^64 |
| HttpRoundTrip.EmptyValueMisread | src/http/http_parser.cpp:195-203 | a field whose line ends after the colon is stored as a carriage return |
| HttpRoundTrip.UnannouncedBody | src/http/http_parser.cpp:239-252 | without a field spelled `Content-Length` the head fires alone and the body is read as what follows |
| HttpRoundTrip.LowerCaseLengthIgnored | src/http/http_parser.cpp:239-252 | a request with `content-length` and a body: the body becomes the start of the next request |
| HttpParser.RequestParser.Reset | src/http/http_parser.cpp:54-70 | the parser is as new |
| HttpParser.RequestParser.TransitionToBody | src/http/http_parser.cpp:239-252 | completes a request without body, waits for the announced bytes, or throws |
| HttpParser.RequestParser.ParseChar | src/http/http_parser.cpp:72-237 | one character makes exactly the specified transition in every state |
| HttpParser.RequestParser.FeedBuffer | src/http/http_parser.cpp:40-52 | the loop fires the specified requests and leaves the specified state |
| Buffer.Buffer.constructor | src/network/buffer.h:26-29 | an empty queue with eight reserved bytes in front |
| Buffer.Buffer.Swap | src/network/buffer.h:31-35 | exchanges the contents |
| Buffer.Buffer.Retrieve | src/network/buffer.h:51-58 | drops bytes at the front; taking all resets the indices |
| Buffer.Buffer.RetrieveAsString | src/network/buffer.h:65-70 | returns and drops the front bytes |
| Buffer.Buffer.EnsureWritable | src/network/buffer.h:96-101 | room for the bytes, contents unchanged |
| Buffer.Buffer.Append | src/network/buffer.h:103-107 | appends at the back of the queue |
| Buffer.Buffer.AppendBuffer | src/network/buffer.h:113-115 | appends another buffer's contents and leaves that buffer alone |
| Buffer.Buffer.Unwrite | src/network/buffer.h:122-125 | takes bytes back from the end |
| Buffer.Buffer.Prepend | src/network/buffer.h:129-133 | extends the queue at the front |
| Buffer.Buffer.ReadFromFd | src/network/buffer.h:154-181 | everything `readv` delivered is appended in order, through the spill area or not |
| Buffer.Buffer.MoveLeft | src/network/buffer.h:196-205 | the overlapping copy, reached only with the read index above eight, loses nothing |
| Buffer.Buffer.MakeSpace | src/network/buffer.h:192-206 | always yields the wanted room and keeps the contents |
| Buffer.Buffer.Shrink | src/network/buffer.h:145-151 | a new array of exactly the needed size with the same contents |
| ConnectionProofs.RunAges | src/network/tcp_connection.cpp:121-252 | the state only moves forward, and the up, down and close callbacks fire at most once each, on every sequence of masks and re-entrant calls |
| ConnectionProofs.RunFlows | src/network/tcp_connection.cpp:197-313 | accepted bytes are written bytes followed by the output buffer, in order; EPOLLOUT is armed exactly if the buffer is non-empty; `SHUT_WR` only after everything is written |
| ConnectionProofs.RunDrains | src/network/tcp_connection.cpp:303-313 | a draining connection with nothing left to write has sent `SHUT_WR` |
| ConnectionProofs.HighWaterSendOvertakes | src/network/tcp_connection.cpp:282-296 | a send from a high-water callback overtakes the bytes of the interrupted send |
| ConnectionConservation.RunConserves | src/network/tcp_connection.cpp:197-313 | with any callbacks at all: no accepted byte is lost or written twice, and EPOLLOUT is armed exactly if the buffer is non-empty |
| ConnectionConservation.HighWaterShutdownTooEarly | src/network/tcp_connection.cpp:282-313 | a shutdown from a high-water callback sends `SHUT_WR` before the rest is written |
| ConnectionShutdown.StepShuts | src/network/tcp_connection.cpp:254-313 | an event keeps every `SHUT_WR` after all accepted bytes if and only if no shutdown in it runs inside a high-water callback with an empty buffer |
| ConnectionShutdown.RunShuts | src/network/tcp_connection.cpp:254-313 | the same on every run, with any callbacks at any depth |
| ConnectionShutdown.ShutTooEarly | src/network/tcp_connection.cpp:282-313 | a run whose `SHUT_WR` comes before the only accepted byte is written |
| ConnectionProofs.CloseIs | src/network/tcp_connection.cpp:230-247 | a close has one outcome whatever its callbacks do |
| TcpConnection.Channel.DisableAll | src/network/channel.cpp:76-79 | no interest is left |
| TcpConnection.Connection.Shutdown | src/network/tcp_connection.cpp:121-128 | from connected to draining, with `SHUT_WR` if nothing is queued |
| TcpConnection.Connection.ForceClose | src/network/tcp_connection.cpp:130-139 | closes at once on the loop thread |
| TcpConnection.Connection.HandleClose | src/network/tcp_connection.cpp:230-247 | interest off, then the down and the close callback, at most once |
| TcpConnection.Connection.SendInLoop | src/network/tcp_connection.cpp:254-297 | write what the socket takes, queue the rest and arm EPOLLOUT, callbacks re-entering at any depth |
| TcpConnection.Connection.HandleWrite | src/network/tcp_connection.cpp:197-228 | writes from the buffer; when empty disarms EPOLLOUT, completes, and finishes a shutdown |
| TcpConnection.Connection.HandleRead | src/network/tcp_connection.cpp:178-195 | bytes, end of stream, retry and error as specified |
| TcpConnection.Connection.ConnectionEstablished | src/network/tcp_connection.cpp:147-162 | connecting becomes connected once |
| TcpConnection.Connection.ConnectionDestroyed | src/network/tcp_connection.cpp:164-176 | interest off without callbacks |
| TcpConnection.Connection.HandleEvent | src/network/channel.cpp:27-59 | error, hang-up without input, input, output, in this order |
| TimerProofs.ExpiredExactly | src/network/timer_queue.cpp:203-215 | exactly the timers due are taken, in order, and only later ones stay |
| TimerProofs.StepIdle | src/network/timer_queue.cpp:109-201 | after every event the descriptor is armed for the earliest pending timer |
| TimerProofs.RunIdle | src/network/timer_queue.cpp:109-201 | the same in every reachable state |
| TimerProofs.StepOwnedIff | src/network/timer_queue.cpp:121-192 | a step keeps each timer under exactly one owner if and only if no callback cancels a timer of the running batch that is not re-inserted, or one not yet added |
| TimerProofs.DeletedTwice | src/network/timer_queue.cpp:121-144 | a run in which a repeating timer cancels itself in its callback and is deleted twice |
| TimerProofs.RunOwned | src/network/timer_queue.cpp:121-192 | on runs without such a cancel each timer is deleted at most once and has one owner until then |
| TimerProofs.DestroyFreesAll | src/network/timer_queue.cpp:60-80 | the destructor leaves each timer deleted exactly once, except those never added |
| TimerProofs.CanceledBetweenEvents | src/network/timer_queue.cpp:162-192 | once a cancel between events is processed its timer never starts again in the run |
| TimerProofs.CanceledInCallback | src/network/timer_queue.cpp:121-144 | once a callback of the batch has canceled a timer already added, it never starts again, in this batch or later |
| TimerProofs.LateAddInsertsDeleted | src/network/timer_queue.cpp:151-179 | a cancel from a callback of a timer not yet added ends with a deleted timer in the set |
| TimerQueue.TimerQueue.Insert | src/network/timer_queue.cpp:194-201 | ordered insertion, re-arming only for a new earliest timer |
| TimerQueue.TimerQueue.AddTimerInLoop | src/network/timer_queue.cpp:151-160 | deletes a timer canceled before it was added, inserts any other |
| TimerQueue.TimerQueue.CancelInLoop | src/network/timer_queue.cpp:162-192 | the four cases of a cancel |
| TimerQueue.TimerQueue.GetExpired | src/network/timer_queue.cpp:203-215 | the loop takes exactly the due timers off the front |
| TimerQueue.TimerQueue.RunExpired | src/network/timer_queue.cpp:122-133 | run unless canceled, then restart or delete |
| TimerQueue.TimerQueue.DeleteCanceled | src/network/timer_queue.cpp:137-144 | in any order of visiting, the canceled entries leave the set and each is deleted |
| TimerQueue.TimerQueue.HandleRead | src/network/timer_queue.cpp:109-149 | one expiry makes exactly the specified step |
| TimerQueue.TimerQueue.Destroy | src/network/timer_queue.cpp:60-80 | deletes what the set and both cancel lists hold |
| RateLimiterSpec.MemberInjective | src/cache/rate_limiter.cpp:73-75 | members of one limiter never collide |
| RateLimiterSpec.Verdict | src/cache/redis_client.cpp:164-172 | one request with any clocks: a request the history would let through is let through, and the verdict is right exactly if not too much is missing |
| RateLimiterSpec.ExpiryVerdict | src/cache/redis_client.cpp:164-172 | with a log that holds its window, an expired key changes the verdict exactly when the window is full |
| RateLimiterSpec.StepAgrees | src/cache/redis_client.cpp:164-172 | while the clock does not go back, all logs keep their windows if and only if the request does not find a key expired that had an addition in the window |
| RateLimiterSpec.StepBackAgrees | src/cache/redis_client.cpp:164-172 | when the clock goes back, they do if and only if no addition between the new and the old start of the window was dropped |
| RateLimiterSpec.LogHolds | src/cache/redis_client.cpp:164-172 | on every run a log holds exactly those additions that no later request of the client pruned or found expired |
| RateLimiterSpec.VerdictExact | src/cache/redis_client.cpp:155-191 | on every run a request is let through if and only if fewer than `limit` additions of its window are left undropped; that is the verdict of the complete history if and only if fewer than `limit` were made or `limit` are left |
| RateLimiterSpec.WindowHolds | src/cache/redis_client.cpp:155-191 | on every run whose scripts find all of their windows, every half-open interval of one window holds at most `limit` accepted requests of a client, and at most as many granted ones |
| RateLimiterSpec.WindowHoldsIff | src/cache/redis_client.cpp:155-191 | on every run an interval stays within the limit if and only if every request that comes when it is full finds `limit` undropped additions |
| RateLimiterSpec.ColdRunHolds | src/cache/redis_client.cpp:155-191 | with a clock that does not go back and keys that expire only with an empty window, verdicts are exact and no window overflows |
| RateLimiterSpec.SteadyRunIsCold | src/cache/redis_client.cpp:164-172 | Redis keeping its deadlines with a clock that does not gain on the limiter's is enough for that |
| RateLimiterSpec.ClockBackOverflows | src/cache/redis_client.cpp:164-172 | a run whose clock goes back and whose window holds more than the limit |
| RateLimiterSpec.FastServerForgets | src/cache/redis_client.cpp:164-172 | a run whose Redis clock runs ahead, drops the key at its deadline and lets the window overflow |
| RateLimiterSpec.SharedMemberUncounted | src/cache/redis_client.cpp:164-172 | a repeated member is accepted but not counted |
| RateLimiter.RedisClient.Eval | src/cache/redis_client.cpp:164-172 | the four commands of the script, one after the other, make the specified change to one key |
| RateLimiter.RedisClient.SlidingWindowAllow | src/cache/redis_client.cpp:155-191 | lets through without Redis or with an empty or non-positive argument, refuses without an integer reply, else decides by the script |
| RateLimiter.RateLimiter.Allow | src/cache/rate_limiter.cpp:65-80 | lets through unchecked, or makes exactly the step the window bound is about |
| WebSocketSpec.DecodeWire | src/ws/websocket.cpp:13-62 | every wire form of a frame, in each length class, masked or not, decodes to it and is consumed exactly, whatever follows |
| WebSocketSpec.EncodedDecodes | src/ws/websocket.cpp:67-97 | what the encoder writes decodes to the same frame |
| WebSocketSpec.PrefixIncomplete | src/ws/websocket.cpp:13-48 | a frame cut anywhere reads as incomplete |
| WebSocketSpec.DecodedIsWire | src/ws/websocket.cpp:13-62 | the decoder accepts nothing but wire forms |
| WebSocketSpec.StreamDecodes | src/ws/websocket.cpp:13-62 | a stream of frames and a cut-off one decode to the same list and leave the cut-off part |
| WebSocketSpec.MaskTwice | src/ws/websocket.cpp:54-59 | masking twice with any key gives the payload back |
| WebSocket.WsFrame.Unmask | src/ws/websocket.cpp:54-59 | the loop unmasks the payload in place |
| WebSocket.DecodeFrame | src/ws/websocket.cpp:13-62 | fills the frame as specified, returns 0 exactly while it is incomplete and keeps the payload then, and reports exactly the declared lengths whose sum with the header wraps around |
| WebSocket.PushLength | src/ws/websocket.cpp:86-91 | the loop pushes a length highest byte first |
| WebSocket.EncodeFrame | src/ws/websocket.cpp:67-97 | the pushed bytes are the specified wire form |
| Base64Url.RoundTrip | src/auth/jwt.cpp:32-106 | decoding an encoding gives the bytes if no 6-bit group is 62 or 63, and is refused otherwise |
| Base64Url.RefusedEncodings | src/auth/jwt.cpp:63-106 | exactly the encodings with a `-` or `_` are refused |
| Base64Url.OneByteRefused | src/auth/jwt.cpp:63-106 | the encoding of the byte 0xFB is `-w` and is refused |
| Base64Url.EncodingFaithful | src/auth/jwt.cpp:32-61 | read with its own alphabet every encoding gives its bytes back |
| Base64Url.Encode | src/auth/jwt.cpp:32-61 | the loops write the URL-safe text of the 6-bit groups without padding |
| Base64Url.Decode | src/auth/jwt.cpp:63-106 | the loops compute the specified decoding, refusals included |
| Base64Url.BuildTable | src/auth/jwt.cpp:75-78 | the filled table is the inverse of the URL-safe alphabet |

## Left out

- Users, tokens, passwords of accounts, quotas, JWT signatures: thin wrappers or fields that are never enforced. An owner is a number the caller supplies.
- Listing, status and preview handlers, metrics, the web pages, routing and static files: they only read, or match with `std::regex`.
- JSON, YAML and text encodings of requests and answers: structured values are used instead.
- UUIDs: keys come from one counter, so they never collide.
- Redis copies of shares and file hashes beyond the hint: the hint is modelled as a map that may be stale, and it is always re-checked.
- Lifetime of sessions in Redis: a session may vanish at any moment, as an event of its own.
- Threads: handlers are atomic, and the network classes run on their loop thread; wake-ups, atomics and the load and store of `force_close` from another thread are not modelled.
- The recorded size: a multipart row stores the size the client announced; nothing is claimed about it.
- SolarDrive.Server.OpenSession: the sum of size and part size is unbounded here; in the code it is a signed 64-bit sum whose overflow is undefined.
- SolarDrive.Server.Progress: the product of count and 100 is unbounded here; in the code it is a signed 32-bit product whose overflow is undefined.
- SolarDrive.Server.HandleCreateShare: the expiry time and the copy of the share in Redis are not recorded, because only whether a share has expired is modelled.
- SolarDrive.Server.ResolveShare: whether the share has expired is an input, and the download counter is that of the table, not the copy cached in Redis.
- SolarDrive.Server.HandleShareDownload: the redirect of a browser to the share page and the places a password is taken from are not modelled; the password is a parameter.
- TcpConnection.Connection.HandleRead: only that bytes arrived and which callbacks ran is modelled, not the bytes put into the input buffer.
- TcpConnection.Connection.ConnectionDestroyed: removing the channel from its loop and clearing the socket and the context are not modelled.
- `peek_int32`, `read_int32`, `prepend_int32`: byte order conversion over the modelled operations.
- TimerQueue.TimerQueue.CancelInLoop: timer addresses are never reused here, so the check of the sequence number, which tells timers at one address apart, is not modelled.
- The interval of the timer descriptor: only the time it is armed for is recorded.
- `std::isspace` on characters above 127: taken as false.
- ConnectionProofs.RunFlows: the order of bytes is stated for runs whose high-water callbacks neither send nor start a shutdown; `ConnectionProofs.HighWaterSendOvertakes` shows why. Without the condition `ConnectionConservation.RunConserves` holds, and `ConnectionShutdown.RunShuts` says exactly when `SHUT_WR` comes too early.
- RateLimiterSpec.WindowHolds: requests let through without Redis are not counted, and the 64-bit request number is unbounded. The bound without its condition is false; `RateLimiterSpec.WindowHoldsIff` is exact.
- WebSocket.DecodeFrame: what the copy of the payload does when the declared length wraps around is not defined by the language; that case is told apart and nothing is said about it.
- X-Forwarded-For: which address identifies a client is not part of this model.
