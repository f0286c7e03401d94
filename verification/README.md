# A model of the blind file-transfer server

The server relays encrypted files between registered users without being able to read them. A
client encrypts a file, cuts the cipher into chunks and sends it over a framed TLS connection; the
server reassembles it, writes it to disk crash-safely, files a record, and later hands the bytes
out to the sender and the recipient only. Every security-relevant act goes to a hash-chained log.

This project models those parts in Dafny and proves what holds of them for all inputs, all
interleavings and all runs. `dafny verify dfyconfig.toml` checks everything.

| modules | what they hold |
|---|---|
| `Bytes`, `Framing`, `Protocol` | big-endian numbers, frames, the receive buffer, the payload codecs |
| `Client`, `Server`, `ServerRuns`, `EndToEnd` | the client's chunk loop, the connection loop, their runs, and the two joined by the wire |
| `WireLaws` | every payload byte by byte, and what the server answers to each frame, in plain terms |
| `Transfers`, `TransferServices`, `TransferLaws` | uploads and downloads as transitions, the file repository and the service that refine them, when they succeed and what they leave |
| `Storage`, `CrashSafety`, `UploadSteps` | staged writes over a file system with a volatile and a durable side, crashes between any two steps, and the link between the two |
| `AuditText`, `AuditLog`, `AuditRuns`, `AuditLaws` | the log's printer and parser, the chain, histories with reopenings, and the format it promises |
| `Accounts`, `Repositories`, `Services`, `AccountLaws` | accounts, sessions and administration as a state machine, the classes that refine it, and who may do what, in plain terms |
| `Sha256`, `Sha256Laws`, `Sha256Example` | the vendored hash against FIPS 180-4, its functions bit by bit, its constants from primes, and the published one-block answer |

The layout repeats: transitions and their laws over values, then classes that do what the source
does step by step, each method proved to perform one transition. Time, generated ids, drawn
tokens, password hashes, faults of the operating system and reads from the socket are parameters.

## What was found

Some promises hold only under a condition; each is stated as an if-and-only-if or with the run
that breaks it, and the code is modelled as it is.

- `verify()` reads fields still escaped and escapes them again, so a log stays verifiable exactly
  as long as no recorded field needs escaping (`AuditRuns.VerifiedIffAllPlain`,
  `AuditRuns.QuoteBreaksTheLog`).
- A blank line at the end of the log makes the constructor start again from GENESIS, and the next
  record breaks the chain (`AuditRuns.ReopenRecoversIff`, `AuditRuns.BlankBreaksTheLog`).
- `fsyncDir` ignores every failure although the comment in `stagedWrite` calls the data durable;
  then a record can outlive its blob (`CrashSafety.FlushDecides`,
  `CrashSafety.FailedFlushLosesBlob`). When it works, no record ever does
  (`CrashSafety.RecordsAlwaysThere`).
- A write to a storage id already in use destroys the earlier file's blob, in the removal before
  the rename, in the rename or in the rollback, so conservation needs fresh ids
  (`Transfers.KeepsIffFresh`).
- Replacing a file passes through a state without it (`Storage.OldPresentThroughoutIff`).
- The lockout relies on a clock that is not set back between two successes of the user
  (`Accounts.LockoutHoldsIff`, `Accounts.ClockSetBackDefeatsLockout`).
- The client commits after a failed DATA and the server compares no length
  (`EndToEnd.EarlyCommitStoresCipherIff`, `EndToEnd.ShortCommitAccepted`).
- A comment promises chunked downloads, the code sends one frame (`EndToEnd.DownloadArrivesIff`).
- The sweep does not look for blobs without a record (`CrashSafety.UnrecordedBlobRemains`), and a
  rollback is not durable (`CrashSafety.AbortLeavesNothing`).

Assumptions the theorems name: fresh storage ids (`Transfers.AllFresh`, `CrashSafety.Enabled`),
fresh session tokens (`Accounts.NotReissued`), log texts made of bytes (`AuditText.ByteText`), a
hash that prints plain text (`AuditRuns.HexLike`, proved of SHA-256). Collision-freedom is never
assumed: where it matters, the lemma returns the two colliding texts.

## Model

| member | source | states |
|---|---|---|
| `EndToEnd.EndToEndUpload` | src/presentation/client_app.cpp:166-191 | For every cipher, every split of the wire into non-empty reads and every server and connection state: the frames received are the frames sent; if INIT is accepted every chunk is, so the reply-watching client sends them all; if COMMIT is accepted the stored blob is the cipher, under a new record from the session's user to the user named as recipient |
| `EndToEnd.UploadServed` | src/presentation/server_app.cpp:133-246 | The server's run over an upload of which the first k chunks are sent: all k are accepted after an accepted INIT, and an accepted COMMIT stores exactly their bytes |
| `EndToEnd.ChunksServed` | src/presentation/server_app.cpp:159-192 | After an accepted INIT the connection holds the client's INIT and the bytes of the chunks sent so far, and nothing else has changed |
| `EndToEnd.EarlyCommitStoresCipherIff` | src/presentation/client_app.cpp:173-190 | The client commits whatever the replies to its chunks were, and the server compares no length: for every pattern of replies, an accepted COMMIT has stored the cipher if and only if no reply but the one to the last chunk was bad or missing |
| `EndToEnd.ClientSends` | src/presentation/client_app.cpp:175-190 | For every pattern of replies the client sends INIT, one chunk more than it has had good replies (as far as there are chunks), and COMMIT |
| `EndToEnd.CutShortStores` | src/presentation/server_app.cpp:193-246 | An upload cut short after k chunks stores, if its COMMIT is accepted, exactly their bytes |
| `EndToEnd.UploadAccepted` | src/presentation/server_app.cpp:133-246 | When session, validator, checks and storage give no reason to refuse, every frame of an upload is accepted, also of one cut short |
| `EndToEnd.ShortCommitAccepted` | src/presentation/client_app.cpp:182-190 | And it happens: for everything sent in more than one chunk there is a server that accepts the COMMIT of a client that got no reply to its first chunk, and stores the first megabyte |
| `EndToEnd.WholeIsCovered` | src/presentation/client_app.cpp:173-184 | The first k chunks hold the whole cipher if and only if k is the number of chunks |
| `EndToEnd.ArrivesIntact` | src/infrastructure/asio_tls_transport.cpp:130-151 | All frames of an upload, INIT to COMMIT, leave the receive buffer unchanged, in order and with nothing behind them lost |
| `EndToEnd.ClientSendsAll` | src/presentation/client_app.cpp:175-190 | A client that gets no bad DATA reply sends the frames of the complete upload |
| `EndToEnd.InitHandled` | src/presentation/server_app.cpp:133-171 | An encoded INIT reaches the server as the client's fields (empty algorithm normalised), opens an empty buffer under its id and touches no stored state |
| `EndToEnd.DataHandled` | src/presentation/server_app.cpp:172-192 | An encoded chunk at the right offset is appended to its buffer and to nothing else |
| `EndToEnd.DataAccepted` | src/presentation/server_app.cpp:172-192 | Every list of chunks that continues an open upload in order is accepted, and the buffer grows by their concatenation |
| `EndToEnd.ChunksInOrder` | src/presentation/client_app.cpp:173-184 | The client's chunks carry contiguous offsets |
| `EndToEnd.ChunksHold` | src/presentation/client_app.cpp:173-184 | The first k chunks concatenate to the first k megabytes of the cipher |
| `EndToEnd.CommitNames` | src/presentation/server_app.cpp:195-216 | The server reads the client's COMMIT body as the upload id, whatever else is pending |
| `EndToEnd.CommitHandled` | src/presentation/server_app.cpp:216-246 | An accepted COMMIT creates one new record, of the session's user, with the buffered bytes behind it |
| `EndToEnd.DeliveredIsDownloaded` | src/application/transfer_service.cpp:112-141 | After the upload, and after any further run of account and transfer operations, a download by sender or recipient with a valid session returns exactly the cipher |
| `EndToEnd.DownloadArrivesIff` | src/presentation/server_app.cpp:253-258 | A download answer, sent as one frame, arrives if and only if the blob has at most 4 MiB - 5 bytes |
| `Framing.Reassembly` | src/infrastructure/asio_tls_transport.cpp:130-151 | Frames sent back to back and split anywhere into non-empty reads come out of repeated `recvFrame` calls unchanged and in order, and exactly the undelivered remainder is kept |
| `Framing.ReceiveOne` | src/infrastructure/asio_tls_transport.cpp:130-151 | One call on any split of one encoded frame and more delivers that frame and keeps the rest |
| `Framing.ReceiveConserves` | src/infrastructure/asio_tls_transport.cpp:130-151 | On any bytes at all, a delivered frame is what was taken off the front of the stream |
| `Framing.ReceiveManyConserves` | src/infrastructure/asio_tls_transport.cpp:130-151 | On any bytes at all, the frames delivered re-encode to the part of the stream consumed |
| `Framing.ReceiveAgreesWithTryDecode` | src/infrastructure/asio_tls_transport.cpp:133-143 | `recvFrame` decides every buffer as `tryDecode` does, with the same frame and the same bytes dropped |
| `Framing.OversizeRefused` | src/infrastructure/asio_tls_transport.cpp:135 | A frame over 4 MiB is never delivered, however it is split |
| `Framing.DeliveredIffFits` | src/infrastructure/asio_tls_transport.cpp:130-151 | A frame gets through if and only if its body has at most 4 MiB - 5 bytes |
| `Framing.DecodeEncode` | include/ports/transport.hpp:27-42 | `tryDecode` after `encodeFrame`, whatever follows, gives the frame and its length |
| `Framing.EncodeDecode` | include/ports/transport.hpp:33-42 | Bytes that `tryDecode` accepts begin with the encoding of the frame it returns |
| `Framing.EncodeFrame` | include/ports/transport.hpp:27-32 | The two-buffer encoder produces length, kind, request id and body |
| `Framing.Receiver.RecvFrame` | src/infrastructure/asio_tls_transport.cpp:130-151 | The buffer loop performs one `Receive` on its buffer and the reads to come |
| `Framing.Receiver.RecvFrames` | src/presentation/server_app.cpp:77-79 | Calls repeated until one fails perform `ReceiveMany` |
| `Bytes.Get32OfBe32` | include/ports/transport.hpp:9-10 | Reading a written 32-bit number gives it back, whatever follows |
| `Bytes.Be32OfGet32` | include/ports/transport.hpp:9-10 | Writing a number read gives back the four bytes |
| `Bytes.Get64OfBe64` | include/ports/transport.hpp:11-12 | The same for 64 bits, reading after writing |
| `Bytes.Be64OfGet64` | include/ports/transport.hpp:11-12 | The same for 64 bits, writing after reading |
| `Bytes.Put32` | include/ports/transport.hpp:9 | The four shifted pushes append the big-endian digits base 256 |
| `Bytes.Put64` | include/ports/transport.hpp:11 | The loop from the top byte down appends the big-endian digits base 256 |
| `Bytes.Load64` | include/ports/transport.hpp:12 | The shifting loop computes the number the eight bytes denote |
| `Protocol.ParseIffPrinted` | src/presentation/protocol.cpp:4-147 | For every list of field layouts: parsing gives these values if and only if they fit their fields and the buffer starts with their printing; trailing bytes are ignored |
| `Protocol.TruncatedRefused` | src/presentation/protocol.cpp:4-147 | For every list of field layouts, each proper prefix of a printing is refused |
| `Protocol.RegisterCodec` | src/presentation/protocol.cpp:4-20 | Register payload: decode after encode is the identity, every truncation is refused |
| `Protocol.PairCodec` | src/presentation/protocol.cpp:21-52 | Login, admin and download-request payloads: decode after encode is the identity, every truncation is refused |
| `Protocol.UploadInitCodec` | src/presentation/protocol.cpp:53-100 | Upload-init payload: decode after encode is the identity except that an empty algorithm becomes the default; every truncation is refused |
| `Protocol.UploadDataCodec` | src/presentation/protocol.cpp:101-128 | Upload-data payload: decode after encode is the identity, every truncation is refused |
| `Protocol.DecodedDataIsEncoded` | src/presentation/protocol.cpp:108-128 | Whatever decodes as a chunk begins with that chunk's encoding |
| `Protocol.Cursor.ReadString` | src/presentation/protocol.cpp:11-20 | The captured offset advances over one length-prefixed field exactly as the parse of the whole payload requires, or the whole payload is refused |
| `Protocol.Cursor.ReadRaw` | src/presentation/protocol.cpp:67-100 | The same for a field of fixed width |
| `Protocol.EncodeRegister` | src/presentation/protocol.cpp:4-10 | The appending encoder prints the three fields |
| `Protocol.DecodeRegister` | src/presentation/protocol.cpp:11-20 | The offset-advancing decoder parses them, or refuses |
| `Protocol.EncodePair` | src/presentation/protocol.cpp:21-26 | The appending encoder of two strings, as in lines 37-42 and 129-134 too |
| `Protocol.DecodePair` | src/presentation/protocol.cpp:27-36 | Its decoder, as in lines 43-52 and 135-147 too |
| `Protocol.EncodeUploadInit` | src/presentation/protocol.cpp:53-66 | The appending encoder prints nine fields |
| `Protocol.DecodeUploadInit` | src/presentation/protocol.cpp:67-100 | The offset-advancing decoder parses them, or refuses |
| `Protocol.EncodeUploadData` | src/presentation/protocol.cpp:101-107 | The appending encoder prints id, offset and chunk |
| `Protocol.DecodeUploadData` | src/presentation/protocol.cpp:108-128 | The offset-advancing decoder parses them, or refuses |
| `Client.ChunksCover` | src/presentation/client_app.cpp:173-184 | The chunks concatenate to the cipher, their offsets are contiguous multiples of one megabyte, and none is empty or longer |
| `Client.DataFrameFits` | src/presentation/client_app.cpp:178-181 | Every DATA frame is within the receiver's limit, with ids far longer than the client's 36 bytes |
| `Client.AllSent` | src/presentation/client_app.cpp:175-184 | With only good replies every chunk is sent |
| `Client.SendChunks` | src/presentation/client_app.cpp:173-184 | The loop sends the chunks in order and stops after the first bad reply |
| `Client.SendUpload` | src/presentation/client_app.cpp:166-190 | INIT, nothing more after a bad reply to it, else chunks and always COMMIT |
| `ServerRuns.ServeMatches` | src/presentation/server_app.cpp:73-277 | After any frames on a new connection: `pendingInit` and `pendingData` have the same keys, those open according to the traffic; each INIT sits under its own id; each buffer is the in-order concatenation of the chunks accepted since the last INIT for its id |
| `ServerRuns.HandleMatches` | src/presentation/server_app.cpp:80-276 | Each single frame, accepted or refused, keeps that agreement with the traffic seen |
| `ServerRuns.ChunkAcceptedIff` | src/presentation/server_app.cpp:174-188 | A chunk is accepted if and only if its upload is open and its offset is the number of bytes accepted so far |
| `ServerRuns.RefusedChangesNothing` | src/presentation/server_app.cpp:133-246 | A refused INIT, DATA or COMMIT leaves the connection and the file records as they were |
| `ServerRuns.DuplicateChunkRefused` | src/presentation/server_app.cpp:181-185 | The same non-empty chunk is refused the second time |
| `ServerRuns.ServeToken` | src/presentation/server_app.cpp:95-119 | The token the server acts under is the one the traffic shows: the last successful AUTH, cleared by a successful LOGOUT of it |
| `ServerRuns.UploadNeedsSession` | src/presentation/server_app.cpp:137-148 | No INIT or COMMIT is accepted without a valid session of an existing, active user |
| `ServerRuns.ServeIsRun` | src/presentation/server_app.cpp:77-277 | Every run of the loop changes the server's state exactly as a run of account and transfer operations |
| `ServerRuns.HandleIsRun` | src/presentation/server_app.cpp:80-276 | One frame performs at most one such operation |
| `ServerRuns.RelayedBytesAreAuthorised` | src/presentation/server_app.cpp:247-268 | On any connection of a server that began without files, after any earlier operations: a DOWNLOAD_DATA reply answers a request for a file uploaded at some earlier point, on this connection or before it, carries that upload's bytes, and the session used is valid and belongs to its sender or recipient, who is active |
| `ServerRuns.VisitsAreRun` | src/presentation/server_app.cpp:70-279 | Any number of connections served one after the other is one run of account and transfer operations |
| `ServerRuns.OnlyDownloadsRelay` | src/presentation/server_app.cpp:247-276 | No other frame is ever answered with DOWNLOAD_DATA |
| `Server.Connection.OnInit` | src/presentation/server_app.cpp:133-171 | The handler's new maps, token and reply are those of the INIT transition; stored state is untouched |
| `Server.Connection.OnData` | src/presentation/server_app.cpp:172-192 | Likewise for DATA; only `pendingData` may change |
| `Server.Connection.FindCommitId` | src/presentation/server_app.cpp:195-216 | The id a COMMIT body names: length-prefixed, encoded chunk, plain, or the only pending upload |
| `Server.Connection.OnCommit` | src/presentation/server_app.cpp:193-246 | Likewise for COMMIT, with the upload's effect on storage and records |
| `Server.Connection.OnDownload` | src/presentation/server_app.cpp:247-268 | Reply to a download request; nothing changes |
| `Server.Connection.OnAccount` | src/presentation/server_app.cpp:80-132 | REGISTER, AUTH, LOGOUT and the two admin frames, with their effect on users, sessions and the connection's token |
| `Server.Connection.OnFrame` | src/presentation/server_app.cpp:80-276 | The dispatch performs the transition of the frame's kind |
| `Server.Connection.Turn` | src/presentation/server_app.cpp:77-276 | One receive and one dispatch, or the end of the loop with nothing changed |
| `Server.Connection.Loop` | src/presentation/server_app.cpp:77-277 | The whole loop over a receive buffer serves exactly the frames the stream carries and keeps the rest |
| `Server.ReceiveAndServeStep` | src/presentation/server_app.cpp:77-79 | The loop unfolds into one `recvFrame` and one handled frame |
| `Transfers.RunKeeps` | src/application/transfer_service.cpp:49-93 | Conservation: from any point of any run with fresh storage ids to any later one, no record changes and no byte behind a record changes |
| `Transfers.StepInv` | src/application/transfer_service.cpp:9-110 | Every operation keeps: records under their ids, no shared upload or storage id, a blob behind every record, and the account invariant |
| `Transfers.RunInv` | src/application/transfer_service.cpp:9-141 | The same over whole runs |
| `Transfers.DownloadSound` | src/application/transfer_service.cpp:112-141 | Over all runs: bytes are returned only to the sender or recipient fixed by the upload that created the file, an existing active user, and they are that upload's bytes |
| `Transfers.DownloadComplete` | src/application/transfer_service.cpp:112-141 | And they are returned to both, with any valid session, at any later point of the run |
| `Transfers.SentIsHeld` | src/application/transfer_service.cpp:54-93 | Once sent, a file keeps the bytes and the two parties of that upload for ever |
| `Transfers.Origin` | src/application/transfer_service.cpp:54-75 | Every file in a reachable state was created by a successful upload of the run |
| `Transfers.UploadEffect` | src/application/transfer_service.cpp:9-110 | A successful upload adds exactly one record, from the session's user to the user whose name was given, built from request and draw, with its bytes behind it; any other adds none |
| `Transfers.UploadIdOnce` | src/application/transfer_service.cpp:49-52 | A repeated upload id changes neither repository nor blobs |
| `Transfers.UploadIdsDiffer` | src/application/transfer_service.cpp:49-75 | Two successful uploads of a run never share an upload id or a file id |
| `Transfers.KeepsIffFresh` | src/application/transfer_service.cpp:66-93 | Whatever fails in an upload that is not refused first, earlier files keep their bytes if and only if the storage id drawn is not one of theirs, or the write never gets to the destination, or it leaves the same bytes there |
| `Transfers.ClashKeepsIff` | src/infrastructure/binary_storage.cpp:128-140 | The same for one write to an id already recorded: the removal before the rename, the rename and the rollback are the three ways to lose the earlier blob |
| `Transfers.ClashDeletes` | src/application/transfer_service.cpp:73-93 | The failing case: after a clash the earlier blob is gone |
| `Transfers.RefusedSaveRollsBack` | src/application/transfer_service.cpp:73-93 | A refused save leaves neither temporary file nor blob when removals succeed, and touches nothing else |
| `Transfers.StoreShape` | src/application/transfer_service.cpp:66-99 | A record is added if and only if the upload succeeds, and then the blob is complete |
| `Transfers.HeaderMeaning` | src/application/transfer_service.cpp:38-46 | The validator is shown the made-up header under a .pdf name whose blob does not begin with %PDF, and otherwise exactly the first eight bytes of the blob |
| `TransferServices.TransferService.CheckUpload` | src/application/transfer_service.cpp:17-52 | The checks in the source's order, with the error of the first that fails |
| `TransferServices.TransferService.StoreRecord` | src/application/transfer_service.cpp:66-109 | Staging, save and rollback take storage and repository to the state and result of `Store` |
| `TransferServices.TransferService.UploadFile` | src/application/transfer_service.cpp:9-110 | The upload as a whole refines the transition `Upload` |
| `TransferServices.TransferService.DownloadFile` | src/application/transfer_service.cpp:112-141 | The download returns what the transition says and changes nothing |
| `TransferServices.FileRepository.Save` | src/infrastructure/memory_file_repo.cpp:4-14 | Index agreement is kept; accepted exactly when ids are non-empty and none is taken by any record; a refused save changes nothing |
| `TransferServices.FileRepository.ExistsUploadId` | src/infrastructure/memory_file_repo.cpp:30-32 | The indexed lookup equals a search through all records |
| `TransferServices.FileRepository.FindByOwner` | src/infrastructure/memory_file_repo.cpp:22-28 | Exactly the owner's records, each once |
| `CrashSafety.RunInv` | src/infrastructure/binary_storage.cpp:79-150 | Over every interleaving of upload steps, write-backs, crashes, restarts and sweeps: every in-flight and every recorded storage id is in order, in memory and on disk |
| `CrashSafety.StepInv` | src/infrastructure/binary_storage.cpp:79-225 | Each single step keeps that invariant |
| `CrashSafety.RecordsAlwaysThere` | src/application/transfer_service.cpp:66-75 | Over every interleaving in which no directory flush fails: every saved record has its complete bytes at its storage id, in memory and on disk, and keeps them through every continuation |
| `CrashSafety.SavedIsSecured` | src/application/transfer_service.cpp:66-75 | The same for each single record whose own directory flush worked, whatever the others did |
| `CrashSafety.RecordedIsBegun` | src/application/transfer_service.cpp:54-75 | The bytes of a record are those its upload began with |
| `CrashSafety.FlushDecides` | src/infrastructure/binary_storage.cpp:142-149 | After the directory flush, every continuation whatever that saves the record keeps its bytes readable if and only if the flush worked or the entry had been written back before |
| `CrashSafety.RecordsNeverPartial` | src/infrastructure/binary_storage.cpp:59-77 | And if flushes fail, a recorded blob is still complete or absent, never partial, in the running system and on disk |
| `CrashSafety.SurvivesIffOnDisk` | src/infrastructure/binary_storage.cpp:142-149 | A recorded blob stays readable and complete in every continuation if and only if its name is there and has reached the disk |
| `CrashSafety.SecuredForever` | src/infrastructure/binary_storage.cpp:135-150 | A recorded blob that is on disk keeps its bytes through every later run |
| `CrashSafety.SavedAfterFlushSurvives` | src/application/transfer_service.cpp:66-75 | From any state: a record saved at any time after a directory flush that worked, whatever comes in between, has its upload's bytes and keeps them through every later crash |
| `CrashSafety.FailedFlushLosesBlob` | src/infrastructure/binary_storage.cpp:142-149 | A directory flush that fails is ignored: the save goes through, and a crash can leave a record with no blob |
| `UploadSteps.RenamedNotOnDisk` | src/infrastructure/binary_storage.cpp:128-140 | That situation is reached from every state by an undisturbed upload of any bytes under any unused `.bin` id |
| `CrashSafety.AbortLeavesNothing` | src/infrastructure/binary_storage.cpp:184-192 | A rollback whose removals succeed leaves neither temporary file nor blob; as it flushes no directory, each is back after a crash if and only if its name had reached the disk |
| `CrashSafety.UnrecordedBlobRemains` | src/infrastructure/binary_storage.cpp:194-225 | After a crash the boot sweep leaves exactly the names on disk that do not end in `.part`; a complete blob without a record stays |
| `UploadSteps.StagingIsRun` | src/infrastructure/binary_storage.cpp:79-150 | For every fault, what `stagedWrite` leaves is what its small steps leave one by one, so a crash may strike between any two |
| `UploadSteps.StoreIsRun` | src/application/transfer_service.cpp:66-93 | The whole upload is a run of the crash model: same blobs, a record exactly when the service reports success, and one that survives every crash if the directory flush worked |
| `Storage.StagedNeverPartial` | src/infrastructure/binary_storage.cpp:79-150 | For every fault, in every state between two system calls of a staged write the destination, present before or not, has its old bytes, is absent, or has all the new bytes, and no other file is touched |
| `Storage.CrashLeavesOldOrNew` | src/infrastructure/binary_storage.cpp:79-150 | A crash at any moment of a staged write, with any directory entries written back by then, leaves the destination absent, with contents it had before, or with all the new ones, also when an earlier file is replaced |
| `Storage.OldPresentThroughoutIff` | src/infrastructure/binary_storage.cpp:128-135 | Replacing a file goes through a state without it: the old one is there throughout if and only if its removal is never reached or does not work |
| `Storage.MovedWhenReady` | src/infrastructure/binary_storage.cpp:119-135 | The rename comes only when the temporary file holds all the bytes and is flushed |
| `Storage.CallsAreStaged` | src/infrastructure/binary_storage.cpp:79-150 | For every fault the system calls come to the files and the outcome specified, and a stored blob is flushed, and on disk if the directory flush worked |
| `Storage.BinaryStorage.StagedWrite` | src/infrastructure/binary_storage.cpp:79-150 | Makes exactly the system calls listed, so that each state it passes through is never partial, and leaves the files and outcome specified |
| `Storage.BinaryStorage.MakeCalls` | src/infrastructure/binary_storage.cpp:79-150 | The calls in the source's order for every fault, with the files they leave |
| `Storage.BinaryStorage.WriteTemp` | src/infrastructure/binary_storage.cpp:89-126 | The calls of the first half: open, write, flush, or the removal after a failure |
| `Storage.BinaryStorage.FinishWrite` | src/infrastructure/binary_storage.cpp:128-149 | The calls of the second half: removal of an existing destination, rename, directory flush, or the removal after a failure |
| `Storage.BinaryStorage.Read` | src/infrastructure/binary_storage.cpp:156-182 | The bytes under the name, if any |
| `Storage.BinaryStorage.RemoveStaged` | src/infrastructure/binary_storage.cpp:184-192 | Removes exactly the temporary and the final file, as far as removals succeed |
| `Storage.BinaryStorage.SweepOrphans` | src/infrastructure/binary_storage.cpp:194-225 | Deletes exactly the removable regular files ending in `.part`, returns their number, touches no `.bin` file |
| `Storage.TempNameInjective` | src/infrastructure/binary_storage.cpp:85 | Two storage ids never share a temporary name |
| `Storage.BinIsNotPart` | src/application/transfer_service.cpp:59 | Recorded ids end in `.bin`, so no recorded name is ever an orphan's |
| `AuditText.CanonicalInjective` | src/infrastructure/hash_chain_file_audit.cpp:64-68 | For arbitrary characters in every string, equal canonical texts mean equal events |
| `AuditText.EscapeCharPrefixFree` | src/infrastructure/hash_chain_file_audit.cpp:14-28 | The escaping is a prefix code |
| `AuditText.EscapeInjective` | src/infrastructure/hash_chain_file_audit.cpp:14-28 | Escaped text up to its closing quote determines the string and what follows |
| `AuditText.EscapeNoBareQuote` | src/infrastructure/hash_chain_file_audit.cpp:14-28 | Escaped text has no bare quote and no newline, is never shorter, and is unchanged if and only if no character needs escaping |
| `AuditText.MembersInjective` | src/infrastructure/hash_chain_file_audit.cpp:66 | Printed members under the same keys determine their values |
| `AuditText.DecimalInjective` | src/infrastructure/hash_chain_file_audit.cpp:66 | A printed number followed by a non-digit determines the number |
| `AuditText.JsonEscape` | src/infrastructure/hash_chain_file_audit.cpp:14-28 | The accumulating loop escapes character by character |
| `AuditText.EscapeOne` | src/infrastructure/hash_chain_file_audit.cpp:17-25 | The six branches give the code word of RFC 8259, section 7 |
| `AuditText.GetField` | src/infrastructure/hash_chain_file_audit.cpp:145-158 | The search loop past escaped quotes finds what the recursive definition says |
| `AuditText.NoMatchInMember` | src/infrastructure/hash_chain_file_audit.cpp:145-148 | The pattern of another key matches nowhere inside a printed member, whatever its text |
| `AuditText.FindMember` | src/infrastructure/hash_chain_file_audit.cpp:145-148 | So the search for a key finds its own member and no earlier match |
| `AuditText.GetSeq` | src/infrastructure/hash_chain_file_audit.cpp:153-157 | The sequence number is read back as printed, by both parsers |
| `AuditText.GetMember` | src/infrastructure/hash_chain_file_audit.cpp:145-158 | Plain text is read back unchanged by both parsers, escaped text never shorter than written |
| `AuditLog.OneHashPinsHistory` | src/infrastructure/hash_chain_file_audit.cpp:135-174 | Two non-empty chains that end in the same hash are equal entry for entry, or a hash collision is exhibited |
| `AuditLog.OneHashPinsFiles` | src/infrastructure/hash_chain_file_audit.cpp:135-174 | The same for two files that both verify |
| `AuditLog.ChainExtend` | src/infrastructure/hash_chain_file_audit.cpp:159-170 | One more entry keeps a chain if and only if its number, back pointer and hash are right |
| `AuditLog.Logger.Verify` | src/infrastructure/hash_chain_file_audit.cpp:135-174 | The loop accepts a file if and only if its entries form a chain: numbers 1..n, each pointing to the one before, each hash that of its canonical text |
| `AuditLog.Logger.Record` | src/infrastructure/hash_chain_file_audit.cpp:69-101 | Refused, changing nothing, exactly when the log is marked corrupted or does not verify; otherwise appends the completed event's line and moves the tip |
| `AuditLog.Logger.constructor` | src/infrastructure/hash_chain_file_audit.cpp:29-60 | Reopening: empty, corrupted, or the tip recovered from the last line |
| `AuditRuns.ReopeningIsInvisible` | src/infrastructure/hash_chain_file_audit.cpp:29-101 | For every run of records (fields that need no escaping) and reopenings: the state is that of recording without any reopening, and `verify` holds |
| `AuditRuns.RecordedVerifies` | src/infrastructure/hash_chain_file_audit.cpp:69-101 | The recorded file parses to exactly the expected chain, verifies, and reopening recovers `lastHash_` and `lastSeq_` |
| `AuditRuns.RecordVerifiesIffPlain` | src/infrastructure/hash_chain_file_audit.cpp:145-168 | On a good log, `verify` accepts after `record` if and only if no field needed escaping, or a hash collision is exhibited |
| `AuditRuns.QuoteBreaksTheLog` | src/infrastructure/hash_chain_file_audit.cpp:145-168 | One quote in the actor makes the log fail verification, or a collision is exhibited |
| `AuditRuns.ParseWritten` | src/infrastructure/hash_chain_file_audit.cpp:84 | What both parsers read back from a written line: number, back pointer and hash always, the event if and only if plain |
| `AuditRuns.LinesAppend` | src/infrastructure/hash_chain_file_audit.cpp:83-86 | Appending a line to a file of whole lines appends it to the lines read |
| `AuditRuns.AppendToChain` | src/infrastructure/hash_chain_file_audit.cpp:69-101 | Appending any event to a good log: the line written and what it parses to |
| `AuditRuns.Sha256IsHexLike` | src/infrastructure/hash_chain_file_audit.cpp:61-63 | The hash in use meets the one assumption made of it: 64 bytes that need no escaping |
| `AuditRuns.Sha256CollisionIsReal` | src/infrastructure/hash_chain_file_audit.cpp:61-63 | A collision exhibited for it is one of SHA-256: two different byte strings with one digest |
| `AuditRuns.VerifiedIffAllPlain` | src/infrastructure/hash_chain_file_audit.cpp:69-174 | Over any run of records and reopenings, whatever the events hold: `verify` accepts the file if and only if no event needed escaping, or a hash collision is exhibited |
| `AuditRuns.ReopenRecoversIff` | src/infrastructure/hash_chain_file_audit.cpp:29-60 | For any file that verifies: the constructor recovers the chain's tip and number if and only if the last line is not blank or there is no entry; after a trailing blank line it starts from GENESIS and 0 |
| `AuditRuns.BlankBreaksTheLog` | src/infrastructure/hash_chain_file_audit.cpp:43-59 | After such a reopening the next `record` goes through and the log no longer verifies, whatever is recorded |
| `AuditRuns.SameNumber` | src/infrastructure/hash_chain_file_audit.cpp:51-56 | Both parsers read the same number from any line |
| `AuditText.GetFirstStops` | src/infrastructure/hash_chain_file_audit.cpp:46-53 | The constructor's parser reads what `verify` reads, or a beginning of it up to a quote |
| `Sha256.HashBytes` | include/infrastructure/sha256.hpp:28-45 | For every message the in-place implementation computes the digest of section 6.2.2 of FIPS 180-4, given recursively |
| `Sha256.Pad` | include/infrastructure/sha256.hpp:30-34 | The zero-pushing loop terminates with the padding of section 5.1.1 |
| `Sha256.Expand` | include/infrastructure/sha256.hpp:36-37 | The 64-word array is the message schedule |
| `Sha256.RunRounds` | include/infrastructure/sha256.hpp:38-39 | Sixty-four shifting assignments are the recursive rounds |
| `Sha256.CompressInPlace` | include/infrastructure/sha256.hpp:38-40 | The eight words updated in place are the compression of the block |
| `Sha256.WriteOut` | include/infrastructure/sha256.hpp:42-44 | The digest bytes are the words, most significant byte first |
| `Sha256.PaddedLength` | include/infrastructure/sha256.hpp:31-34 | The padded length is the least multiple of 64 that is at least n + 9 |
| `Sha256.PaddingInjective` | include/infrastructure/sha256.hpp:31-34 | No two messages shorter than 2^61 bytes pad to the same blocks |
| `Sha256.GapReached` | include/infrastructure/sha256.hpp:33 | The loop condition fails for the first time after the specified number of zeros |
| `Sha256.BitFunctions` | include/infrastructure/sha256.hpp:11-12 | `ch` and `maj` choose and vote bit by bit |
| `Sha256.Rotations` | include/infrastructure/sha256.hpp:13-17 | The shift-and-or expressions are rotations |
| `Sha256.HexInjective` | include/infrastructure/sha256.hpp:46-48 | The printed digest determines the digest |
| `Accounts.RunInv` | src/application/auth_service.cpp:3-42 | Over all runs of register, login, logout, activate and deactivate: names, emails and ids unique, a hash for every user, and every unrevoked session belongs to an existing active user |
| `Accounts.StepInv` | src/application/admin_service.cpp:13-49 | Each single operation keeps it, legacy overloads included |
| `Accounts.ValidTokenIsActive` | src/infrastructure/memory_session_store.cpp:49-53 | A valid token always names an existing, active user |
| `Accounts.OldTokensNeverRevive` | src/application/admin_service.cpp:21-32 | After a deactivation no token the user held is valid again, whatever follows, if tokens are fresh |
| `Accounts.LogoutIsFinal` | src/application/auth_service.cpp:42 | The same after a logout |
| `Accounts.DeadStaysDead` | src/infrastructure/memory_session_store.cpp:35-48 | A revoked token stays revoked over every run that does not draw it again |
| `Accounts.LockoutHoldsIff` | src/application/auth_service.cpp:25-41 | Over all runs and all clocks: after a fifth or later failure every success keeps the 900000 ms if and only if the clock is not set back across the end of the lockout from one success of that user to the next |
| `Accounts.FirstSuccessInTime` | src/application/auth_service.cpp:25-41 | With any clock, the first success after such a failure comes no sooner than 900000 ms after it |
| `Accounts.EarlySuccessFollowsOne` | src/application/auth_service.cpp:25-41 | With any clock, a success within the lockout follows an earlier one of the same user that came after it |
| `Accounts.NoLoginDuringLockout` | src/application/auth_service.cpp:25-41 | So with a clock that never goes back, no login succeeds within 900000 ms of a fifth or later failure |
| `Accounts.LockoutStands` | src/infrastructure/memory_user_repo.cpp:43-49 | With any clock, until the user's next success the lockout set by such a failure stands |
| `Accounts.LockoutNeverFallsOverRun` | src/infrastructure/memory_user_repo.cpp:31-59 | With any clock, from any point of a run to any later one without a success of the user in between, the lockout time does not fall, admin actions included |
| `Accounts.FailedCountsFailures` | src/infrastructure/memory_user_repo.cpp:43-59 | The stored counter equals the failures since the last success, counted from the history |
| `Accounts.StepLockout` | src/infrastructure/memory_user_repo.cpp:31-59 | What every operation does to one user's counter and lockout time |
| `Accounts.ClockSetBackDefeatsLockout` | src/application/auth_service.cpp:25-41 | Without the assumption on the clock the lockout fails for every active account with four failures: the run that shows it |
| `Accounts.LoginByOwner` | src/application/auth_service.cpp:25-41 | A login under the user's own name after the lockout succeeds if and only if the password verifies, and its whole effect on users |
| `Accounts.RegisterThenLogin` | src/application/auth_service.cpp:3-41 | A new account can log in, and its token is valid for exactly one hour |
| `Accounts.LastAdminSafe` | src/application/admin_service.cpp:13-51 | Once an active admin exists, every later run keeps at least one |
| `Services.AuthService.RegisterUser` | src/application/auth_service.cpp:3-24 | The method refines the transition `Register` |
| `Services.AuthService.LoginUser` | src/application/auth_service.cpp:25-41 | The method refines the transition `Login` |
| `Services.AuthService.Logout` | src/application/auth_service.cpp:42 | The method revokes the token's session and says whether there was one |
| `Services.AdminService.IsAdmin` | src/application/admin_service.cpp:50 | An existing, active admin |
| `Services.AdminService.IsAdminSession` | src/application/admin_service.cpp:2-12 | A valid session of an existing, active admin |
| `Services.AdminService.CountActiveAdmins` | src/application/admin_service.cpp:51 | The counting loop gives the cardinality of the set of active admins |
| `Services.CountIn` | src/application/admin_service.cpp:51 | The same for any listing that holds every user once |
| `Services.AdminService.Activate` | src/application/admin_service.cpp:13-20 | The method refines the transition and succeeds exactly for a cleared caller and an existing target |
| `Services.AdminService.DeactivateCleared` | src/application/admin_service.cpp:24-31 | Refuses a missing target and the last active admin; otherwise status and all sessions of the target change together |
| `Services.AdminService.Deactivate` | src/application/admin_service.cpp:21-32 | The same behind a session check |
| `Services.AdminService.LegacyActivate` | src/application/admin_service.cpp:33-39 | The overload by admin id |
| `Services.AdminService.LegacyDeactivate` | src/application/admin_service.cpp:40-49 | The overload by admin id |
| `Repositories.UserRepository.FindByUsername` | src/infrastructure/memory_user_repo.cpp:3-9 | The indexed lookup equals a search through all users |
| `Repositories.UserRepository.FindByEmail` | src/infrastructure/memory_user_repo.cpp:10-16 | The indexed lookup equals a search through all users |
| `Repositories.UserRepository.Save` | src/infrastructure/memory_user_repo.cpp:22-30 | Index agreement is kept; accepted exactly when name, email and id are free; a refused save changes nothing |
| `Repositories.UserRepository.Update` | src/infrastructure/memory_user_repo.cpp:31-38 | Refuses a missing user or a changed name or email; otherwise replaces that user only |
| `Repositories.UserRepository.UpdateHash` | src/infrastructure/memory_user_repo.cpp:39-42 | Replaces the hash of an existing user only |
| `Repositories.UserRepository.RecordLoginFailure` | src/infrastructure/memory_user_repo.cpp:43-49 | One more failure, with the lockout from the fifth on |
| `Repositories.UserRepository.ResetLoginFailures` | src/infrastructure/memory_user_repo.cpp:55-59 | Counter and lockout cleared |
| `Repositories.UserRepository.ListAll` | src/infrastructure/memory_user_repo.cpp:65-69 | Every user exactly once |
| `Repositories.SessionStore.CreateForUser` | src/infrastructure/memory_session_store.cpp:11-28 | One session more, valid from now for an hour, under the token's hash |
| `Repositories.SessionStore.Invalidate` | src/infrastructure/memory_session_store.cpp:35-41 | Revokes that session only |
| `Repositories.SessionStore.InvalidateAllForUser` | src/infrastructure/memory_session_store.cpp:42-48 | Revokes exactly the user's sessions and counts those that were live |
| `Repositories.SessionStore.IsValid` | src/infrastructure/memory_session_store.cpp:49-53 | Unrevoked and within its hour |
| `TransferLaws.UploadedIff` | src/application/transfer_service.cpp:17-93 | An upload succeeds if and only if the session is live, the recipient exists and has a key, the validator accepts name, size and header, the upload id is neither empty nor used, the write works and the ids drawn are free |
| `TransferLaws.UploadRefusals` | src/application/transfer_service.cpp:17-52 | Which failed check gives which error, the first one deciding, and that no refusal changes anything |
| `TransferLaws.UploadedRecord` | src/application/transfer_service.cpp:54-99 | The record and the transfer of a successful upload, field by field, the bytes behind it, and that no other record is touched |
| `TransferLaws.RecordOrigin` | src/application/transfer_service.cpp:17-75 | Over all runs: every record was made by one upload whose name and size the validator accepted with the header of the bytes sent, from a live session, to a user of the name given who had a key, and carries that request's fields |
| `TransferLaws.RecordStaysOverRun` | src/infrastructure/memory_file_repo.cpp:4-14 | Once filed, a record never changes, whatever ids are drawn later |
| `TransferLaws.DownloadIff` | src/application/transfer_service.cpp:112-141 | Bytes are returned if and only if the session is live for owner or recipient of an existing record whose blob is there; without a live session the download fails as a login |
| `WireLaws.DownloadServed` | src/presentation/server_app.cpp:247-258 | Over any connection after any earlier operations: a request for a file uploaded before, with a token (or on a connection whose token is) live for its sender or recipient, is answered with exactly that upload's bytes |
| `WireLaws.DownloadAnswered` | src/presentation/server_app.cpp:247-268 | A download request gets the blob in one frame if and only if its token, or the connection's when it gives none, is live for owner or recipient of a record whose blob is there |
| `WireLaws.InitAnswered` | src/presentation/server_app.cpp:133-171 | INIT is accepted if and only if it decodes, the connection's token is live and the validator accepts name and size with a PDF header; what it opens, and that a refusal changes nothing |
| `WireLaws.DataAnswered` | src/presentation/server_app.cpp:172-192 | DATA is accepted if and only if it decodes, its upload is open and its offset is the number of bytes there; its whole effect |
| `WireLaws.CommitAnswered` | src/presentation/server_app.cpp:193-246 | COMMIT is accepted if and only if it names an open upload, the connection has a token and the upload of the buffered bytes under the INIT's fields succeeds; its whole effect and the reply |
| `WireLaws.CommitReadings` | src/presentation/server_app.cpp:195-216 | The four readings of a COMMIT body in order: length-prefixed id, encoded chunk, plain bytes, and empty for the only open upload |
| `WireLaws.AuthAnswered` | src/presentation/server_app.cpp:95-111 | AUTH gets a session token, which the connection then uses, if and only if the password is right for an active user of that name who is not locked out |
| `WireLaws.LogoutAnswered` | src/presentation/server_app.cpp:112-119 | LOGOUT revokes the session of its token and no other, says whether there was one, and clears the connection's token if it is that one |
| `WireLaws.RegisterAnswered` | src/presentation/server_app.cpp:80-94 | REGISTER performs one registration with the role user |
| `WireLaws.AdminAnswered` | src/presentation/server_app.cpp:120-132 | The admin frames succeed if and only if an active admin's live token asks for an existing user, who is not the last admin if to be deactivated |
| `WireLaws.OthersAnswered` | src/presentation/server_app.cpp:269-276 | LIST and stray DOWNLOAD_DATA get an empty list, every other kind an empty ERR |
| `WireLaws.UndecodableAnswered` | src/presentation/server_app.cpp:91-94 | A payload that does not decode gets an empty ERR and changes nothing |
| `WireLaws.ReplyEchoes` | src/presentation/server_app.cpp:85 | Every reply carries the request id of its frame |
| `WireLaws.WireMakesNoAdmin` | src/presentation/server_app.cpp:83 | After any frames, whoever has the role admin had it before |
| `WireLaws.LengthLimit` | src/infrastructure/asio_tls_transport.cpp:133-135 | The limit in bytes; any other length prefix drops the buffer and ends the connection |
| `WireLaws.FrameLayout` | include/ports/transport.hpp:27-32 | A frame byte by byte |
| `WireLaws.ClientFrames` | src/presentation/client_app.cpp:167-190 | The client's frames with their kinds and request id, and that DATA frames with 36-byte ids stay within the limit |
| `WireLaws.InitLayout` | src/presentation/protocol.cpp:53-66 | The INIT payload field by field |
| `WireLaws.DataLayout` | src/presentation/protocol.cpp:101-107 | The DATA payload field by field |
| `WireLaws.RegisterLayout` | src/presentation/protocol.cpp:4-10 | The REGISTER payload field by field |
| `WireLaws.TwoFields` | src/presentation/protocol.cpp:37-42 | The two-string payloads field by field |
| `EndToEnd.DeliveredRecord` | src/application/transfer_service.cpp:54-64 | The record of a delivered upload holds the client's own fields, the default algorithm filled in |
| `AccountLaws.LockoutOrigin` | src/infrastructure/memory_user_repo.cpp:43-49 | Over all runs: a lockout time is zero, or 900000 ms after a failure that was the fifth or later since the user's last success, with no success after it |
| `AccountLaws.FewFailuresLetIn` | src/application/auth_service.cpp:25-41 | So over all runs an active user with fewer than five failures since the last success is let in with the right password at any time |
| `AccountLaws.LockoutStep` | src/infrastructure/memory_user_repo.cpp:43-59 | What one operation does to a lockout time, with the numbers five and 900000 |
| `AccountLaws.LoginIff` | src/application/auth_service.cpp:25-41 | A login succeeds for exactly the active user of that name who is not locked out and whose password is right, and opens one session of one hour |
| `AccountLaws.SessionLasts` | src/infrastructure/memory_session_store.cpp:24 | The token of a login is valid for exactly 3600000 ms |
| `AccountLaws.RegistrationIff` | src/application/auth_service.cpp:3-24 | When a registration succeeds (eight characters or more, name and email free) and all that it adds: role as given, active, no failures |
| `AccountLaws.RoleOrigin` | src/application/auth_service.cpp:11-14 | Over all runs names, emails and roles never change, and every new user was registered with them |
| `AccountLaws.StatusNeedsAdminOverRun` | src/application/admin_service.cpp:13-49 | Over all runs: a user whose status is not what it was has had it changed by an active admin, through a live session or by name in the legacy overloads |
| `AccountLaws.StatusNeedsAdmin` | src/application/admin_service.cpp:13-49 | The same for one operation, with the status asked for |
| `AccountLaws.RevocationNeedsAdminOverRun` | src/application/admin_service.cpp:21-32 | Over all runs: a session that got revoked was logged out by its token, or its user was deactivated by an active admin |
| `AccountLaws.RevocationNeedsAdmin` | src/infrastructure/memory_session_store.cpp:35-48 | The same for one operation; no session ever disappears |
| `AccountLaws.AdminTokenMeans` | src/application/admin_service.cpp:2-12 | The clearance in plain terms: an unrevoked session within its time, of a user with role admin and status active |
| `AccountLaws.ActivationEffect` | src/application/admin_service.cpp:13-20 | An admin who activates an existing user changes that status to active and nothing else |
| `AccountLaws.DeactivationEffect` | src/application/admin_service.cpp:21-32 | An admin who deactivates an existing user, other than the last admin, changes that status to inactive, revokes that user's sessions and nothing else |
| `AccountLaws.RefusedAdminOperation` | src/application/admin_service.cpp:13-49 | In every other case an admin operation changes nothing |
| `AccountLaws.LastAdminCounts` | src/application/admin_service.cpp:26 | The count in the source means that no other active admin exists |
| `AuditLaws.UnescapeEscape` | src/infrastructure/hash_chain_file_audit.cpp:14-28 | A JSON reader, written after section 7 of RFC 8259, gets back exactly the text that was escaped |
| `AuditLaws.CanonicalText` | src/infrastructure/hash_chain_file_audit.cpp:64-68 | The hashed text member by member, in order |
| `AuditLaws.WrittenText` | src/infrastructure/hash_chain_file_audit.cpp:84 | The written line is the hashed text with the hash before the closing brace |
| `AuditLaws.StoullReads` | src/infrastructure/hash_chain_file_audit.cpp:159-160 | How the sequence number is read: what follows the digits is ignored, 2^64 or more reads as 0 |
| `AuditLaws.StoullSigns` | src/infrastructure/hash_chain_file_audit.cpp:55-56 | A plus is skipped and a minus wraps around |
| `AuditLaws.CorruptedForGood` | src/infrastructure/hash_chain_file_audit.cpp:36-41 | A log that does not verify is opened as corrupted, and nothing is recorded in it again, reopenings included |
| `AuditLaws.TamperingShows` | src/infrastructure/hash_chain_file_audit.cpp:135-174 | Two logs that verify and agree in one entry agree in all before it, or a collision is exhibited |
| `Sha256Laws.BSig0Bits` | include/infrastructure/sha256.hpp:14 | Bit i is the exclusive or of bits i+2, i+13 and i+22, modulo 32 |
| `Sha256Laws.BSig1Bits` | include/infrastructure/sha256.hpp:15 | Bit i is the exclusive or of bits i+6, i+11 and i+25, modulo 32 |
| `Sha256Laws.SSig0Bits` | include/infrastructure/sha256.hpp:16 | Bit i is the exclusive or of bits i+7 and i+18, modulo 32, and bit i+3 if there is one |
| `Sha256Laws.SSig1Bits` | include/infrastructure/sha256.hpp:17 | Bit i is the exclusive or of bits i+17 and i+19, modulo 32, and bit i+10 if there is one |
| `Sha256Laws.RoundConstants` | include/infrastructure/sha256.hpp:18-27 | Every round constant holds the first 32 bits of the fractional part of the cube root of its prime |
| `Sha256Laws.InitialWords` | include/infrastructure/sha256.hpp:29 | The initial words hold those of the square roots of the first eight primes |
| `Sha256Laws.FirstPrimes` | include/infrastructure/sha256.hpp:18-27 | The primes used are the first 64: from 2 on, none skipped |
| `Sha256Example.DigestOfAbc` | include/infrastructure/sha256.hpp:28-45 | The published answer for the message abc, through all rounds, which fixes the order of operations |
| `Storage.BadIdMeans` | src/infrastructure/binary_storage.cpp:80-82 | A NUL byte or two dots in a row anywhere make an id bad, and nothing else but being empty |

## Left out

- TLS handshake, certificates, listener, sockets and timeouts: network and library calls. A receive timeout or error is the end of the list of reads; a send that fails is not modelled.
- AES-GCM, X25519, Argon2 and random bytes: library code. Password verification and the token hash are parameters; ids and tokens are drawn from outside.
- SQLite repositories: a foreign engine; the in-memory ones implement the same ports. In the crash model a record is committed in one durable step.
- The PDF validator: an arbitrary accept-or-refuse predicate. The public-key directory: the set of users who have a key.
- Audit events of the services: the sink is taken not to throw, and its entries are not part of the account and transfer state. `all()` of the log: the same parser as `verify` without any check.
- Durability of the audit file: an append is one step that always works, and the file always opens.
- The transfer repository: its save is best effort, its errors are swallowed, and nothing modelled reads it.
- The removal of `fr.storageId` relative to the working directory in the rollback: it names a file outside the storage root.
- The overload of `recordLoginFailure` that takes explicit values: no modelled service calls it.
- Integer limits of clocks, failure counters and sizes of containers: unbounded here. Frame lengths, field lengths, offsets, log sequence numbers and the bit length in SHA-256 are cut to their widths. The log theorems hold below 2^64 records; the wrap of the expected number in `verify` is not modelled.
- The clock is read once per operation; the source may read it two or three times within one.
- The accept loop serves one connection at a time (`ServerRuns.VisitsAreRun`); what an exception that ends a connection leaves half done is not modelled.
- Human-readable reply texts, printing, the command line, key files and the client's download branch.
- The plain TCP transport, `PolicyEngine`, `DownloadToken`, `Permission`: they would only add easy members.
- Server.Connection.OnAccount: a generated user id is taken to be non-empty; an empty one would make the source answer ERR instead of REGISTER.
- Storage.BinaryStorage.StagedWrite: one write call is one step; writes that reach the file piece by piece are in `CrashSafety`. A destination that could not be removed beforehand does not by itself make the rename fail, as on POSIX; where it does, that is the rename fault. Creating the root directory always works.
- Storage.BinaryStorage.Read: an existing file can always be opened and read to its end.
- Storage.BinaryStorage.SweepOrphans: the directory listing itself does not fail; the order of entries is arbitrary.
- Framing.Receiver.RecvFrame: reads may be of any length, not only up to 1024 bytes, which covers more than the source needs.
- Sha256.PaddingInjective: holds below 2^61 bytes only, as the standard defines; longer messages wrap the bit length and are modelled so.
