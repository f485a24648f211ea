# Vitruvius sync, modelled and verified

Vitruvius keeps folders of several machines in step over peer-to-peer connections. A node lists
its folder, announces it, and sends manifests; a peer queues the files it lacks, downloads them
chunk by chunk in a sliding window, verifies every chunk against the listed hash and writes the
file, as plaintext or as an encrypted `*.vit` container. Keys between two nodes come from a
trust-on-first-use exchange that one side proposes and the other side's user approves.

This project models that behaviour in Dafny and proves what it promises. To verify it, run
`dafny verify dfyconfig.toml`.

## Layout

| file | what it models |
|---|---|
| `Basics.dfy`, `Crypto.dfy`, `Paths.dfy` | little-endian fields, concatenation; the framing around the ciphers, associated data, blinding, derived keys; relative paths, derived names and where a path leads |
| `VaultFormat.dfy`, `VaultIo.dfy`, `VaultSplice.dfy` | the container format as functions on bytes; its writer, its four readers and the export as loops over a file cursor and a folder updated in place; containers cut, permuted and put together from records of others |
| `Chunking.dfy`, `Listing.dfy` | cutting files into chunks three ways, listing, import; the sorted listing and the index of local chunks |
| `Reassembly.dfy`, `Containment.dfy` | missing chunks, counting, writing the finished file, conflict copies; that only files below the sync folder are read, served and written |
| `Download.dfy`, `Downloader.dfy` | the downloads from one peer: as a function from state and event to state and requests, and as the class whose handlers update table, queue and id map in place |
| `Offers.dfy`, `Reuse.dfy` | what a manifest queues, what a response amounts to, what a closed connection leaves; files put together from local chunks |
| `TransferSafety.dfy`, `Layouts.dfy` | what holds in every run of the receiver, whatever arrives; where finished files lie |
| `Network.dfy`, `Liveness.dfy`, `Writing.dfy`, `Outcomes.dfy` | receiver and outstanding requests together: progress without losses, when a file can be written, what becomes of every queued file |
| `Turns.dfy`, `Window.dfy`, `Recovery.dfy`, `Orphans.dfy` | which files an event starts; the exact window; recovery from losses; downloads whose id has gone |
| `History.dfy`, `Edge.dfy`, `Overrun.dfy`, `Steadiness.dfy`, `Twelve.dfy`, `Witness.dfy` | requests that outlive a download and files that are brought back; the window's edge; what finished files leave out; windows with holes; the limit of twelve requests; runs that leave the limits |
| `Serving.dfy`, `EndToEnd.dfy`, `PlainTransfer.dfy`, `Relay.dfy` | the sender; sender and receiver together, in either protocol; passing on what was received |
| `Tofu.dfy`, `KeyOrigins.dfy` | the key exchange between two nodes; of which secrets every key is made, and what can still become one |
| `Mesh.dfy`, `Handler.dfy` | announcements between any number of nodes; the peer tables and the handlers that update them in place |

## What is taken for granted

BLAKE3, ChaCha20-Poly1305 and X25519 are uninterpreted functions, gathered in
`Crypto.Primitives`. What is needed of them is a hypothesis of the lemma that needs it, never a
fact of the model: that the cipher opens what it sealed and adds 16 bytes (`SealsCorrectly`), that
a block that was written opens as no chunk but the one it is (`Binds`), that no other block in a
damaged container opens (`Unforged`; a splice of written records has none), that Diffie-Hellman
commutes (`AgreementCommutes`). The first three can hold together (`AssumptionsCanBeMet`). Where two
ids, two keys or two associated data are to differ, the hypothesis is about those alone: that the
key derivation, cut to 16 bytes or whole, does not take these two inputs to one output (`ApartAsIds`,
`ApartAsKeys`), that the text encoding is injective (`EncodesApart`), that what is sealed with the one
associated data does not open with the other (`TellsApart`).
Collision-free hashing is not assumed: where it matters the conclusion is "the sender's bytes, or
these pieces of what was written instead, of which one differs from the listed chunk and has its
digest" (`Counterfeit`). A response of either protocol is accepted for an entry of either, so a
digest is a hash or a blinded hash (`Clash`).

Responses come in any order, repeated, corrupted or forged, or not at all, and what the receiver
keeps whatever arrives (`TransferSafety`, `Orphans`, `Recovery.StepMovesForward`) is proved for
that. A response carries the name or id and the index it claims to answer, and the handlers go by
them; that they are those of the request (`AsRequested`) is a hypothesis of the results about
requests and progress, and `MislabelledReplyExceedsWindow` shows one that fails without it. The
clock is a choice (`Tick` names the files found silent, in the order the table yields them), and
so are random draws, the order of a directory walk and which writes fail.

## Where the code does not do what it says

Each of these is a lemma below that states exactly when the promise holds.

- An empty plaintext file is announced with one chunk and no hash, and its chunk 0 is refused, so
  it never arrives (`EmptyFilesAreNotTransferable`, `FinishedEntriesListAllHashes`). Imported into
  a vault it is listed with one hash and does.
- Completion is decided by counting received chunks. That is the same as "none missing" for all
  verified chunks exactly when an entry lists no more hashes than it announces chunks
  (`CountingIsSoundExactly`).
- Export is staged in `<stem>.tmp`. A destination with extension `tmp` is its own staging file and
  is lost when the export fails; any other file of that name is lost either way (`FailedExport`,
  `StagingFileIsLost`).
- Listing a container never looks at a block, so one that lost bytes of its last block is still
  listed whole (`TruncatedListing`).
- The number of chunks in a container's header is not authenticated. With the count lowered our
  own container exports without complaint to fewer chunks, reporting the size of the whole file
  (`LoweredCountExports`); an export is whole exactly when only empty chunks are left
  (`DamagedExportIsPrefix`).
- The plaintext branch of the reassembly does not look at the name of a file, the vault branch
  does; on complete transfers within the limits they agree exactly for harmless names
  (`LayoutsAgreeOnSafeNames`). The check refuses more than it must: a component that merely has two
  dots in it, as in `a..b`, is refused like `..` (`UnsafeExactly`).
- A response that cannot be opened is asked for again even when its file is not being downloaded, so
  garbage for a finished file goes on being asked for (`ResponsesExactly`).
- A manifest replaces the table of file ids. If it leaves out the id of a file being downloaded,
  that file keeps its slot and receives nothing (`CutOffUntilListed`), while
  every stall check goes on asking for it (`OrphansKeepAsking`), until a manifest lists it again.
- The conflict name has a resolution of one second; a second conflict within it overwrites the
  first copy (`PlainReassembly`). Vault mode keeps no conflict copy (`VaultReassembly`).
- The design comment of the handler promises at most 12 streams. A stall check adds up to one window
  per file, because requests already out are not withdrawn (`StallsExceedTwelve`,
  `OutstandingIsBounded`). A chunk found locally breaks the promise too, with every request answered
  by the chunk asked for: the window moves past it, the file is complete while requests for it are
  out, and the next file gets a full window. With three full windows and one file waiting some run
  of good answers exceeds the limit exactly when one of the three files has such a hole, and if none
  has, no run of replies does (`TwelveExactly`, `LocalChunksExceedTwelve`). Encrypted files have none
  (`EncryptedRunsAreHoleFree`).
- A plaintext manifest queues a file without looking for its container, and without looking whether
  requests of an earlier download are still out. In vault mode a file that has been stored is thus
  fetched again each time it is listed, although nobody removed it (`QueuedAgainExactly`), and can
  start with old requests out at or above its window (`StoredFileIsFetchedAgain`). In plaintext mode
  that takes a user who removes the file (`FetchedAgainExceedsEdge`). Apart from such recalls it never
  happens (`RequestsStayBelowEdge`); while no write fails and nobody removes files, a recall takes the
  vault and a plaintext manifest (`RecallsExactly`, `LastingRunsRecallNothing`).
- The comment at the scheduler says that local chunks are not used in vault mode, but the guard only
  asks for the protocol. A plaintext-protocol file whose chunks are all found locally is written
  plainly in vault mode; only files that were downloaded go into containers (`StepLayout`).
- In vault mode a listed file whose name is that of another file's container counts as there once
  that container is, and is skipped (`Apart` excludes such listings from `AbsentFilesArrive`).
- A proposal or an answer lost within a session is not repeated: the exchange stays where it is until
  the next session (`StuckUntilNextSession`).
- A revoked key is said to need re-approval on the next connection. Revoked by the initiator it
  comes back without anyone approving (`RevocationByInitiatorIsUndone`); revoked by the responder it
  never comes back (`RevocationByResponderIsFinal`).
- A pending approval outlives its session. Granted in a later one, it leaves the two sides with
  different keys, unless both proposals had one public key, as soon as the initiator takes the
  answer; if the newer proposal reaches the responder first and its answer the initiator first, they
  agree (`LateApproval`, `StaleApproval`).
- After a user approved a peer, the answer travels as a request, and that arm of the handler does
  not ask for the manifest, while the arm for responses does (`Handler.AppState.OnKeyExchangeAccept`).

## Model

| member | source | states |
|---|---|---|
| `Basics.LeRoundTrip` | src/storage.rs:223-226 | a number that fits its little-endian field is read back from the bytes written for it |
| `Basics.LeOfFromLe` | src/storage.rs:223-226 | and the bytes of a field are those of the number read from it |
| `Basics.LeDigit` | src/storage.rs:223-226 | byte k of a field counts the multiples of 256 to the k-th power: the least significant byte comes first |
| `Crypto.DecryptEncrypt` | src/crypto.rs:148-195 | the nonce comes first, nonce and tag add exactly 28 bytes, and decryption under the same key and associated data returns the plaintext |
| `Crypto.DecryptChecksAad` | src/crypto.rs:148-195 | decryption with other associated data than the block was sealed with is refused, if the cipher tells the two apart |
| `Crypto.AadsAreInjective` | src/crypto.rs:246-253 | associated data determine file and position, and data at rest can never be taken for data on the wire |
| `Crypto.BlindingAddsNoCollisions` | src/crypto.rs:233-242 | what is hashed determines key and hash; if two blinded hashes coincide although key or hash differ, the key derivation maps those two different inputs to one output |
| `Crypto.IdsTellNamesApart` | src/crypto.rs:218-226 | two file ids coincide exactly for one key and one name, if the derivation cut to 16 bytes does not take these two inputs to one output |
| `Crypto.KeysTellSecretsApart` | src/tofu.rs:143-155 | two exchanges give one key exactly when they agreed on one secret, if the derivation does not take these two secrets to one key |
| `Crypto.ContextsDiffer` | src/tofu.rs:150-153 | ids, blinded hashes and shared keys are derived under three different contexts |
| `Paths.TmpNameIsItselfExactlyForTmp` | src/storage.rs:371 | the staging name is the destination itself exactly for the extension `tmp` |
| `Paths.StagingIsShared` | src/storage.rs:371 | two destinations share a staging file exactly when directory and stem are the same |
| `Paths.ConflictNameDiffers` | src/storage.rs:768-782 | a conflict copy never goes where the new file goes |
| `Paths.ConflictNameInserts` | src/storage.rs:768-782 | the conflict name is the path with the stamp put in before the extension, so different moments give different names |
| `Paths.ConflictNameStaysBeside` | src/storage.rs:768-782 | it is in the directory of the file and has its extension, if there is one |
| `Paths.ContainersAreVits` | src/storage.rs:144-149 | the extension `vit` is exactly what the container of some file has, so the plaintext listing, which skips it, shows no container |
| `Paths.ComponentsAreUnique` | src/storage.rs:130-142 | the components of a path are the one way to write it with slashes between parts that hold none |
| `Paths.UnsafeExactly` | src/storage.rs:151-153 | the name check refuses exactly absolute names, names with a backslash and names of which a component has two dots in a row |
| `Paths.HarmlessStaysInside` | src/storage.rs:151-153 | any other name, and that of its container, is relative, has no component `..` and never leads above the sync folder, with a backslash as separator or without |
| `VaultFormat.HeaderRoundTrip` | src/storage.rs:214-228 | the header reader recovers id, count and size whatever follows the header |
| `VaultFormat.ReadHeaderExactly` | src/storage.rs:214-228 | any bytes have a readable header exactly when they are long enough and begin with the magic bytes, and then they begin as the writer would begin a container with what was read |
| `VaultFormat.RecordInPlace` | src/storage.rs:329-341 | record i of a written container lies between its offset and the next |
| `VaultFormat.WalkOfTruncated` | src/storage.rs:235-244 | walking by announced lengths reaches record i of a cut-off container exactly when the head before it survived, and then at its true offset |
| `VaultFormat.ExportNeedsEachChunk` | src/storage.rs:375-387 | on any bytes, export succeeds exactly when random access succeeds for every chunk |
| `VaultFormat.ExportConcatenates` | src/storage.rs:375-387 | on any bytes, export is the concatenation of what random access returns |
| `VaultFormat.ListingNeedsHeadsOnly` | src/storage.rs:232-246 | on any bytes, the hash listing succeeds exactly when every record head can be read; blocks do not matter |
| `VaultFormat.RoundTrip` | src/storage.rs:292-354 | all four readers recover from a written container what was written: header, hashes, each chunk, the whole file |
| `VaultFormat.NonceReached` | src/crypto.rs:148-170 | the block of record i begins with the nonce drawn for it, where the readers find it |
| `VaultFormat.TruncatedChunk` | src/storage.rs:257-287 | a container cut off anywhere yields chunk i exactly when record i survived whole, and then the right one |
| `VaultFormat.TruncatedListing` | src/storage.rs:232-246 | a cut-off container is listed, with all the right hashes, exactly when the last record head survived |
| `VaultSplice.SplicedChunk` | src/storage.rs:248-287 | from any prefix of any header and any sequence of written records, chunk i reads exactly when the header allows it and record i is whole and is record i of the named file, and then it is that chunk |
| `VaultSplice.SplicedExport` | src/storage.rs:358-401 | such a file exports exactly when it starts with as many records of the named file, in order and whole, as its header counts |
| `VaultSplice.DamagedChunkIsGenuine` | src/storage.rs:248-287 | whatever the bytes, as long as no block in them was forged, a chunk that reads is that chunk of the file the header names |
| `VaultSplice.DamagedExportIsPrefix` | src/storage.rs:358-401 | whatever the bytes, unforged, a successful export is a whole number of leading chunks of the named file, as many as the header says, and the whole file exactly when only empty chunks are left |
| `VaultSplice.LoweredCountExports` | src/storage.rs:358-401 | our own container with the count lowered exports to the first chunks only and reports the size of the whole file |
| `VaultSplice.AssumptionsCanBeMet` | src/storage.rs:248-254 | there is a cipher that opens what it sealed, binds every block to its chunk and admits no other block, for any splice of containers whose ids end differently |
| `VaultIo.ReadVaultHeader` | src/storage.rs:214-228 | the header reader computes `ReadHeader` of the file for any bytes |
| `VaultIo.ReadVaultChunkHashes` | src/storage.rs:232-246 | the seeking loop computes `HashesAt` for any bytes, short files included |
| `VaultIo.ReadVaultChunk` | src/storage.rs:257-287 | the skipping loop computes `ReadChunk` for any bytes and index |
| `VaultIo.Folder.VaultWrite` | src/storage.rs:292-354 | the writer leaves exactly the files and result of `WriteOutcome`, a file cut short by an oversized chunk included |
| `VaultIo.Folder.Export` | src/storage.rs:358-401 | the export leaves exactly the files and result of `ExportOutcome`, a source that is its own staging file included |
| `VaultIo.ExportSucceedsExactly` | src/storage.rs:358-401 | an export of any bytes succeeds exactly when the header and every chunk it counts can be read by random access and the staging file is not the source, and reports the size in the header |
| `VaultIo.WriteThenRead` | src/storage.rs:292-354 | writing succeeds exactly for safe names and chunks within the format, stores the container and touches no other file |
| `VaultIo.TooBigIsCutShort` | src/storage.rs:329-341 | a chunk too big for the format fails the write, and leaves the container cut off exactly before its record |
| `VaultIo.ExportDelivers` | src/storage.rs:358-401 | exporting an intact container puts the original bytes at the destination, reports their number and changes nothing else but the staging file |
| `VaultIo.FailedExport` | src/storage.rs:369-400 | a failed export leaves destination and source alone exactly when the staging file is neither of them |
| `VaultIo.StagingFileIsLost` | src/storage.rs:371-397 | after an export that got past the header the staging name is gone, unless it was the destination of a successful one |
| `Chunking.LeadingChunks` | src/storage.rs:164-174 | the first k chunks are the first k * CHUNK_SIZE bytes |
| `Chunking.ChunksConcatenate` | src/storage.rs:164-174 | the chunks of a file concatenate back to the file |
| `Chunking.ComputeFileMetadataPlain` | src/storage.rs:158-182 | sequential reads hash exactly the chunks of the file; the announced count is max(1, ceil(size / CHUNK_SIZE)) |
| `Chunking.ComputeFileMetadataVault` | src/storage.rs:403-427 | the vault listing computes `ListVault` for any bytes |
| `Chunking.ListVaultExactly` | src/storage.rs:403-427 | any bytes are listed exactly when the header and all record heads it counts can be read, and then with their hashes, the count and the size |
| `Chunking.ReadPlainChunk` | src/storage.rs:592-601 | seek and read returns chunk i of the same division, and fails exactly past the end |
| `Chunking.ReadLocalChunk` | src/storage.rs:575-602 | one chunk from the layout in use, with each refusal in the order of the code |
| `Chunking.LocalChunkExactly` | src/storage.rs:575-602 | a plaintext chunk is read exactly for a harmless name of a file that goes on behind the place, and is the next bytes of it; in vault mode it takes a key and a container in which it can be read |
| `Containment.ReadsStayInside` | src/storage.rs:151-153 | reading a chunk succeeds only for names that stay below the folder, depends on no file outside, and every name that is not harmless is refused as unsafe |
| `Containment.ServesInsideOnly` | src/storage.rs:607-685 | so a peer is served from below the folder only, by name or by id |
| `Containment.WritesStayInside` | src/storage.rs:298-300 | a container is written only for names that stay below the folder, no file outside is touched, and every name that is not harmless is refused before anything changes |
| `Chunking.ImportChunks` | src/storage.rs:890-903 | the import loop sees the same chunks, and one empty chunk for an empty file |
| `Chunking.ImportKeepsListing` | src/storage.rs:865-911 | importing and listing gives count and size of the plaintext listing, and the same hashes exactly when the file is not empty |
| `Chunking.ListContainer` | src/storage.rs:403-427 | a written container is listed with its count, size and hashes |
| `Listing.BeforeIsTotal` | src/storage.rs:481 | the order of names is total: of two different names exactly one comes first |
| `Listing.BeforeExactly` | src/storage.rs:481 | a name comes before another exactly when it is its beginning or has the smaller character where they first differ |
| `Listing.SortedIsUnique` | src/storage.rs:470-483 | a sorted listing of a set of names is determined by the set, whatever the order of the walk |
| `Listing.ListFolder` | src/storage.rs:453-483 | walk and sort give the sorted listing of all files that are not containers, each with its own metadata |
| `Listing.ListedExactly` | src/storage.rs:186-207 | the listing names each file that is no container, and nothing else, once, in order and with its own metadata |
| `Listing.ListVaultFolder` | src/storage.rs:430-483 | in vault mode walk and sort give the sorted listing of all containers that list, each under the name of its file |
| `Listing.VaultListedExactly` | src/storage.rs:403-449 | it names each file whose container has a readable header and record heads, and nothing else, once, in order and with what the container says |
| `Listing.BuildChunkIndex` | src/storage.rs:822-840 | the index has exactly the listed hashes, each with the place a linear scan of the sorted listing finds first |
| `Listing.FirstWithIsFirst` | src/storage.rs:832-838 | that place is the first: no earlier file and no earlier chunk has the hash |
| `Listing.DedupSourceIsGenuine` | src/sync/handler.rs:2008-2023 | following the index to the disk yields a chunk with the wanted hash, exactly when the hash is listed and its first holder may be read |
| `Listing.DedupSourceExactly` | src/sync/handler.rs:2008-2023 | said of the files alone: a chunk is found exactly when a file that is no container has one with the hash and the first such file by name is harmlessly named |
| `Reassembly.MissingCount` | src/storage.rs:88-93 | missing and received chunks below the total add up to the total |
| `Reassembly.CountingWithinRange` | src/sync/handler.rs:1637-1639 | while all received numbers are below the total, counting says complete exactly when nothing is missing |
| `Reassembly.CountingIsSoundExactly` | src/sync/handler.rs:1579-1639 | counting is right for every set of verified chunks exactly when no more hashes are listed than chunks announced, or none is announced |
| `Reassembly.CountingIsMonotone` | src/sync/handler.rs:1637-1639 | a transfer that counts as complete still does after more chunks |
| `Reassembly.CollectChunks` | src/storage.rs:721-731 | the vault branch gathers all chunks in order, or fails exactly when one is missing |
| `Reassembly.ReassembleModal` | src/storage.rs:709-808 | reassembly leaves exactly the files and result of `ReassembleOutcome`, chunks written before a gap included |
| `Reassembly.PlainReassembly` | src/storage.rs:742-807 | the target gets the incoming bytes, a differing previous version survives under the conflict name, the same content again changes nothing, and all other files stay exactly when that name was free |
| `Reassembly.GapLeavesFront` | src/storage.rs:787-804 | a plaintext transfer with a gap fails and leaves the chunks before the first gap; a previous version that differs from all that came in is kept, and nothing else changes |
| `Reassembly.VaultReassembly` | src/storage.rs:719-740 | the container stored exports to the received bytes; success exactly within the limits of the format; no other file changes |
| `Reassembly.GapKeepsVault` | src/storage.rs:719-731 | in vault mode a transfer with a gap, or without a key, changes nothing |
| `Reassembly.StoredNonces` | src/storage.rs:329-341 | each block of a stored container begins with the nonce drawn for its chunk |
| `Containment.VaultDownloadsStayInside` | src/storage.rs:719-740 | whatever a peer calls a file, in vault mode nothing outside the folder is changed by writing it |
| `Reassembly.LayoutsAgreeOnSafeNames` | src/storage.rs:719-745 | within the limits the two layouts accept the same complete transfers exactly for names that are relative, without a backslash and without two dots in a row in a component; for the others the plaintext branch writes nevertheless |
| `Downloader.PeerDownload.constructor` | src/sync/handler.rs:68-80 | a new peer starts with nothing active, queued or known |
| `Downloader.PeerDownload.FindLocalChunks` | src/sync/handler.rs:2008-2024 | the reuse loop finds for each listed hash what a linear scan of the folder would |
| `Downloader.PeerDownload.StartNextFile` | src/sync/handler.rs:1970-2116 | one turn of the scheduler is `StartOne`: skip, write locally, or open a window |
| `Downloader.PeerDownload.StartQueuedFiles` | src/sync/handler.rs:1962-2117 | the scheduler loop is `StartQueued` and terminates |
| `Downloader.PeerDownload.EnqueueWanted` | src/sync/handler.rs:1390-1417 | the manifest loop queues exactly what is not on disk, active or waiting |
| `Downloader.PeerDownload.OnManifest` | src/sync/handler.rs:1442-1512 | state and requests after a manifest are those of `Step` |
| `Downloader.PeerDownload.OnEncryptedManifest` | src/sync/handler.rs:1306-1440 | state, id table and requests after an encrypted manifest are those of `Step` |
| `Downloader.PeerDownload.AcceptChunk` | src/sync/handler.rs:1579-1639 | verification, storing, asking on and completion are those of `Accept` |
| `Downloader.PeerDownload.CompleteFile` | src/sync/handler.rs:1640-1729 | completion frees the slot and refills, or stays put when the write fails |
| `Downloader.PeerDownload.OnChunkResponse` | src/sync/handler.rs:1525-1729 | state and requests after a chunk are those of `Step`: decrypt first, then look up, then verify |
| `Downloader.PeerDownload.OnEncryptedChunkResponse` | src/sync/handler.rs:1731-1938 | state and requests after an encrypted chunk are those of `Step`: resolve the id first, then decrypt, then look up |
| `Downloader.PeerDownload.CheckStalls` | src/sync/handler.rs:454-511 | the stall check over the silent files is the `Tick` of `Step` |
| `Downloader.PeerDownload.OnConnectionClosed` | src/sync/handler.rs:661-668 | closing drops queue and active files and sends nothing |
| `Offers.QueuedInOrder` | src/sync/handler.rs:1390-1417 | a manifest adds to the queue exactly the entries that are neither there nor active nor waiting when it comes, the first of each name, in its own order |
| `Offers.ResponsesExactly` | src/sync/handler.rs:1525-1600 | a response is ignored, asked for again or taken in exactly as it can be credited and opened, its file is being downloaded and its digest is listed |
| `Offers.TakenInExactly` | src/sync/handler.rs:1600-1640 | a chunk with the listed digest is kept, repeated or not, and while the file is not complete moves the window by one place and asks for the chunk there; nothing else changes |
| `Download.AskFits` | src/sync/handler.rs:2099-2113 | a request by id fits its 32-bit field, and asks for the chunk meant if that number does |
| `Offers.ClosedIgnoresAnswers` | src/sync/handler.rs:661-668 | after the connection was closed no response changes anything |
| `Offers.ClosedStartsAfresh` | src/sync/handler.rs:661-668 | and a manifest is handled as by a node that never knew the peer, but for the id table |
| `Download.ReusableIsGenuine` | src/sync/handler.rs:2008-2023 | every reused local chunk has the hash listed for its position |
| `Download.ReusableExactly` | src/sync/handler.rs:2007-2023 | in the plaintext protocol exactly the chunks are reused whose listed hash a local file has, the first such by name being harmlessly named; in the encrypted protocol none |
| `Reuse.HeldFilesCostNothing` | src/sync/handler.rs:2045-2080 | the turn of an absent file sends no request exactly when all its chunks are held locally (or it announces none); then it takes no slot, is finished, and is in the folder, made of chunks with the listed hashes, and no other file changes |
| `TransferSafety.StepSchedules` | src/sync/handler.rs:1962-2117 | each event keeps: at most three active, every name in one place, nothing waiting while a slot is free |
| `TransferSafety.RunStaysScheduled` | src/sync/handler.rs:1962-2117 | and so in every run |
| `TransferSafety.RunStaysGenuine` | src/sync/handler.rs:1579-1617 | in every run every received chunk has a digest listed for its position, and every finished file is made of such chunks |
| `TransferSafety.FinishedFilesAreTheListedOnes` | src/sync/handler.rs:1569-1729 | in every run a finished file has exactly the bytes of the file it was listed from, or consists of pieces of which one differs from the listed chunk and has its digest |
| `TransferSafety.ClashIsACollision` | src/sync/handler.rs:1784-1830 | such a piece and chunk are two different inputs that the hash or the key derivation maps to one output |
| `TransferSafety.StepPutsFinishedOnDisk` | src/sync/handler.rs:1640-1693 | whenever a step reports a file finished, the folder holds its content afterwards, plainly or in a container |
| `Layouts.StepLayout` | src/sync/handler.rs:2002-2080 | and it lies in a container if the vault is on and the file was being downloaded, plainly in every other case, so also in vault mode when all its chunks were found locally |
| `TransferSafety.WrittenBytesAreListed` | src/sync/handler.rs:1569-1729 | in every run, whenever a file is reported finished, what is on disk are the bytes it was listed from, or a counterfeit as above |
| `TransferSafety.RunConserves` | src/sync/handler.rs:1392-1417 | files leave the queue in the order they came, and each file taken is exactly once active, finished, skipped or failed |
| `Network.AnswerResolves` | src/sync/handler.rs:1764-1812 | an answer is credited to the listed file whose reference it carries, and ignored only when that file is not active |
| `Network.NetStepSound` | src/sync/handler.rs:1217-2117 | with a fixed listing and replies labelled as requested, every event, losses and stalls included, keeps: requests are for announced chunks of listed files, and every waiting or active file can be found by its id |
| `Liveness.SmallestMissing` | src/sync/handler.rs:470-506 | a stall check asks again for min(WINDOW, missing) chunks, and they are the smallest missing ones |
| `Liveness.PendingHasRequest` | src/sync/handler.rs:1616-1629 | without losses an active file with a chunk missing has a request out |
| `Liveness.AnswerRetriesOrProgresses` | src/sync/handler.rs:1600-1639 | every answer labelled as requested changes nothing but repeats its request, or lowers 2 * (chunks not yet asked for) + requests in flight; a good or superfluous one always lowers it |
| `Writing.StepPends` | src/sync/handler.rs:1640-1693 | in vault mode with a key, safe names, counts and chunks within the format, and elsewhere always: as long as no write fails from outside, every event leaves each active file with a chunk missing |
| `Liveness.LosslessRunsStayHealthy` | src/sync/handler.rs:1616-2115 | in every run without losses and failed writes, below the edge every chunk is here or asked for, an open window has a request out, and every active file lacks a chunk |
| `Liveness.RestMeansDone` | src/sync/handler.rs:1616-2115 | such a run has no request left only when nothing is active or waiting, and then every file queued is accounted for |
| `Outcomes.RestMeansDelivered` | src/sync/handler.rs:1640-1729 | and, if nobody removes files, none has failed: each was finished or found in the folder, and is there |
| `Outcomes.AbsentFilesArrive` | src/sync/handler.rs:1217-2117 | if such a run begins with the manifest and nobody else touches the listed names, every listed file of which there was neither a plain file nor a container is finished and its content is in the folder; in vault mode provided that no listed name is that of the container of another, and that no plaintext manifest lists a file again that is there as a container only |
| `Liveness.AnswersAreBounded` | src/sync/handler.rs:1600-1639 | of any number of answers at most as many as the measure of the start change anything |
| `Window.StepExactly` | src/sync/handler.rs:1962-2115 | in both protocols an event without loss or stall keeps the windows exact exactly when, in the scheduler's turn, no head of the queue that starts has a chunk here already at or above its first edge |
| `Window.EncryptedRunsAreHoleFree` | src/sync/handler.rs:2003-2024 | in the encrypted protocol no file starts so |
| `Window.UndisturbedRunsStayExact` | src/sync/handler.rs:1616-2115 | in runs without losses, stalls and such starts one request is out for each chunk below the edge that has not come in, and no other |
| `Window.ExactWindow` | src/sync/handler.rs:15-23 | there, each active file has min(WINDOW, missing) requests out, finished files none, and all together never more than 12 |
| `Overrun.OneWindowEach` | src/sync/handler.rs:15-23 | in both protocols and layouts, whatever is lost, fails or is removed, a run without stalls never has more than one window out for a file, as long as no manifest brings back a file while a request for it is out |
| `Overrun.ActiveWithinTwelve` | src/sync/handler.rs:15-23 | in such a run the files being downloaded have at most 12 requests out together; the others are for files that are done |
| `Steadiness.UndisturbedRunsStaySteady` | src/sync/handler.rs:1616-2115 | without losses, stalls and recalls, holes or not, each chunk below an edge that has not come in is asked for once, none above it, and a window that is still open is full |
| `Twelve.RepliesKeepTwelve` | src/sync/handler.rs:15-23 | from exact windows and at most one file waiting, no run of replies exceeds 12, whatever they contain and whichever writes fail |
| `Twelve.TwelveExactly` | src/sync/handler.rs:15-23 | from three full windows of plaintext-protocol files, nothing else asked for and one waiting file that will lack four chunks, some run of good answers exceeds 12 exactly when one of the three has a chunk here that the window has to pass or that is asked for nevertheless; otherwise no run of replies does |
| `Overrun.HoleLeavesRequests` | src/sync/handler.rs:1616-1693 | a plaintext-protocol file that starts with a hole, with or without a key and in either layout, can be finished by good answers alone so that a request above its first window is left out, without touching the others |
| `Witness.StallsExceedTwelve` | src/sync/handler.rs:454-511 | a run of one manifest and one stall check with 16 requests out |
| `Witness.LocalChunksExceedTwelve` | src/sync/handler.rs:2003-2115 | a run of one manifest and good answers, without loss or stall, with more than 12 requests out; its start is one to which the condition for 12 applies |
| `Recovery.StepMovesForward` | src/sync/handler.rs:503-505 | in every event the edge of an active file never moves back and no received chunk is dropped |
| `Recovery.RoundShrinks` | src/sync/handler.rs:461-511 | a stall check, one good answer to it and anything else before and after leave one chunk fewer missing, or the file finished |
| `Recovery.RoundsFinish` | src/sync/handler.rs:461-511 | as many such rounds as chunks are missing finish the file, in both protocols and layouts, whatever was lost and whatever happens in between |
| `Recovery.PlainChunkAnswers` | src/sync/handler.rs:1579-1588 | in the plaintext protocol without a key an answer is good exactly when its data has the hash listed for it |
| `Recovery.OutstandingIsBounded` | src/sync/handler.rs:461-511 | in every run with replies labelled as requested, lossy or not, the requests out for a file never exceed one window for each start and each stall check of it |
| `Witness.MislabelledReplyExceedsWindow` | src/sync/handler.rs:1569-1600 | one reply with another file's label takes the requests out for that file beyond this bound |
| `History.StepStaysQuiet` | src/sync/handler.rs:1476-1488 | an event that brings back no file with a request out starts only files for which nothing is out, and leaves nothing out for those that wait |
| `History.QueuedAgainExactly` | src/sync/handler.rs:1390-1417 | a name queued before, neither active nor waiting, while no write failed and nobody removed files, is queued again exactly in vault mode, for an entry without an id, when no plain file has the name, and then its container is there |
| `History.RecallsExactly` | src/sync/handler.rs:1476-1488 | in such a state an event brings back a file with a request out exactly when, in vault mode, a plaintext manifest lists one that is not plainly there, active or waiting |
| `History.LastingRunsRecallNothing` | src/sync/handler.rs:1390-1417 | so with the vault off, or with encrypted entries only, no run without failed writes and removals brings one back |
| `Edge.NetStepBelowExactly` | src/sync/handler.rs:1962-2115 | an event keeps all requests for active files below their edges exactly when, in the scheduler's turn, for no head of the queue that starts a request is out at or above the edge it starts with |
| `Edge.OwnedRequestsStayBelow` | src/sync/handler.rs:1620-1629 | in a state where requests are only out for active files, no event brings a request to or above the edge of its file |
| `Edge.RequestsStayBelowEdge` | src/sync/handler.rs:2099-2113 | in every run, whatever is lost, stalls, fails or is removed, no request for an active file is ever at or above its edge, as long as no manifest brings back a file while a request for it is out |
| `Witness.FetchedAgainExceedsEdge` | src/sync/handler.rs:1390-1417 | a run in which a file is fetched, removed and listed again, and then has a request out above its edge |
| `Witness.StoredFileIsFetchedAgain` | src/sync/handler.rs:1476-1488 | a run in vault mode of a plaintext manifest, good answers and the same manifest again, nothing lost, stalled, failed or removed, after which the stored file is fetched again with a request out above its edge and more than one window out |
| `Serving.BuildManifest` | src/storage.rs:526-543 | the manifest loop lists every file once, in order, with id, size and blinded hashes, and fills the id table |
| `Serving.IdsResolve` | src/storage.rs:528-543 | every id leads back to its own file exactly when no two listed names share an id |
| `Serving.IdsAreDistinct` | src/storage.rs:528-543 | no two names of a listing share an id exactly when the derivation, cut to 16 bytes, tells their inputs apart |
| `Serving.EveryIdResolves` | src/storage.rs:526-543 | then the id of every manifest entry leads back to the file it names |
| `Serving.PlainChunkReads` | src/storage.rs:592-601 | chunk i of a listed plaintext file reads exactly when the name is safe and a hash is listed for it, and then has that hash |
| `Serving.VaultChunkReads` | src/storage.rs:586-590 | the same for a file listed from a container of our own |
| `Serving.HonestChunkVerifies` | src/storage.rs:658-685 | every chunk served for a listed id and index decrypts under its associated data and has the blinded hash of the entry, in both layouts |
| `Serving.HonestPlainChunkVerifies` | src/storage.rs:607-655 | in the plaintext protocol a chunk is served exactly for a safe name and a listed index, and a receiver with the same key gets the listed hash |
| `Serving.RepliesOpenAsThemselves` | src/storage.rs:658-685 | a chunk served for an id and an index opens under the key for that id and index only, if the cipher tells the associated data apart, and is sealed with the nonce drawn for it |
| `Serving.PlainRepliesOpenAsAnything` | src/storage.rs:607-655 | in the plaintext protocol a sealed chunk opens under every name and index, so only its hash ties it to its place |
| `Serving.FinishedEntriesListAllHashes` | src/sync/handler.rs:1579-1588 | in every run only entries with a hash for every announced chunk are finished |
| `Serving.EmptyFilesAreNotTransferable` | src/storage.rs:164-171 | a plaintext file is listed with a hash for every announced chunk exactly when it is not empty |
| `Orphans.OmittedIsCutOff` | src/sync/handler.rs:1374-1388 | an encrypted manifest that leaves out a file being downloaded cuts it off: no id leads to it any more |
| `Orphans.CutOffUntilListed` | src/sync/handler.rs:1764-1782 | once no id leads to a file being downloaded, whatever arrives until it is listed again, the file keeps its slot and its entry and nothing received is kept |
| `Orphans.OrphansKeepAsking` | src/sync/handler.rs:461-511 | and every stall check on it sends the same requests again |
| `Serving.ManifestMustRepeatIds` | src/sync/handler.rs:1764-1782 | an answer for a file being downloaded is credited to it exactly when the manifest that came in between carries its id again, and ignored otherwise |
| `EndToEnd.PlainFileServes` | src/storage.rs:575-602 | a listed plaintext file is served chunk by chunk exactly when it is not empty and its name is safe |
| `EndToEnd.VaultFileServes` | src/storage.rs:586-590 | a file in a container of our own is served with the chunks it was written from |
| `EndToEnd.HonestAnswerIsUseful` | src/sync/handler.rs:1784-1860 | to a receiver with the same key an honest answer is never a reason to ask again |
| `EndToEnd.HonestAnswerAnswers` | src/sync/handler.rs:1784-1860 | and it is the good answer that a round of recovery needs, in the encrypted protocol and in either layout |
| `EndToEnd.ManifestIsStatic` | src/storage.rs:526-543 | the manifest a sender builds is a repetition of its listing with every encrypted file in it |
| `EndToEnd.HonestAnswersAreCounted` | src/sync/handler.rs:1784-1860 | with an honest sender every answer lowers the measure, so there are at most as many as it says |
| `EndToEnd.TransferDelivers` | src/sync/handler.rs:1217-2117 | once a lossless run that begins with an honest sender's manifest has come to rest, every listed file that was absent is finished, is in the folder and has the sender's bytes, or is a counterfeit of clashing pieces |
| `EndToEnd.FolderServesAll` | src/storage.rs:453-483 | the own listing of a plaintext folder with harmless names and no empty file is served completely, under hypotheses on the text encoding and the key derivation alone |
| `EndToEnd.FolderIsDelivered` | src/sync/handler.rs:1217-2117 | so each file of such a folder that was absent at the receiver is there with its very bytes once a lossless run has come to rest, or is a counterfeit |
| `PlainTransfer.PlainManifestIsStatic` | src/storage.rs:488-512 | the plaintext manifest offers each file of the folder that is no container, under its name and with its count, size and hashes |
| `PlainTransfer.HonestByNameIsUseful` | src/storage.rs:607-655 | in the plaintext protocol, too, a chunk served for a folder without empty or oddly named files is never a reason to ask again, with one key or none on both sides |
| `PlainTransfer.HonestByNameCounts` | src/sync/handler.rs:1525-1729 | so honest answers are at most as many as the measure says |
| `PlainTransfer.PlainFolderIsDelivered` | src/sync/handler.rs:1442-2117 | and once a lossless run that begins with the folder's plaintext manifest has come to rest, each file that was absent is there with its very bytes, or is a counterfeit |
| `Relay.ReceivedFilesAreServed` | src/storage.rs:719-740 | a file received in vault mode is listed from then on with the count, size and hashes of the chunks received, and exactly those chunks are served for it |
| `Relay.EntriesAreRepeated` | src/storage.rs:526-543 | under the same key its manifest entry has the id, count and hashes of the entry it was fetched for |
| `Relay.VaultServesAll` | src/storage.rs:430-483 | a vault of containers written here under harmless names is served completely, under hypotheses on the primitives alone |
| `Tofu.ExactlyOneInitiates` | src/sync/handler.rs:627-658 | of two nodes with different ids exactly one may propose |
| `KeyOrigins.TheSmallerIdInitiates` | src/sync/handler.rs:627-658 | it is the one whose id begins the other's or is smaller where they first differ |
| `Tofu.KeyedExactlyByConsent` | src/sync/handler.rs:95-128 | whatever a peer sends in the key exchange, a node that was started without a key of its own on the command line, began as a stranger and revokes nothing holds a key exactly when its user granted a pending approval or its own proposal was answered |
| `Tofu.ResponderNeedsApproval` | src/sync/handler.rs:1085-1159 | without a granted approval a responder without a key gets none, after a revocation too |
| `Tofu.SecretsAndApprovalsAreSingleUse` | src/sync/handler.rs:97-111 | over every run each secret and each pending approval makes at most one key |
| `Tofu.AgreementExactly` | src/sync/handler.rs:1085-1195 | at every moment of every run of two nodes, over sessions, restarts, revocations, denials and messages lost within a session or with it, keys held on both sides are equal - exactly when the stores did not hold two different keys to begin with |
| `Tofu.WaitsOnlyForTheUser` | src/sync/handler.rs:627-658 | while the initiator has no key, its exchange is on the way or waits for the other user, unless that user denied it, the key was revoked or a message was lost within the session |
| `Tofu.StuckUntilNextSession` | src/sync/handler.rs:705-720 | once neither is so, after a lost proposal or answer for example, nothing gets under way again before the session ends |
| `Tofu.SilentRekey` | src/sync/handler.rs:1085-1128 | a peer that lost its key gets a common one in three events without any approval |
| `Tofu.RevocationByInitiatorIsUndone` | src/sync/handler.rs:301-329 | after a revocation by the initiator the next connection can restore a common key without any approval |
| `Tofu.RevocationByResponderIsFinal` | src/sync/handler.rs:301-329 | after a revocation by the responder, no run in which the initiator keeps its key restores one |
| `Tofu.LateApproval` | src/sync/handler.rs:95-118 | two strangers meet twice and the first proposal is approved in the second session: a possible run in which nothing but the approval is out of order |
| `Tofu.StaleApproval` | src/sync/handler.rs:95-118 | from there, for each order of delivery: the sides agree after the first answer exactly when both proposals had one public key, or two collide; after the newer proposal has been answered, exactly when the initiator took the newer answer or both answers had one public key, or two collide |
| `KeyOrigins.KeysComeFromExchanges` | src/tofu.rs:143-155 | at every moment of every run, stale approvals and lost messages included, a key is the one the node was started with or is derived from what a secret of its own and the public key of a secret of the other side agree on |
| `KeyOrigins.DifferentExchangesDifferentKeys` | src/tofu.rs:143-155 | strangers that agreed on different secrets, in whatever runs of whatever pairs, hold different keys, if the derivation keeps 32-byte secrets apart |
| `KeyOrigins.NothingLeftToApprove` | src/sync/handler.rs:155-168 | after a denial or a restart no approval makes a key before a new proposal comes |
| `KeyOrigins.NothingLeftToAnswer` | src/state.rs:89-111 | after a restart no answer makes a key before a new connection |
| `KeyOrigins.DenialsAndRevocationsAreNarrow` | src/sync/handler.rs:155-168 | a denial leaves key, store and own proposal; a revocation leaves an exchange that is on, which then still makes a key |
| `KeyOrigins.StoredKeysAreUsed` | src/sync/handler.rs:748-758 | after anything from a peer its stored key is in memory, and a restart loses no stored key |
| `Mesh.ViewsAreHistory` | src/sync/handler.rs:552-592 | in every run a node counts as connected exactly the peers whose connection it saw begin and not end since, has a folder exactly if one was set, and has announced it exactly to those connected and those it heard an announcement of since |
| `Mesh.MessagesOfEvent` | src/sync/handler.rs:220-249 | said of the events alone, whom a node announces to and asks: everyone connected when a folder is set, a new peer if there is a folder (asked if there is a key), an announcing peer at most once in return |
| `Mesh.DeliveryCounts` | src/sync/handler.rs:761-798 | a delivered announcement uses up an unannounced pair or one message, and lowers the measure |
| `Mesh.RequestsOfDelivery` | src/sync/handler.rs:783-826 | a delivered announcement asks the announcing peer and every other connected peer with a key, and nobody else |
| `Mesh.AnnouncementsDieDown` | src/sync/handler.rs:761-826 | in a mesh of any size the announcements sent equal the pairs they use up, and deliveries and manifest requests are bounded |
| `Mesh.AtRestEveryoneHasAsked` | src/sync/handler.rs:592-627 | once no announcement is under way, an announcement of each folder owner has reached every node it saw a connection begin to and not end, after that connection and after the folder was set; whoever is reached asks |
| `Mesh.FolderOwnersHaveAsked` | src/sync/handler.rs:220-249 | in every run a node with a folder has asked each peer it saw a connection begin to and not end, then or later, unless it connected without a key and set no folder since |
| `Handler.AppState.constructor` | src/state.rs:89-111 | a started node knows the stored keys and nobody else |
| `Handler.AppState.LoadStoredKey` | src/sync/handler.rs:748-758 | a stored key is brought into memory, other peers are left alone |
| `Handler.AppState.SetPeerKey` | src/state.rs:132-137 | a key goes to the store and to memory |
| `Handler.AppState.ApprovePeer` | src/sync/handler.rs:95-128 | consumes the pending proposal, sets the key derived from what our secret and their public key agree on, and answers, as `Tofu.Approve`; other peers are left alone |
| `Handler.AppState.DenyPeer` | src/sync/handler.rs:155-168 | forgets the pending proposal of that peer only |
| `Handler.AppState.RevokeKey` | src/sync/handler.rs:301-312 | forgets the key of that peer in store and memory, and no other |
| `Handler.AppState.OnKeyExchangePropose` | src/sync/handler.rs:1085-1159 | re-keys a trusted peer at once with the derived key, keeps the proposal of a stranger for approval, as `Tofu.OnPropose` |
| `Handler.AppState.OnKeyExchangeAccept` | src/sync/handler.rs:1160-1200 | consumes the pending secret and sets the key derived with it, as `Tofu.OnAccept`; only as a response is it followed by a manifest request |
| `Handler.AppState.OnManifestRequest` | src/sync/handler.rs:828-851 | a command-line key is used for a peer without one, a generated key never is, and neither is stored |
| `Handler.AppState.SetFolder` | src/sync/handler.rs:220-249 | everyone connected is announced to and asked, and exactly they count as announced to |
| `Handler.AppState.OnConnectionEstablished` | src/sync/handler.rs:552-659 | the peer counts as connected, and as announced to if there is a folder; keys, announcement, manifest request and proposal as `Tofu.OnEstablished` and `Mesh.OnConnected` |
| `Handler.AppState.OnConnectionClosed` | src/sync/handler.rs:661-667 | that peer and no other stops counting as connected or announced to; all keys and pending exchanges stay |
| `Handler.AppState.OnFolderAnnouncement` | src/sync/handler.rs:761-826 | asks the peer, announces back at most once, asks the other keyed peers, as `Mesh.OnAnnouncement` |

## Left out

- Transport and user interface: swarm, mDNS, dialing, CBOR, GUI, WebSocket, HTTP, logging, command line; messages are values and each handler is one step.
- `TransferComplete`, `Ack`, `Empty` and error messages, the broadcast of status events, and the suppression sets for the watcher.
- `FileChanged`, `FileDeleted`, `SetVaultMode` and `DecryptFile`: other changes to the folder are the event `FolderChanged`, which may set it to anything.
- Choosing another folder, switching vault mode or changing a peer's key while downloads are active: folder, mode and key are fixed per connection in `Download.Config`.
- Directories, symlinks, permissions and path normalisation: a folder is a map from '/'-separated names to bytes. Names that are only reachable after normalisation are not told apart, and drive letters are not modelled.
- File-system failures: a container or staging file can always be created and written; a reassembly fails as a whole (`Env.failing`), a failed rename of a conflict copy or a failed write to the key store does not happen.
- Integer limits: chunk numbers are 32 bits wide in the encrypted protocol as in the code; the product of chunk number and chunk size and the sum of chunk sizes are not limited to 64 bits.
- `list_folder_all` and the legacy wrappers `process_chunk`, `get_chunk_modal` in vault mode: they repeat members that are modelled.
- The sort of the listing is modelled by inserting each name as the walk meets it; the result is determined by the set of names.
- Order of sending within one event of `Handler.AppState`: its outbox is a multiset. `Downloader.PeerDownload` keeps the order.
- Two connections to one peer at once, and the two sides seeing a disconnection at different moments, in `Tofu`: a session ends on both sides together. `Mesh` has no such restriction.
- NetStepSound: assumes replies labelled as requested, and so do the results about requests and progress; what the receiver keeps whatever the labels are is proved in TransferSafety.
- TransferDelivers: says what a run that comes to rest has achieved and HonestAnswersAreCounted that it does; that a request is answered eventually is up to the network.
- AbsentFilesArrive: leaves out listings in vault mode in which one name is that of another file's container, because the program takes that file to be there.
- KeyedExactlyByConsent: leaves out the key from the command line that a manifest request of a peer without a key makes the node use in memory; `Handler.AppState.OnManifestRequest` says what it does.
- WaitsOnlyForTheUser: leaves out messages lost within a session; StuckUntilNextSession says what follows.
- AgreementExactly: is about users who approve proposals of the session that is on; StaleApproval says what approving an earlier one does.
