# Shpiel: a verified model of its storage protocols

Shpiel is a self-hosted Hugging Face Hub: it keeps model repositories on a file system, in an OCI
registry or in a bucket, accepts Xet uploads, and copies commits to replicas. This project models
the parts of it whose correctness rests on an argument rather than on reading one function, and
proves that argument in Dafny.

| File | What it models |
|---|---|
| `Common.dfy`, `Decimal.dfy`, `StringOrder.dfy` | bytes, digests, little-endian and decimal numbers, Go's string order |
| `XetChunks.dfy` | the xorb grammar and its walker, byte-grouping-4, chunk decoding |
| `XetShard.dfy` | the two shard layouts and their parser |
| `XetReconstruct.dfy` | file records, whole-file reconstruction, the range planner and the client that follows it |
| `XetStore.dfy` | the order of object writes in the Xet store, under concurrency and stops |
| `ChunkedUpload.dfy` | the blob writer of the OCI client against a registry session that is strict about offsets |
| `RangedReader.dfy` | the lazy seekable readers over registry blobs and bucket objects |
| `FsSnapshots.dfy` | lock-free snapshot linking in the file system backend |
| `RelayCommit.dfy`, `RelayRuns.dfy` | one commit on a branch; any number of commits interleaved |
| `Replication.dfy`, `ReplicationRuns.dfy` | the replication queue and its jobs; whole runs with failures, crashes and restarts |
| `OciStaging.dfy`, `OciRuns.dfy`, `OciProperties.dfy`, `OciPromotion.dfy`, `OciRefs.dfy` | staging, publication, promotion and the blob index in an OCI repository, call by call and over whole runs |

## How things are modelled

* **Digests.** A digest is a value that carries the content it was computed from
  (`Common.Digest`), so the hash functions are injective and the two key spaces disjoint. "The
  window holds exactly the bytes whose sha256 is its key" is therefore a statement about bytes.
* **Encodings.** JSON texts, tar headers and trailers, and LZ4 are arbitrary function parameters;
  documents stored in a registry carry their decoded form. A minted commit id is modelled by what
  it is computed from: parent, tree and summary.
* **Imperative code** is a method or a class with loops, proved against a specification function
  or a direct statement; the lemmas are then about that function.
* **Concurrency** is a state machine whose steps are single file operations, registry calls or
  lock operations, of any number of threads. A run is a sequence of states from the initial one;
  every main result about it quantifies over all runs and all positions in them, so "stopping
  anywhere" is covered. Code under a lock keeps a list of requests it still has to make, so other
  threads' unlocked steps fall between any two of them.
* **History.** Some states carry a record that no step reads: the log of branch heads
  (`RelayRuns`), the jobs ever persisted, the groups that ever failed and those in which a spool
  failure was swallowed (`ReplicationRuns`), the refs recorded, kept and missed by stagings and
  whether a deletion stopped half-way (`OciRuns`), and the entries a failed read kept from being
  linked (`FsSnapshots`).
* **Failures** are steps of the machines: a call that fails, a process that stops, and a failure
  that the code swallows and goes on after. Where a promise depends on them, the runs take a
  parameter saying which failures may happen, and the result says for which it holds.
* **Time** is an integer that never goes back; ids drawn at random are fresh parameters.

## What the proofs found

Each of these says exactly when the code keeps a promise its documentation makes or a reader
would expect.

* `XetStore.StoreResolvableExactlyWhen`: a visible xorb agrees with its layout object in every
  reachable state exactly when two uploads under one xorb hash never have different layouts. The
  store does not check a xorb's hash against its bytes, so this rests on the caller.
* `XetReconstruct.HandlerPanicsExactlyWhen`: some request on a file record makes the
  reconstruction handler index outside a layout exactly when the record has a stray term: one
  whose `ChunkStart` is not below the chunk count, or whose `ChunkEnd` is zero, and that a range
  can come to. `StrayRecordPanics` is a one-term record for which a plain request does it.
  `PlanRange` says which answer every range gets. A file of length zero is answered 416 even
  without a Range header, and `ChunkStart >= ChunkEnd` inside the layout goes unnoticed.
* `RelayCommit.RetryConvergesExactlyWhen`: repeating a commit gives the same id and changes
  nothing exactly when the caller named no parent or the operations do not change the tree. The
  comment at `internal/relay/write.go:258-260` promises it for every retried commit.
* `ReplicationRuns.DrainsInOrderExactlyWhen`: the package comment
  (`internal/replication/replication.go:8-11`) says a newer commit can never be overtaken by an
  older one re-pointing a ref backwards. Every run that drains a group ends in the refs of the
  uninterrupted run exactly when no job of the group may fail and no failure to remove or to load
  one of its spool files may be swallowed. `OlderCommitCanWin` is the run after a failed job,
  `KeptFileRunsAgain` and `UnreadFileRunsLate` are runs in which no job fails; the guard at
  `claimDue` is in `HandedOutOldestExactlyWhen`. `TiesRunEitherWay` shows why creation times must
  differ within a group.
* `FsSnapshots.FullyLinkedExactlyWhen`: once all calls are over every snapshot entry is linked
  exactly when no call can fail, or its process stop, after publishing its manifest or blob, and
  no failing read that decides on linking is swallowed. A `PutBlob` that cannot read a manifest
  answers yes without linking it (`UnreadManifestStaysUnlinked`), and so does a `PutManifest` that
  cannot look at a blob (`UnseenBlobStaysUnlinked`). Repeating a `PutBlob` that failed or did not
  link does not help (`RetriedBlobStaysUnlinked`): a successful `PutBlob` leaves the entries of
  its digest linked exactly when those it did not read, or all of them if it saw the blob at its
  first look, were linked before (`FsBackend.PutBlob`).
* `OciPromotion.NothingCompleteStaysStagedExactlyWhen`: in tar-layers format no complete commit
  stays staged exactly when registry calls do not fail, and the process does not stop, between a
  `PutBlob`'s index update and the end of its promotion; failures elsewhere do no harm. After such
  a failure, repeating the `PutBlob` returns early (`FailedPromotionIsNotRetried`).
* `OciRefs.NothingLostExactlyWhen`: a staged tag lists every ref asked for since it appeared
  exactly when no staging fails to read its staged tag; such a failure is swallowed
  (`internal/backend/ocibackend/write.go:206`) and the earlier refs are lost
  (`UnreadStagingLosesRefs`).
* `OciRefs.DirectPublishTagsExactly`: a direct publication points only the refs it is given at
  the commit; `RekeyedCommitLosesRefs` is a run without failures in which a recorded ref is lost
  that way. `OciStaging.RefsSurviveExactlyWhen`: the annotation keeps the refs exactly when none
  contains a comma.

## Model

| member | source | states |
|---|---|---|
| XetChunks.WalkChunks | internal/xet/chunks.go:44-80 | succeeds exactly on one or more valid serialized chunks followed by nothing or a footer, and returns their layout; every rejection is the walker's first failing check |
| XetChunks.WalkAcceptsExactly | internal/xet/chunks.go:44-80 | the walker's answer and the grammar of a xorb agree in both directions, for every byte string |
| XetChunks.XorbReadingIsUnique | internal/xet/chunks.go:32-80 | a byte string has at most one reading as chunks and tail: the version byte keeps a footer from being read as a chunk header |
| XetChunks.WalkSerialized | internal/xet/chunks.go:44-80 | walking serialized chunks and any legal tail gives the contiguous layout of exactly those chunks |
| XetChunks.WalkParses | internal/xet/chunks.go:44-80 | whatever the walker accepts is the serialization of some valid chunks and a legal tail |
| XetChunks.Bg4Regroup | internal/xet/chunks.go:154-174 | computes the regrouping and writes every output position exactly once, for every length |
| XetChunks.Bg4RegroupSplit | internal/xet/chunks.go:151-174 | regrouping inverts the split into four byte planes, for every length and remainder |
| XetChunks.Bg4SplitRegroup | internal/xet/chunks.go:151-174 | splitting inverts regrouping, so the transform is a bijection on each length |
| XetChunks.DecodeEncoded | internal/xet/chunks.go:83-111 | decoding a chunk encoded under any of the three schemes gives the content back, for every compressor the decoder inverts |
| XetChunks.DecodesExactlyWhen | internal/xet/chunks.go:83-111 | a valid serialized chunk decodes to a content if and only if its declared length is the content's and its payload is the content in its scheme |
| XetChunks.DecodeChunkRange | internal/xet/chunks.go:115-133 | decodes the range, or stops at once for a bad range, or stops at the first chunk that does not decode to its declared length with exactly the chunks before it written |
| XetChunks.DecodeFromSplits | internal/xet/chunks.go:115-133 | decoding a chunk range is decoding any prefix of it and then the rest, errors included |
| XetChunks.DecodedLength | internal/xet/chunks.go:115-133 | a decoded range has the total of its chunks' declared lengths |
| XetShard.ParseShard | internal/xet/shard.go:72-117 | on every byte string terminates inside its bounds with the shard, or the error, that `ShardAcceptedExactlyWhen` and `HeaderErrors` say |
| XetShard.ParseFileSection | internal/xet/shard.go:121-175 | reads file records up to the bookend and reports how far it got, or the first error |
| XetShard.ParseFileAt | internal/xet/shard.go:121-175 | one file record with its terms, verification and metadata records, as its flags say |
| XetShard.ParseXorbSection | internal/xet/shard.go:178-212 | reads xorb records with their chunk hashes up to the bookend, or the first error |
| XetShard.ParseXorbAt | internal/xet/shard.go:178-212 | one xorb record and its chunk hashes |
| XetShard.FileRoundTrip | internal/xet/shard.go:121-175 | parsing a serialized file record gives the record and its exact length, whatever follows |
| XetShard.FilesRoundTrip | internal/xet/shard.go:121-175 | the same for a whole file section |
| XetShard.XorbRoundTrip | internal/xet/shard.go:178-212 | parsing a serialized xorb record gives the record and its exact length, whatever follows |
| XetShard.XorbsRoundTrip | internal/xet/shard.go:178-212 | the same for a whole xorb section |
| XetShard.SequentialRoundTrip | internal/xet/shard.go:72-117 | parsing inverts serializing in the layout without a footer |
| XetShard.FooteredRoundTrip | internal/xet/shard.go:72-117 | parsing inverts serializing in the footered layout, with any gap, lookup tables and footer fields around the sections |
| XetShard.ShardAcceptedExactlyWhen | internal/xet/shard.go:72-212 | for every byte string: it parses to a shard if and only if it is the magic tag and serializations of exactly that shard's file and xorb records, in one of the two layouts; whatever is parsed is a serialization, and nothing else is accepted |
| XetShard.HeaderErrors | internal/xet/shard.go:72-117 | each refusal for the header or the footer (too short, wrong tag, implausible or short footer, offsets out of order) is given if and only if that is so |
| XetReconstruct.RecordFromShardFile | internal/xet/service.go:292-306 | the record lists the shard file's terms in order, its length is their sum, and a zero sha256 is left out |
| XetReconstruct.Reconstruct | internal/xet/service.go:345-364 | writes the concatenation of the terms' bytes; on failure it has written exactly the terms before the first failing one and of that term the chunks before its first bad one |
| XetReconstruct.FailureSticks | internal/xet/service.go:345-364 | once a term fails, later terms do not change the outcome |
| XetReconstruct.EncodedFileReconstructs | internal/xet/service.go:345-364 | a file over xorbs that clients serialized, each chunk under any scheme, reconstructs to exactly the contents its terms name |
| XetReconstruct.ByteRangeRoundTrip | internal/xet/service.go:480-511 | a rendered byte range parses back, with its end clamped to the file and a start past the file refused |
| XetReconstruct.OpenRangeParses | internal/xet/service.go:480-511 | a range without an end asks for everything from its start on, and is refused if that is past the file |
| XetReconstruct.ByteRangeAcceptedExactlyWhen | internal/xet/service.go:480-511 | for any header: it is accepted, with this start and end, if and only if it is "bytes=", a number inside the file, the first dash, and nothing or a number not below it, clipped to the file |
| XetReconstruct.HandleReconstruction | internal/xet/service.go:400-478 | without a Range header the plan, if there is one, starts at offset 0 and lists every term that holds bytes, and on well-formed terms there is one exactly for a non-empty file; with a header, an unparsable range is a 416; otherwise plan, 416, 500 or out-of-range access exactly as `PlanRange` says for the range |
| XetReconstruct.PlanRange | internal/xet/service.go:416-476 | 416 if and only if no term is reached; 500 if and only if the first reached term that is not servable has no layout or ends past it; an out-of-range access if and only if that term starts past its layout or ends at zero; a plan otherwise, which is a good plan |
| XetReconstruct.HandlerPanicsExactlyWhen | internal/xet/service.go:416-511 | some request makes the handler index out of range if and only if the record has a stray term, a condition on the record and the layouts |
| XetReconstruct.StrayRecordPanics | internal/xet/service.go:416-476 | a one-term record whose chunk range starts at the end of its layout panics on a request without a range |
| XetReconstruct.BadTermAnswers | internal/xet/service.go:416-476 | a one-term record is a 500 if and only if the term has no layout or ends past it, and an out-of-range access if and only if it starts past it or ends at zero |
| XetReconstruct.FetchAgrees | internal/xet/service.go:440-462 | fetching and decoding a term's byte range in the xorb gives what whole-file reconstruction decodes for that term, and fails when it fails |
| XetReconstruct.DownloadedTerm | internal/xet/service.go:416-476 | every fetch entry a client may pick for a planned term leads to that term's bytes |
| XetReconstruct.PlanIsDownloadable | internal/xet/service.go:416-476 | the plan of a file that reconstructs can be followed |
| XetReconstruct.RangeAgrees | internal/xet/service.go:345-476 | whatever a client downloads by following the plan, minus the offset and cut to the range's length, is exactly that slice of the reconstructed file |
| XetReconstruct.WholeFileDownloads | internal/xet/service.go:345-476 | following the plan of a request without a range gives exactly the reconstructed file |
| XetReconstruct.PlannedLengths | internal/xet/service.go:416-476 | the length a plan declares for each term is the length of what the client downloads for it |
| XetReconstruct.PlanIsTight | internal/xet/service.go:416-476 | a term of positive length is in the plan exactly when it overlaps the range |
| XetStore.Store.PutXorb | internal/xet/store.go:101-121 | writes the layout and then the xorb, or nothing when the xorb is seen to be there or does not walk, and leaves every other object; a failing look counts as absent |
| XetStore.Store.PutFile | internal/xet/store.go:168-191 | writes the record and then, if there is one, the sha256 mapping; afterwards both are there and every other object is as before |
| XetStore.Store.PutDedupShard | internal/xet/store.go:211-226 | writes the shard and then one pointer per chunk, or nothing without chunks; afterwards exactly these chunks point at the shard's key and every other pointer is as before |
| XetStore.Store.DedupShard | internal/xet/store.go:231-241 | answers exactly the shard a chunk's pointer names, if both are there; in a store that keeps its promise that shard lists the chunk as eligible |
| XetStore.EligibleChunks | internal/xet/service.go:273-282 | the eligible ones among the chunk hashes of the shard's xorbs, in their order and as often as they occur |
| XetStore.EligibleBits | internal/xet/hash.go:55-66 | a hash is eligible if and only if the ten low bits of its last limb are zero |
| XetStore.EligibleSplits | internal/xet/service.go:273-282 | picking the eligible hashes of two lists one after the other is picking them from each |
| XetStore.ShardUploadApplied | internal/xet/service.go:254-285 | an uploaded shard's writes leave every record stored under its hash with its sha256 mapping, and every eligible chunk pointing at exactly these shard bytes |
| XetStore.OpWritesOrdered | internal/xet/store.go:101-226 | in each operation every write is ready at once or is made ready by an earlier write of the same operation |
| XetStore.RunKeepsInv | internal/xet/store.go:101-241 | over every interleaving, stopped anywhere: a visible xorb has its layout, a visible pointer resolves to a shard listing that eligible chunk, a sha256 mapping names a stored record |
| XetStore.TwoLayoutsCanClash | internal/xet/store.go:101-121 | two uploads under one hash with different layouts reach a state where the xorb and its layout object disagree |
| XetStore.StoreResolvableExactlyWhen | internal/xet/store.go:101-241 | every reachable state keeps the store's promise if and only if uploads under one xorb hash never differ in layout |
| ChunkedUpload.ChunkRangeRoundTrip | internal/fakeregistry/fakeregistry.go:287-298 | the registry's range parser reads back every range the client renders |
| ChunkedUpload.RangeAcceptedExactlyWhen | internal/fakeregistry/fakeregistry.go:287-298 | any text is accepted as a range if and only if it is two numbers in order around the first dash |
| ChunkedUpload.PatchAcceptedExactlyWhen | internal/fakeregistry/fakeregistry.go:117-198 | a ranged chunk is accepted if and only if it starts at the session's end and fills its range; otherwise the session is untouched |
| ChunkedUpload.PatchMeans | internal/fakeregistry/fakeregistry.go:117-138 | a PATCH without both headers appends; with both it appends if and only if its range starts at the session's end and has the declared length |
| ChunkedUpload.CreatedExactlyWhen | internal/fakeregistry/fakeregistry.go:140-173 | a session becomes a blob of these bytes if and only if the digest given is theirs and the session closes with them |
| ChunkedUpload.RefusedPutMeans | internal/fakeregistry/fakeregistry.go:140-173 | every other closing PUT: which status it gets and which session it leaves |
| ChunkedUpload.MixedFormRefused | internal/fakeregistry/fakeregistry.go:140-198 | a closing PUT with unranged data is refused once the session holds bytes |
| ChunkedUpload.Registry.Patch | internal/fakeregistry/fakeregistry.go:117-138 | status and session after a PATCH, for every combination of headers |
| ChunkedUpload.Registry.Put | internal/fakeregistry/fakeregistry.go:140-173 | status, session and blobs after a closing PUT; a blob appears only under the digest of its bytes |
| ChunkedUpload.BlobWriter.constructor | internal/ociclient/ociclient.go:368-380 | opens an empty session |
| ChunkedUpload.BlobWriter.Write | internal/ociclient/ociclient.go:383-396 | is never refused; session bytes followed by buffered bytes stay everything written |
| ChunkedUpload.BlobWriter.Flush | internal/ociclient/ociclient.go:398-434 | the buffered chunk is accepted and appended at the session's end |
| ChunkedUpload.BlobWriter.Commit | internal/ociclient/ociclient.go:439-471 | is never refused; returns the digest and length of everything written and stores exactly that |
| ChunkedUpload.Upload | internal/ociclient/ociclient.go:368-471 | for every sequence of writes and every positive chunk size the strict registry stores the concatenation under the returned digest, and no other blob or session changes |
| ChunkedUpload.PutBlob | internal/ociclient/ociclient.go:302-351 | a blob that is seen to be there is left alone; content of unknown size is stored under its own digest and accepted if and only if that is the one asked for; content of known size is accepted if and only if size and digest are right, and a content longer than its size may leave the blob behind if the bytes up to the size are it; no other blob changes |
| RangedReader.GetBlob | internal/ociclient/ociclient.go:249-296 | gives the bytes from the offset on whether the server honours, ignores or rejects open-ended ranges, and fails exactly past the end |
| RangedReader.LazyReader.Read | internal/backend/ocibackend/layer.go:172-192 | delivers the window's bytes at the position; end of file only at the window's end, never for a truncated blob |
| RangedReader.LazyReader.Seek | internal/s3client/ranged.go:57-78 | moves as an in-memory reader does, or is refused and stays |
| RangedReader.LazyReader.ReadFull | internal/s3client/ranged.go:32-55 | reading a full buffer gives what memory holds, however the network cuts the bytes up, and reports the end exactly when bytes are missing |
| RangedReader.SeekThenRead | internal/s3client/ranged.go:32-78 | after any calls and a seek to p from either end, a read of n bytes gives those at p, or all that are left |
| RangedReader.RunCalls | internal/backend/ocibackend/layer.go:172-215 | any sequence of reads and seeks gives the bytes, positions and ends of file of an in-memory reader over the window |
| FsSnapshots.FsBackend.PutManifest | internal/backend/fsbackend/fsbackend.go:156-205 | the whole new state and exactly when the call succeeds; after success each ref named is at the last commit given for it and every other stays; stopped by a bad ref, exactly the refs before it are written; nothing at all for an unsafe path |
| FsSnapshots.WrittenRefsMean | internal/backend/fsbackend/fsbackend.go:192-203 | writing refs in order until the first bad one applies exactly the updates before it, the last for each ref, and keeps every other ref |
| FsSnapshots.ValidRelPathMeans | internal/backend/fsbackend/fsbackend.go:387-401 | a path is safe if and only if it has no backslash and is a joining of pieces without slashes, none empty, "." or ".." |
| FsSnapshots.FsBackend.PutBlob | internal/backend/fsbackend/fsbackend.go:235-265 | a blob seen at the first look is left alone; a mismatch or a wrong size changes nothing; otherwise the blob is stored and linked in every manifest that can be read; after success all entries of the digest are linked if and only if those of the manifests it did not read were linked before |
| FsSnapshots.FsBackend.LinkBlobIntoSnapshots | internal/backend/fsbackend/fsbackend.go:311-338 | exactly the entries of readable manifests that name the digest are linked to it, in whatever order manifests are visited; the others are passed over without an error |
| FsSnapshots.LinkHeldExactly | internal/backend/fsbackend/fsbackend.go:174-190 | PutManifest links each path to its last entry whose blob it finds and leaves every other link; a failing look finds nothing |
| FsSnapshots.RunKeepsInv | internal/backend/fsbackend/fsbackend.go:174-338 | at every step, whatever fails, each entry whose manifest and blob are stored is linked, or a swallowed read missed it, or some call still owes the link |
| FsSnapshots.QuietMeansLinked | internal/backend/fsbackend/fsbackend.go:174-338 | without any lock, once every call is over every stored entry whose blob is stored and that no swallowed read missed is linked, and to that blob when paths are distinct |
| FsSnapshots.NothingMissed | internal/backend/fsbackend/fsbackend.go:174-338 | over every run in which no read that decides on linking fails, nothing is missed |
| FsSnapshots.LinksNeverDangle | internal/backend/fsbackend/fsbackend.go:281-338 | at every step, whatever fails, a link leads from an entry of a stored manifest to its stored blob |
| FsSnapshots.RetriedBlobStaysUnlinked | internal/backend/fsbackend/fsbackend.go:235-265 | a run in which a PutBlob that fails after its rename leaves an entry of any manifest unlinked and its repetition does not link it |
| FsSnapshots.UnreadManifestStaysUnlinked | internal/backend/fsbackend/fsbackend.go:311-338 | a run in which no call fails, a PutBlob cannot read a manifest and answers yes, and neither it nor its repetition links the entry |
| FsSnapshots.UnseenBlobStaysUnlinked | internal/backend/fsbackend/fsbackend.go:174-190 | a run in which no call fails and a PutManifest that cannot look at a stored blob leaves its file unlinked |
| FsSnapshots.FullyLinkedExactlyWhen | internal/backend/fsbackend/fsbackend.go:174-338 | every state in which all calls are over, with success or error, is fully linked if and only if no call may fail after publishing and no failing read that decides on linking is swallowed |
| FsSnapshots.SoloPutManifest | internal/backend/fsbackend/fsbackend.go:156-205 | undisturbed and with every look working, the machine's steps of a PutManifest make exactly the links of the method |
| FsSnapshots.SoloPutBlob | internal/backend/fsbackend/fsbackend.go:235-338 | undisturbed, with every read working and for every listing of the manifests, the machine's steps of a PutBlob make exactly the links of the method |
| RelayCommit.BuildTree | internal/relay/write.go:193-256 | the map of files and the stored blobs after the loops, and exactly the LFS paths whose blob is missing |
| RelayCommit.DeletePaths | internal/relay/write.go:197-207 | exactly the named files and everything under the named folders are gone |
| RelayCommit.DeletedMeans | internal/relay/write.go:197-207 | a path is deleted if and only if it is named or lies under a named folder, with or without a slash at the folder's end |
| RelayCommit.SortedEntries | internal/relay/write.go:252-256 | the entries in path order |
| RelayCommit.SameTree | internal/relay/write.go:285-295 | true exactly for equal lists |
| RelayCommit.Relay.Commit | internal/relay/write.go:168-282 | answer and new state for every branch of the call |
| RelayCommit.ListingRestores | internal/relay/write.go:193-256 | a sorted tree read back into a map is the map it was listed from |
| RelayCommit.NewTreeIdempotent | internal/relay/write.go:193-256 | applying operations to their own result changes nothing |
| RelayCommit.CommitTree | internal/relay/write.go:193-282 | a successful commit's tree is strictly sorted and is exactly the parent minus deleted paths, overlaid by inline and then LFS files |
| RelayCommit.CommittedContent | internal/relay/write.go:193-256 | entry by entry: the last LFS file of a path, else its last inline content under its own length and sha256, else the parent's entry if nothing deletes it; every entry that is not the parent's has its content stored |
| RelayCommit.CommitFrame | internal/relay/write.go:168-282 | a refused commit and one that changes nothing move nothing; any other moves its branch alone, to a new id over parent, tree and summary, and queues exactly that |
| RelayCommit.RefusedExactlyWhen | internal/relay/write.go:168-250 | each refusal, and success, exactly when: a commit id, no such branch, another parent, an LFS file neither uploaded nor among the inline contents |
| RelayCommit.RetryConvergesExactlyWhen | internal/relay/write.go:181-263 | repeating a successful commit answers the same id and changes nothing if and only if it named no parent or its operations leave the tree as it is; otherwise it is a parent mismatch |
| RelayRuns.RunKeepsInv | internal/relay/write.go:168-306 | under the repo lock the holder's view of head and parent tree stays true until it writes |
| RelayRuns.EveryRunIsSerial | internal/relay/write.go:168-306 | in any interleaving, failures anywhere: each new head is its caller's operations on the immediately previous head, every commit answered and every refusal has its reason in the log, and fan-out jobs are queued in the order of the heads |
| RelayRuns.NoCommitIsLost | internal/relay/write.go:168-306 | a branch's stored tree is the starting tree with every logged commit's operations applied in order |
| RelayRuns.SoloIsCommit | internal/relay/write.go:168-282 | undisturbed, the machine's steps do exactly what Commit does |
| Replication.Queue.constructor | internal/replication/replication.go:93-128 | the queue opens with every readable spooled job due at once and nothing in flight |
| Replication.Queue.LoadSpool | internal/replication/replication.go:141-167 | exactly the readable spool files become jobs |
| Replication.Queue.Enqueue | internal/replication/replication.go:185-210 | the targets before the first failed write are spooled and queued, the others are not |
| Replication.NewJobsAt | internal/replication/replication.go:185-210 | each target gets a job of its own under its own id, due at once and never tried |
| Replication.Queue.ClaimDue | internal/replication/replication.go:278-302 | hands out a due job of an idle group than which no such job is older, or says that no job is due in an idle group |
| Replication.Queue.Finish | internal/replication/replication.go:327-356 | memory and spool after success, failure and shutdown, and when the file cannot be removed or rewritten, which the call survives |
| Replication.FailedJobWaits | internal/replication/replication.go:345-349 | a failed job is the same job tried once more and due after its backoff |
| Replication.BackoffDoubles | internal/replication/replication.go:347-348 | the wait doubles with each failed attempt, up to the sixteenth and up to the cap |
| Replication.Queue.RetryNow | internal/replication/replication.go:417-430 | every waiting job becomes due, and the count is of those that were not |
| Replication.RunJob | internal/replication/replication.go:358-404 | the replica and the verdict after a job, unknown backends and equal source and target included; a copied commit is the source's with all its blobs, each ref of the job is at its commit and every other ref and manifest as before; a deletion leaves nothing; no other backend changes |
| Replication.JobAchieves | internal/replication/replication.go:358-404 | the same about the specification, success exactly when the source has the commit and every blob can be copied |
| Replication.CopiesExactlyWhen | internal/replication/replication.go:379-412 | copying succeeds if and only if each blob is held, was copied just before, or is at the source with the declared size |
| Replication.CopyBlobsAddsPrefix | internal/replication/replication.go:379-412 | copying adds exactly the blobs of a prefix of the manifest, all of them on success, and stops at a file that cannot be copied |
| Replication.JobTwice | internal/replication/replication.go:358-404 | running a completed job again with no other job in between changes nothing |
| ReplicationRuns.OneJobPerGroup | internal/replication/replication.go:245-356 | at every step at most one job of a (target, kind, repo) group is claimed or running |
| ReplicationRuns.SoloIsRunJob | internal/replication/replication.go:358-404 | undisturbed, a worker's steps in the machine leave its replica exactly as RunJob does, on success and on failure |
| ReplicationRuns.NoOvertaking | internal/replication/replication.go:278-302 | when a job is handed out every older job queued in its group has failed before |
| ReplicationRuns.ReplicaIsComplete | internal/replication/replication.go:358-413 | over any run of commit and delete jobs with failures, retries and crashes, a stored manifest has all its blobs |
| ReplicationRuns.SpoolIsTheRest | internal/replication/replication.go:141-229 | if no job of a group has failed and no failure to remove or load one of its files was swallowed, its spool files are at every step a suffix of the jobs persisted, and running them from here ends in the refs of an uninterrupted run |
| ReplicationRuns.DrainedRefs | internal/replication/replication.go:141-229 | once nothing is spooled for such a group, crashes and restarts have left no trace in its refs |
| ReplicationRuns.PartialThenWhole | internal/replication/replication.go:358-404 | however far a job got with the refs, running it again ends where it would have ended |
| ReplicationRuns.TiesRunEitherWay | internal/replication/replication.go:278-302 | of two due jobs created at one instant either may be handed out |
| ReplicationRuns.OlderCommitCanWin | internal/replication/replication.go:278-356 | a run in which, after one failure, the older commit of a ref has the last word |
| ReplicationRuns.KeptFileRunsAgain | internal/replication/replication.go:231-356 | a run without failing jobs in which a completed older commit's file cannot be removed and, after a restart, has the last word |
| ReplicationRuns.UnreadFileRunsLate | internal/replication/replication.go:141-167 | a run without failing jobs in which one process cannot read the older commit's file, the next one can, and it has the last word |
| ReplicationRuns.DrainsInOrderExactlyWhen | internal/replication/replication.go:141-413 | every run that drains a group, whatever crashes and retries it saw, ends in the refs of the uninterrupted run if and only if no job of the group may fail and no failure to remove or load one of its spool files may be swallowed |
| ReplicationRuns.HandedOutOldestExactlyWhen | internal/replication/replication.go:278-302 | the job handed out is the oldest queued of its group if and only if no older one is waiting for its next try |
| OciStaging.RefsSurviveExactlyWhen | internal/backend/ocibackend/write.go:203-253 | reading the refs annotation back gives the recorded refs if and only if none holds a comma |
| OciStaging.EntryHolds | internal/backend/ocibackend/layer.go:23-72 | the recorded window of a tar layer is exactly the content |
| OciStaging.LocatedExactlyWhen | internal/backend/ocibackend/write.go:73-130 | a file is located if and only if it is keyed by the sha256 of a content that is a blob (modelpack) or in the index (tar-layers) |
| OciStaging.LayersMatch | internal/backend/ocibackend/write.go:73-130 | a complete manifest has one layer per file, in order, where that file's content was located |
| OciStaging.NothingMissing | internal/backend/ocibackend/write.go:73-130 | nothing is reported missing if and only if every file is located |
| OciStaging.Backend.LayersFor | internal/backend/ocibackend/write.go:73-130 | missing paths and layers in both formats |
| OciStaging.Backend.Publish | internal/backend/ocibackend/write.go:133-198 | makes the pushes, the commit tag, the ref tags and the drop of the staged tag, in that order |
| OciStaging.Backend.Stage | internal/backend/ocibackend/write.go:203-238 | records the commit with the refs given and, if the staged tag can be read, those recorded before; a failing read is taken for a missing tag |
| OciStaging.Backend.MergeRefs | internal/backend/ocibackend/write.go:240-253 | the non-empty names of both lists, sorted, each once |
| OciStaging.Backend.PutOrStage | internal/backend/ocibackend/write.go:55-69 | publishes exactly when nothing is missing |
| OciStaging.Backend.PutManifest | internal/backend/ocibackend/write.go:24-51 | applies only the refs that point at this commit |
| OciStaging.Backend.PromoteStaged | internal/backend/ocibackend/write.go:257-298 | publishes each staged commit that can be read and is complete when its turn comes, and clears the pending flag exactly when no readable one was left |
| OciStaging.Backend.CheckPending | internal/backend/ocibackend/write.go:302-322 | true exactly when the flag is set or a listing succeeds and something is staged |
| OciStaging.Backend.PutBlob | internal/backend/ocibackend/write.go:423-485 | all three phases with nobody in between, in both formats: yes if and only if the content was there or the data is the content asked for in the length declared; after a yes it is in the registry, as a blob or by an index entry whose stored layer holds it; no entry or blob is lost, and a refusal touches no tag |
| OciStaging.UploadedExactly | internal/backend/ocibackend/write.go:444-476 | which uploads are accepted or refused and why, and what each leaves in the registry |
| OciStaging.Backend.SaveIndex | internal/backend/ocibackend/layer.go:132-157 | tags the new index after its blobs are pushed |
| OciStaging.Backend.DeleteRepo | internal/backend/ocibackend/ocibackend.go:200-221 | exactly the commit, ref, staged and index tags whose deletion fails remain, blobs stay, and the answer says whether any did |
| OciProperties.ResolvedRefIsFound | internal/backend/ocibackend/ocibackend.go:224-278 | whatever ResolveRef answers is a commit GetManifest finds, and the manifest found is that commit's, unless a DeleteRepo is under way or stopped half-way |
| OciStaging.ResolvesExactlyWhen | internal/backend/ocibackend/ocibackend.go:224-278 | a commit id resolves, to itself, if and only if it is published or staged, and any other name if and only if it has a ref tag, to that tag's commit |
| OciRuns.RunIsSound | internal/backend/ocibackend/write.go:55-485 | at every step, registry failures and process restarts included, index, tags, and the requests a lock holder still has to make are sound |
| OciProperties.EntriesAreExact | internal/backend/ocibackend/write.go:433-466 | every index entry's window holds exactly the bytes whose sha256 is its key |
| OciProperties.EntriesNeverLost | internal/backend/ocibackend/write.go:433-466 | entries never change and only DeleteRepo takes any away |
| OciProperties.TagsAreComplete | internal/backend/ocibackend/write.go:133-298 | at every step each commit tag and ref tag describes a commit all of whose file layers are in the registry with the right content |
| OciProperties.RefsStandBesideCommits | internal/backend/ocibackend/write.go:133-298 | at every step each ref tag's commit has its commit tag, unless a DeleteRepo is under way or stopped half-way |
| OciPromotion.NothingCompleteStaysStaged | internal/backend/ocibackend/write.go:257-470 | tar-layers, failures anywhere but between an index update and the end of its promotion: whenever the repo lock is free every staged commit still has a file not keyed by sha256 or not indexed, and a staged commit is never hidden from the look for promotion work |
| OciPromotion.NothingCompleteStaysStagedExactlyWhen | internal/backend/ocibackend/write.go:257-470 | that holds in every run, whatever else fails, if and only if registry calls do not fail there |
| OciPromotion.StoredContentIsFound | internal/backend/ocibackend/write.go:433-470 | concurrent PutBlobs never lose each other's entries: without DeleteRepo a content whose PutBlob answered yes is in the index |
| OciPromotion.ModelPackContentIsStored | internal/backend/ocibackend/write.go:472-484 | modelpack, over every run, failures and deletions included: a PutBlob that answered yes or is past its upload has its content in the registry |
| OciPromotion.FailedPromotionIsNotRetried | internal/backend/ocibackend/write.go:433-470 | a run in which a failed promotion leaves a complete commit staged and the repeated PutBlob answers yes without promoting it |
| OciRefs.AnnotationIsTheRecord | internal/backend/ocibackend/write.go:203-238 | whatever fails, a staged tag's annotation is the union of the refs its stagings were given since one last failed to read the tag, and of all of them if none did |
| OciRefs.UnreadStagingLosesRefs | internal/backend/ocibackend/write.go:203-238 | a run in which a staging cannot read its tag, every call answers yes, and the earlier ref is gone from the annotation |
| OciRefs.NothingLostExactlyWhen | internal/backend/ocibackend/write.go:203-238 | in every run every staged tag lists every ref recorded for it if and only if no staging fails to read its staged tag |
| OciRefs.PromotionTagsEveryRecordedRef | internal/backend/ocibackend/write.go:257-298 | when a promotion drops a staged tag the commit has its tag and every ref of its annotation, all recorded ones unless a staging missed some, points at it |
| OciRefs.PromotionTagsOnlyRecordedRefs | internal/backend/ocibackend/write.go:257-298 | a promotion writes no ref that its stagings had not recorded |
| OciRefs.PublishEffect | internal/backend/ocibackend/write.go:133-198 | the registry after a publication: commit, given refs, staged tag gone, index untouched, and the manifest's own documents pushed |
| OciRefs.PublishedExactlyWhen | internal/backend/ocibackend/write.go:24-69 | a commit is published if and only if all its files are located; otherwise it is staged and no published commit or ref changes |
| OciRefs.PromotedMeans | internal/backend/ocibackend/write.go:257-298 | of the staged commits it can read, promotion publishes each complete one under its own id and drops its tag, leaves every other as it was, changes no other commit, and clears the flag unless one was left |
| OciRefs.DirectPublishTagsExactly | internal/backend/ocibackend/write.go:55-69 | after a direct publication a ref is at the commit if and only if it was given or was there before |
| OciRefs.RekeyedCommitLosesRefs | internal/backend/ocibackend/write.go:55-69 | a run without failures in which a commit staged under one ref is published directly under another and the first ref is never tagged |

## Left out

- HTTP handlers' headers and JSON shapes, metrics, audit, configuration, admin and web pages: plumbing.
- Tokens, request signing and registry authentication: cryptographic or network clients.
- LZ4, sha256, sha1, JSON, tar and regular expressions: library code, present only as parameters or injective values; an image config and a manifest layer are opaque blobs.
- The 64 MiB and 256 MiB limits on decoding registry documents; a staged document that does not decode counts as one that cannot be read.
- Modelpack promotion under concurrency: its upload and its look for pending work are outside the lock; the machine takes these steps and keeps every tag complete, but nothing is claimed about commits left staged.
- The mapping of refs to tags (`tagForRef`), which is not injective: refs are assumed distinct after it and clear of the reserved tags, which is why commits, refs, staged commits and the index are separate maps.
- Registry garbage collection and tag immutability; two Shpiel processes on one repository.
- Pull-through fetching and the sharing of one fetch between readers.
- The remove, symlink, hard link and copy fallback inside one link: it is one atomic step.
- Isolation between repositories whose names collide after mapping: each model is of one repository; the replication machine has one store per target, kind and repository.
- Git object ids and LFS pointer texts of tree entries, and client-declared LFS sizes, which the relay does not compare with the stored blob.
- The verification of sha1 (git blob) contents in the file system backend: a digest either matches its content or does not.
- Wake-ups and delays of the replication worker, its limit on workers, and the text of the last error; a spool directory that cannot be listed, with which the process does not start.
- Replacement of a bucket object while it is being read.
- RelayCommit.Relay.Commit: assumes that commit ids of different parents, trees or summaries differ, which the rendered text does not guarantee for a summary with line breaks, and describes a tree entry by path, size and digest only.
- ReplicationRuns.SpoolIsTheRest: assumes, like ReplicationRuns.DrainsInOrderExactlyWhen, a clock that does not go back and creation times that strictly increase within a group, since jobs created at one instant may run in either order; that a spool always drains is not claimed.
- ReplicationRuns.ReplicaIsComplete: takes a repository's deletion on a replica as one step and the queue as the only writer.
- FsSnapshots.QuietMeansLinked: assumes one manifest content per commit and no deletion; calls that failed after publishing do not count as over and entries that a swallowed read missed are excepted; FsSnapshots.FullyLinkedExactlyWhen counts them.
- OciStaging.Backend.PutBlob: takes the look for an existing modelpack blob as working; when it fails the code uploads the blob once more.
- OciPromotion.NothingCompleteStaysStaged: assumes no registry failure or process stop between an index update and the end of its promotion, the condition OciPromotion.NothingCompleteStaysStagedExactlyWhen shows to be necessary.
- OciRefs.PromotionTagsEveryRecordedRef: assumes refs without commas; a later promotion may point a ref back at an older commit, so nothing is claimed about the latest one.
- XetReconstruct.RangeAgrees: assumes well-formed terms whose declared lengths are those of their chunks, and a file that reconstructs.
- XetShard.FooteredRoundTrip: covers files of up to 2^20 terms and xorbs of up to 2^20 chunks whose hashes are not all ones, the parser's own limits.
- XetStore.RunKeepsInv: assumes for each xorb hash one layout, the condition that XetStore.StoreResolvableExactlyWhen shows to be necessary.
