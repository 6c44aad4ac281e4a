/** The xet store: write orders that keep every visible object resolvable, under any
    interleaving of writers and after a stop between any two writes (internal/xet/store.go). */
module XetStore {
  import opened Common
  import opened XetChunks
  import opened XetShard
  import opened XetReconstruct

  const GLOBAL_DEDUP_MODULUS := 1024

  predicate GlobalDedupEligible(h: Hash) {
    LittleEndian(h[24..32]) % GLOBAL_DEDUP_MODULUS == 0
  }

  /** The last eight bytes are a little-endian number: eligible means its ten low bits are zero. */
  lemma EligibleBits(h: Hash)
    ensures GlobalDedupEligible(h) <==> h[24] == 0 && h[25] % 4 == 0
  {
    var b := h[24..32];
    var rest := LittleEndian(b[1..][1..]);
    assert LittleEndian(b) == b[0] + 256 * LittleEndian(b[1..]) && LittleEndian(b[1..]) == b[1] + 256 * rest;
    TenLowBits(b[0], b[1], rest);
    hide LittleEndian;
  }

  lemma TenLowBits(low: Byte, mid: Byte, rest: nat)
    ensures var n: nat := low + 256 * (mid + 256 * rest);
            n % GLOBAL_DEDUP_MODULUS == 0 <==> low == 0 && mid % 4 == 0
  {
    var l: int, m: int := low, mid;
    assert l + 256 * (m + 256 * rest) == l + 256 * (m % 4) + 1024 * (m / 4 + 64 * rest);
  }

  /** The store's objects by key family. Shards are keyed by the sha256 of their bytes. */
  datatype Objects = Objects(
    xorbs: map<Hash, Bytes>,
    layouts: map<Hash, seq<ChunkInfo>>,
    files: map<Hash, FileRecord>,
    shas: map<Hash, Hash>,
    shards: map<Digest, Bytes>,
    chunkIndex: map<Hash, Digest>)

  const EMPTY := Objects(map[], map[], map[], map[], map[], map[])

  /** One atomic object write. */
  datatype Write =
    | WriteLayout(h: Hash, layout: seq<ChunkInfo>)
    | WriteXorb(h: Hash, data: Bytes)
    | WriteFile(h: Hash, rec: FileRecord)
    | WriteSha(sha: Hash, file: Hash)
    | WriteShard(data: Bytes)
    | WritePointer(chunk: Hash, key: Digest)

  function Apply(o: Objects, w: Write): Objects {
    match w
    case WriteLayout(h, layout) => o.(layouts := o.layouts[h := layout])
    case WriteXorb(h, data) => o.(xorbs := o.xorbs[h := data])
    case WriteFile(h, rec) => o.(files := o.files[h := rec])
    case WriteSha(sha, file) => o.(shas := o.shas[sha := file])
    case WriteShard(data) => o.(shards := o.shards[Sha256(data) := data])
    case WritePointer(chunk, key) => o.(chunkIndex := o.chunkIndex[chunk := key])
  }

  function ApplyAll(o: Objects, ws: seq<Write>): Objects
    decreases |ws|
  {
    if ws == [] then o else ApplyAll(Apply(o, ws[0]), ws[1..])
  }

  lemma {:induction false} ApplyAllSplits(o: Objects, a: seq<Write>, b: seq<Write>)
    ensures ApplyAll(o, a + b) == ApplyAll(ApplyAll(o, a), b)
    decreases |a|
  {
    if a == [] {
      assert a + b == b;
    } else {
      assert (a + b)[1..] == a[1..] + b;
      ApplyAllSplits(Apply(o, a[0]), a[1..], b);
    }
  }

  lemma ApplyLast(o: Objects, ws: seq<Write>, w: Write)
    ensures ApplyAll(o, ws + [w]) == Apply(ApplyAll(o, ws), w)
  {
    ApplyAllSplits(o, ws, [w]);
    assert [w][1..] == [];
  }

  lemma ApplyTwo(o: Objects, a: Write, b: Write)
    ensures ApplyAll(o, [a, b]) == Apply(Apply(o, a), b)
  {
    assert [a, b][1..] == [b] && [b][1..] == [];
    assert ApplyAll(Apply(o, a), [b]) == ApplyAll(Apply(Apply(o, a), b), []);
  }

  // ---------------------------------------------------------------- the writes of each operation

  /** Layout first, so a visible xorb has its layout. A xorb that does not walk is refused. */
  function XorbWrites(h: Hash, data: Bytes): seq<Write> {
    match WalkResult(data)
    case Err(_) => []
    case Ok(layout) => [WriteLayout(h, layout), WriteXorb(h, data)]
  }

  function FileWrites(rec: FileRecord): seq<Write> {
    [WriteFile(rec.fileHash, rec)] + if rec.sha256.Some? then [WriteSha(rec.sha256.value, rec.fileHash)] else []
  }

  function PointerWrites(key: Digest, chunks: seq<Hash>): (r: seq<Write>)
    ensures |r| == |chunks|
    ensures forall i :: 0 <= i < |chunks| ==> r[i] == WritePointer(chunks[i], key)
  {
    if chunks == [] then [] else PointerWrites(key, chunks[..|chunks| - 1]) + [WritePointer(chunks[|chunks| - 1], key)]
  }

  /** Shard first, then the chunk pointers, so a visible pointer resolves. */
  function DedupWrites(shard: Bytes, chunks: seq<Hash>): seq<Write> {
    if chunks == [] then [] else [WriteShard(shard)] + PointerWrites(Sha256(shard), chunks)
  }

  /** The shard's xorbs list this chunk. */
  predicate Lists(shard: Shard, chunk: Hash) {
    exists i :: 0 <= i < |shard.xorbs| && chunk in shard.xorbs[i].chunkHashes
  }

  predicate ListsEligible(data: Bytes, chunk: Hash) {
    GlobalDedupEligible(chunk) && ShardResult(data).Ok? && Lists(ShardResult(data).value, chunk)
  }

  /** The chunk hashes of the xorbs, one after the other. */
  function ChunkHashes(xorbs: seq<ShardXorb>): seq<Hash> {
    if xorbs == [] then [] else ChunkHashes(xorbs[..|xorbs| - 1]) + xorbs[|xorbs| - 1].chunkHashes
  }

  /** The eligible ones, in the same order and as often as they occur. */
  function Eligible(hashes: seq<Hash>): seq<Hash> {
    if hashes == [] then []
    else
      var last := hashes[|hashes| - 1];
      Eligible(hashes[..|hashes| - 1]) + if GlobalDedupEligible(last) then [last] else []
  }

  lemma {:induction false} InChunkHashes(xorbs: seq<ShardXorb>, c: Hash)
    ensures c in ChunkHashes(xorbs) <==> exists i :: 0 <= i < |xorbs| && c in xorbs[i].chunkHashes
  {
    if xorbs != [] {
      var n := |xorbs| - 1;
      InChunkHashes(xorbs[..n], c);
      assert forall i :: 0 <= i < n ==> xorbs[..n][i] == xorbs[i];
    }
  }

  lemma {:induction false} InEligible(hashes: seq<Hash>, c: Hash)
    ensures c in Eligible(hashes) <==> GlobalDedupEligible(c) && c in hashes
  {
    hide GlobalDedupEligible;
    if hashes != [] {
      var n := |hashes| - 1;
      InEligible(hashes[..n], c);
      assert hashes == hashes[..n] + [hashes[n]];
    }
  }

  /** The eligible hashes keep the order of the list, ... */
  lemma {:induction false} EligibleSplits(a: seq<Hash>, b: seq<Hash>)
    ensures Eligible(a + b) == Eligible(a) + Eligible(b)
  {
    hide GlobalDedupEligible;
    if b == [] {
      assert a + b == a;
    } else {
      var n := |b| - 1;
      assert (a + b)[..|a| + n] == a + b[..n];
      EligibleSplits(a, b[..n]);
    }
  }

  lemma EligibleOne(h: Hash)
    ensures Eligible([h]) == if GlobalDedupEligible(h) then [h] else []
  {
    assert [h][..0] == [];
  }

  /** ... which has the chunks of one xorb after those of the ones before it. */
  lemma {:induction false} ChunkHashesSplit(a: seq<ShardXorb>, b: seq<ShardXorb>)
    ensures ChunkHashes(a + b) == ChunkHashes(a) + ChunkHashes(b)
  {
    if b == [] {
      assert a + b == a;
    } else {
      var n := |b| - 1;
      assert (a + b)[..|a| + n] == a + b[..n];
      ChunkHashesSplit(a, b[..n]);
    }
  }

  lemma ChunkHashesOne(x: ShardXorb)
    ensures ChunkHashes([x]) == x.chunkHashes
  {
    assert [x][..0] == [];
  }

  lemma EligibleGrows(before: seq<Hash>, hashes: seq<Hash>, j: nat)
    requires j < |hashes|
    ensures Eligible(before + hashes[..j + 1]) ==
            Eligible(before + hashes[..j]) + if GlobalDedupEligible(hashes[j]) then [hashes[j]] else []
  {
    hide GlobalDedupEligible;
    assert (before + hashes[..j + 1])[..|before| + j] == before + hashes[..j];
  }

  lemma EligibleInShard(shard: Shard)
    ensures forall c :: c in Eligible(ChunkHashes(shard.xorbs)) <==> GlobalDedupEligible(c) && Lists(shard, c)
  {
    hide GlobalDedupEligible, Eligible, ChunkHashes;
    forall c ensures c in Eligible(ChunkHashes(shard.xorbs)) <==> GlobalDedupEligible(c) && Lists(shard, c) {
      InEligible(ChunkHashes(shard.xorbs), c);
      InChunkHashes(shard.xorbs, c);
    }
  }

  method EligibleChunks(shard: Shard) returns (eligible: seq<Hash>)
    ensures eligible == Eligible(ChunkHashes(shard.xorbs))
    ensures forall c :: c in eligible <==> GlobalDedupEligible(c) && Lists(shard, c)
  {
    hide GlobalDedupEligible, Lists;
    EligibleInShard(shard);
    eligible := [];
    for i := 0 to |shard.xorbs|
      invariant eligible == Eligible(ChunkHashes(shard.xorbs[..i]))
    {
      ghost var before := ChunkHashes(shard.xorbs[..i]);
      var hashes := shard.xorbs[i].chunkHashes;
      assert before + hashes[..0] == before;
      for j := 0 to |hashes|
        invariant eligible == Eligible(before + hashes[..j])
      {
        hide Eligible, ChunkHashes;
        EligibleGrows(before, hashes, j);
        if GlobalDedupEligible(hashes[j]) {
          eligible := eligible + [hashes[j]];
        }
      }
      assert hashes[..|hashes|] == hashes && shard.xorbs[..i + 1][..i] == shard.xorbs[..i];
    }
    assert shard.xorbs[..|shard.xorbs|] == shard.xorbs;
  }

  /** The given chunks point at key, and every other pointer stays. */
  ghost predicate PointAt(index: map<Hash, Digest>, index': map<Hash, Digest>, chunks: seq<Hash>, key: Digest) {
    && (forall c :: c in index' <==> c in index || c in chunks)
    && (forall c :: c in index' ==> index'[c] == if c in chunks then key else index[c])
  }

  lemma PointOneMore(index: map<Hash, Digest>, index': map<Hash, Digest>, chunks: seq<Hash>, c: Hash, key: Digest)
    requires PointAt(index, index', chunks, key)
    ensures PointAt(index, index'[c := key], chunks + [c], key)
  {
  }

  lemma {:induction false} PointersApplied(o: Objects, key: Digest, chunks: seq<Hash>)
    ensures var o' := ApplyAll(o, PointerWrites(key, chunks));
            o' == o.(chunkIndex := o'.chunkIndex) && PointAt(o.chunkIndex, o'.chunkIndex, chunks, key)
  {
    hide PointAt;
    if chunks == [] {
      assert PointAt(o.chunkIndex, o.chunkIndex, [], key) by { NothingPoints(o.chunkIndex, key); }
    } else {
      var n := |chunks| - 1;
      var o1 := ApplyAll(o, PointerWrites(key, chunks[..n]));
      PointersApplied(o, key, chunks[..n]);
      ApplyLast(o, PointerWrites(key, chunks[..n]), WritePointer(chunks[n], key));
      assert PointerWrites(key, chunks) == PointerWrites(key, chunks[..n]) + [WritePointer(chunks[n], key)];
      hide ApplyAll, PointerWrites;
      PointOneMore(o.chunkIndex, o1.chunkIndex, chunks[..n], chunks[n], key);
      assert chunks == chunks[..n] + [chunks[n]];
    }
  }

  lemma NothingPoints(index: map<Hash, Digest>, key: Digest)
    ensures PointAt(index, index, [], key)
  {
  }

  lemma DedupApplied(o: Objects, shard: Bytes, chunks: seq<Hash>)
    ensures var o' := ApplyAll(o, DedupWrites(shard, chunks));
            (chunks == [] ==> o' == o) &&
            (chunks != [] ==>
               o' == o.(shards := o.shards[Sha256(shard) := shard], chunkIndex := o'.chunkIndex) &&
               PointAt(o.chunkIndex, o'.chunkIndex, chunks, Sha256(shard)))
  {
    hide PointAt, PointerWrites;
    if chunks != [] {
      var key, ws := Sha256(shard), DedupWrites(shard, chunks);
      assert ws[0] == WriteShard(shard) && ws[1..] == PointerWrites(key, chunks);
      assert ApplyAll(o, ws) == ApplyAll(Apply(o, ws[0]), ws[1..]);
      hide ApplyAll;
      PointersApplied(Apply(o, WriteShard(shard)), key, chunks);
    }
  }

  // ---------------------------------------------------------------- the store object

  class Store {
    var objects: Objects
    ghost var log: seq<Write>

    constructor ()
      ensures objects == EMPTY && log == []
    {
      objects := EMPTY;
      log := [];
    }

    method Put(w: Write)
      modifies this
      ensures objects == Apply(old(objects), w) && log == old(log) + [w]
    {
      objects := Apply(objects, w);
      log := log + [w];
    }

    /** inserted is false when the xorb was seen to be present; a failing look, with seen false,
        counts as absent. The error is the walker's. */
    method PutXorb(h: Hash, data: Bytes, seen: bool) returns (inserted: Result<bool, WalkError>)
      modifies this
      ensures inserted == if h in old(objects.xorbs) && seen then Ok(false)
                          else if WalkResult(data).Err? then Err(WalkResult(data).error) else Ok(true)
      ensures var writes := OpWrites(old(objects), PutXorbOp(h, data), seen);
              log == old(log) + writes && objects == ApplyAll(old(objects), writes)
      ensures objects == if inserted != Ok(true) then old(objects)
                         else old(objects).(xorbs := old(objects).xorbs[h := data],
                                            layouts := old(objects).layouts[h := WalkResult(data).value])
    {
      if h in objects.xorbs && seen {
        return Ok(false);
      }
      var chunks := WalkChunks(data);
      if chunks.Err? {
        return Err(chunks.error);
      }
      ghost var before := objects;
      Put(WriteLayout(h, chunks.value));
      Put(WriteXorb(h, data));
      ApplyTwo(before, WriteLayout(h, chunks.value), WriteXorb(h, data));
      return Ok(true);
    }

    method PutFile(rec: FileRecord)
      modifies this
      ensures log == old(log) + FileWrites(rec) && objects == ApplyAll(old(objects), FileWrites(rec))
      ensures objects == old(objects).(files := old(objects).files[rec.fileHash := rec],
                                       shas := if rec.sha256.None? then old(objects).shas
                                               else old(objects).shas[rec.sha256.value := rec.fileHash])
    {
      ghost var before := objects;
      Put(WriteFile(rec.fileHash, rec));
      if rec.sha256.Some? {
        Put(WriteSha(rec.sha256.value, rec.fileHash));
        ApplyTwo(before, WriteFile(rec.fileHash, rec), WriteSha(rec.sha256.value, rec.fileHash));
      } else {
        assert FileWrites(rec)[1..] == [];
      }
    }

    method PutDedupShard(shard: Bytes, chunks: seq<Hash>)
      modifies this
      ensures log == old(log) + DedupWrites(shard, chunks) && objects == ApplyAll(old(objects), DedupWrites(shard, chunks))
      ensures chunks == [] ==> objects == old(objects)
      ensures chunks != [] ==>
                objects == old(objects).(shards := old(objects).shards[Sha256(shard) := shard], chunkIndex := objects.chunkIndex) &&
                PointAt(old(objects).chunkIndex, objects.chunkIndex, chunks, Sha256(shard))
    {
      hide Apply, PointAt;
      DedupApplied(objects, shard, chunks);
      if |chunks| == 0 {
        return;
      }
      ghost var before, log0 := objects, log;
      var key := Sha256(shard);
      Put(WriteShard(shard));
      ghost var written := [WriteShard(shard)];
      for i := 0 to |chunks|
        invariant written == [WriteShard(shard)] + PointerWrites(key, chunks[..i])
        invariant log == log0 + written && objects == ApplyAll(before, written)
      {
        Put(WritePointer(chunks[i], key));
        assert chunks[..i + 1][..i] == chunks[..i];
        ApplyLast(before, written, WritePointer(chunks[i], key));
        written := written + [WritePointer(chunks[i], key)];
      }
      assert chunks[..|chunks|] == chunks;
    }

    /** The shard a chunk's pointer names. In a store that keeps its promise a tracked chunk
        is always answered, by a shard that lists it. */
    method DedupShard(chunk: Hash) returns (r: Option<Bytes>)
      ensures r.Some? <==> chunk in objects.chunkIndex && objects.chunkIndex[chunk] in objects.shards
      ensures r.Some? ==> r.value == objects.shards[objects.chunkIndex[chunk]]
      ensures Resolvable(objects) ==> (r.Some? <==> chunk in objects.chunkIndex)
      ensures Resolvable(objects) && r.Some? ==> ListsEligible(r.value, chunk)
    {
      if chunk !in objects.chunkIndex {
        return None;
      }
      var key := objects.chunkIndex[chunk];
      if key !in objects.shards {
        return None;
      }
      return Some(objects.shards[key]);
    }
  }

  // ---------------------------------------------------------------- interleaved writers

  /** The promise: visible xorbs have their own layout, chunk pointers lead to a shard that
      lists the chunk, sha256 mappings name stored records. */
  ghost predicate Resolvable(o: Objects) {
    && (forall h :: h in o.xorbs ==> h in o.layouts && WalkResult(o.xorbs[h]) == Ok(o.layouts[h]))
    && (forall c :: c in o.chunkIndex ==> o.chunkIndex[c] in o.shards && ListsEligible(o.shards[o.chunkIndex[c]], c))
    && (forall s :: s in o.shas ==> o.shas[s] in o.files)
  }

  /** Any number of writers, each with the writes it has still to do. */
  datatype State = State(objects: Objects, threads: map<nat, seq<Write>>)

  datatype Op =
    | PutXorbOp(h: Hash, data: Bytes)
    | PutFileOp(rec: FileRecord)
    | UploadShardOp(body: Bytes, recs: seq<FileRecord>, eligible: seq<Hash>)

  function AllFileWrites(recs: seq<FileRecord>): seq<Write> {
    if recs == [] then [] else FileWrites(recs[0]) + AllFileWrites(recs[1..])
  }

  /** The writes an operation decides on when it starts; PutXorb looks for the xorb first, and
      seen says whether that look works. */
  function OpWrites(o: Objects, op: Op, seen: bool): seq<Write> {
    match op
    case PutXorbOp(h, data) => if h in o.xorbs && seen then [] else XorbWrites(h, data)
    case PutFileOp(rec) => FileWrites(rec)
    case UploadShardOp(body, recs, eligible) => AllFileWrites(recs) + DedupWrites(body, eligible)
  }

  /** An uploaded shard's records are all stored, each under its hash, with its sha256 mapping. */
  lemma {:induction false} RecordsApplied(o: Objects, recs: seq<FileRecord>, rec: FileRecord)
    requires rec in recs
    ensures var o' := ApplyAll(o, AllFileWrites(recs));
            rec.fileHash in o'.files && o'.files[rec.fileHash] in recs && o'.files[rec.fileHash].fileHash == rec.fileHash &&
            (rec.sha256.Some? ==> rec.sha256.value in o'.shas && NamedBy(recs, rec.sha256.value, o'.shas[rec.sha256.value]))
    decreases |recs|
  {
    var first, rest := recs[0], recs[1..];
    var o1 := ApplyAll(o, FileWrites(first));
    ApplyAllSplits(o, FileWrites(first), AllFileWrites(rest));
    FileApplied(o, first);
    assert recs == [first] + rest;
    hide ApplyAll, FileWrites, AllFileWrites;
    assert ApplyAll(o, AllFileWrites(recs)) == ApplyAll(o1, AllFileWrites(rest)) by { AllFileWritesCons(recs); }
    if rec in rest {
      RecordsApplied(o1, rest, rec);
    } else {
      RecordsKeep(o1, rest, rec.fileHash);
      if rec.sha256.Some? { ShasKeep(o1, rest, rec.sha256.value); }
    }
    if rec.sha256.Some? { NamedByMore(first, rest, rec.sha256.value); }
  }

  /** What an uploaded shard leaves once all its writes are done. */
  lemma ShardUploadApplied(o: Objects, body: Bytes, recs: seq<FileRecord>, eligible: seq<Hash>, seen: bool, rec: FileRecord)
    ensures var o' := ApplyAll(o, OpWrites(o, UploadShardOp(body, recs, eligible), seen));
            (rec in recs ==>
               rec.fileHash in o'.files && o'.files[rec.fileHash] in recs && o'.files[rec.fileHash].fileHash == rec.fileHash &&
               (rec.sha256.Some? ==> rec.sha256.value in o'.shas && NamedBy(recs, rec.sha256.value, o'.shas[rec.sha256.value]))) &&
            (forall c :: c in eligible ==>
               Sha256(body) in o'.shards && o'.shards[Sha256(body)] == body && c in o'.chunkIndex && o'.chunkIndex[c] == Sha256(body))
  {
    ApplyAllSplits(o, AllFileWrites(recs), DedupWrites(body, eligible));
    var o1 := ApplyAll(o, AllFileWrites(recs));
    DedupApplied(o1, body, eligible);
    if rec in recs { RecordsApplied(o, recs, rec); }
    hide ApplyAll, NamedBy, AllFileWrites, DedupWrites;
  }

  lemma AllFileWritesCons(recs: seq<FileRecord>)
    requires recs != []
    ensures AllFileWrites(recs) == FileWrites(recs[0]) + AllFileWrites(recs[1..])
  {
  }

  /** Some record of the list maps this sha256 to this file. */
  predicate NamedBy(recs: seq<FileRecord>, sha: Hash, file: Hash) {
    exists i :: 0 <= i < |recs| && recs[i].sha256 == Some(sha) && recs[i].fileHash == file
  }

  lemma NamedByMore(first: FileRecord, rest: seq<FileRecord>, sha: Hash)
    ensures forall file :: NamedBy(rest, sha, file) ==> NamedBy([first] + rest, sha, file)
    ensures first.sha256 == Some(sha) ==> NamedBy([first] + rest, sha, first.fileHash)
  {
    var all := [first] + rest;
    assert all[0] == first;
    forall file | NamedBy(rest, sha, file) ensures NamedBy(all, sha, file) {
      var i :| 0 <= i < |rest| && rest[i].sha256 == Some(sha) && rest[i].fileHash == file;
      assert all[i + 1] == rest[i];
    }
  }

  lemma FileApplied(o: Objects, rec: FileRecord)
    ensures ApplyAll(o, FileWrites(rec)) ==
            o.(files := o.files[rec.fileHash := rec], shas := if rec.sha256.None? then o.shas else o.shas[rec.sha256.value := rec.fileHash])
  {
    if rec.sha256.Some? {
      ApplyTwo(o, WriteFile(rec.fileHash, rec), WriteSha(rec.sha256.value, rec.fileHash));
    } else {
      assert FileWrites(rec)[1..] == [];
    }
  }

  lemma {:induction false} RecordsKeep(o: Objects, recs: seq<FileRecord>, h: Hash)
    requires h in o.files
    ensures var o' := ApplyAll(o, AllFileWrites(recs));
            h in o'.files && (o'.files[h] == o.files[h] || (o'.files[h] in recs && o'.files[h].fileHash == h))
    decreases |recs|
  {
    if recs != [] {
      var o1 := ApplyAll(o, FileWrites(recs[0]));
      ApplyAllSplits(o, FileWrites(recs[0]), AllFileWrites(recs[1..]));
      FileApplied(o, recs[0]);
      RecordsKeep(o1, recs[1..], h);
      hide ApplyAll, FileWrites;
    }
  }

  lemma {:induction false} ShasKeep(o: Objects, recs: seq<FileRecord>, sha: Hash)
    requires sha in o.shas
    ensures var o' := ApplyAll(o, AllFileWrites(recs));
            sha in o'.shas && (o'.shas[sha] == o.shas[sha] || NamedBy(recs, sha, o'.shas[sha]))
    decreases |recs|
  {
    if recs != [] {
      var o1 := ApplyAll(o, FileWrites(recs[0]));
      ApplyAllSplits(o, FileWrites(recs[0]), AllFileWrites(recs[1..]));
      FileApplied(o, recs[0]);
      ShasKeep(o1, recs[1..], sha);
      NamedByMore(recs[0], recs[1..], sha);
      assert recs == [recs[0]] + recs[1..];
      hide ApplyAll, FileWrites, NamedBy;
    }
  }

  /** The handler registers exactly the eligible chunks the shard lists. */
  ghost predicate HandlerMade(op: Op) {
    op.UploadShardOp? ==> forall c :: c in op.eligible ==> ListsEligible(op.body, c)
  }

  /** The steps of a store whose callers only ask for allowed operations. */
  ghost predicate StartStep(allowed: Op -> bool, s: State, s': State) {
    exists t: nat, op, seen :: t !in s.threads && allowed(op) && HandlerMade(op) && s' == Started(s, t, op, seen)
  }

  function Started(s: State, t: nat, op: Op, seen: bool): State {
    s.(threads := s.threads[t := OpWrites(s.objects, op, seen)])
  }

  function Stepped(s: State, t: nat): State
    requires t in s.threads && s.threads[t] != []
  {
    State(Apply(s.objects, s.threads[t][0]), s.threads[t := s.threads[t][1..]])
  }

  ghost predicate WriteStep(s: State, s': State) {
    exists t: nat :: t in s.threads && s.threads[t] != [] && s' == Stepped(s, t)
  }

  ghost predicate Run(allowed: Op -> bool, trace: seq<State>) {
    && trace != []
    && trace[0] == State(EMPTY, map[])
    && forall i :: 0 < i < |trace| ==> StartStep(allowed, trace[i - 1], trace[i]) || WriteStep(trace[i - 1], trace[i])
  }

  /** All bytes uploaded under one xorb hash walk to one layout. Clients that never reuse a
      hash for other bytes satisfy it. */
  ghost predicate OneLayoutPerHash(allowed: Op -> bool) {
    forall h, a, b :: allowed(PutXorbOp(h, a)) && allowed(PutXorbOp(h, b)) && WalkResult(a).Ok? && WalkResult(b).Ok? ==>
      WalkResult(a) == WalkResult(b)
  }

  ghost function LayoutFor(allowed: Op -> bool, h: Hash): seq<ChunkInfo> {
    if exists a :: allowed(PutXorbOp(h, a)) && WalkResult(a).Ok? then
      var a :| allowed(PutXorbOp(h, a)) && WalkResult(a).Ok?;
      WalkResult(a).value
    else []
  }

  /** The operation respects a given layout for every hash. */
  ghost predicate Allowed(layoutOf: Hash -> seq<ChunkInfo>, op: Op) {
    HandlerMade(op) && (op.PutXorbOp? && WalkResult(op.data).Ok? ==> WalkResult(op.data).value == layoutOf(op.h))
  }

  /** A write may be done now: what it refers to is there. */
  ghost predicate Ready(layoutOf: Hash -> seq<ChunkInfo>, o: Objects, w: Write) {
    match w
    case WriteLayout(h, layout) => layout == layoutOf(h)
    case WriteXorb(h, data) => h in o.layouts && WalkResult(data) == Ok(layoutOf(h))
    case WriteFile(_, _) => true
    case WriteSha(_, file) => file in o.files
    case WriteShard(_) => true
    case WritePointer(chunk, key) => key in o.shards && ListsEligible(key.content, chunk)
  }

  /** An earlier write of the same thread makes a later one ready. */
  ghost predicate Provides(layoutOf: Hash -> seq<ChunkInfo>, before: Write, w: Write) {
    match w
    case WriteXorb(h, data) => before == WriteLayout(h, layoutOf(h)) && WalkResult(data) == Ok(layoutOf(h))
    case WriteSha(_, file) => before.WriteFile? && before.h == file
    case WritePointer(chunk, key) => before.WriteShard? && key == Sha256(before.data) && ListsEligible(before.data, chunk)
    case _ => false
  }

  ghost predicate Ordered(layoutOf: Hash -> seq<ChunkInfo>, o: Objects, ws: seq<Write>) {
    forall i :: 0 <= i < |ws| ==>
      Ready(layoutOf, o, ws[i]) || exists j :: 0 <= j < i && Provides(layoutOf, ws[j], ws[i])
  }

  ghost predicate Inv(layoutOf: Hash -> seq<ChunkInfo>, s: State) {
    && Resolvable(s.objects)
    && (forall h :: h in s.objects.layouts ==> s.objects.layouts[h] == layoutOf(h))
    && (forall k :: k in s.objects.shards ==> k == Sha256(s.objects.shards[k]))
    && (forall t :: t in s.threads ==> Ordered(layoutOf, s.objects, s.threads[t]))
  }

  lemma XorbWritesOrdered(layoutOf: Hash -> seq<ChunkInfo>, o: Objects, h: Hash, data: Bytes)
    requires Allowed(layoutOf, PutXorbOp(h, data))
    ensures Ordered(layoutOf, o, XorbWrites(h, data))
  {
    hide Walk;
    var ws := XorbWrites(h, data);
    if ws != [] {
      assert Ready(layoutOf, o, ws[0]);
      assert Provides(layoutOf, ws[0], ws[1]);
    }
  }

  lemma FileWritesOrdered(layoutOf: Hash -> seq<ChunkInfo>, o: Objects, rec: FileRecord)
    ensures Ordered(layoutOf, o, FileWrites(rec))
  {
    var ws := FileWrites(rec);
    assert Ready(layoutOf, o, ws[0]);
    if |ws| == 2 {
      assert Provides(layoutOf, ws[0], ws[1]);
    }
  }

  lemma OrderedConcat(layoutOf: Hash -> seq<ChunkInfo>, o: Objects, a: seq<Write>, b: seq<Write>)
    requires Ordered(layoutOf, o, a) && Ordered(layoutOf, o, b)
    ensures Ordered(layoutOf, o, a + b)
  {
    hide Ready, Provides;
    var ws := a + b;
    forall i | 0 <= i < |ws|
      ensures Ready(layoutOf, o, ws[i]) || exists j :: 0 <= j < i && Provides(layoutOf, ws[j], ws[i])
    {
      if i < |a| {
        assert ws[i] == a[i];
        if !Ready(layoutOf, o, a[i]) {
          var j :| 0 <= j < i && Provides(layoutOf, a[j], a[i]);
          assert ws[j] == a[j];
        }
      } else {
        assert ws[i] == b[i - |a|];
        if !Ready(layoutOf, o, ws[i]) {
          var j :| 0 <= j < i - |a| && Provides(layoutOf, b[j], b[i - |a|]);
          assert ws[|a| + j] == b[j];
        }
      }
    }
  }

  lemma {:induction false} AllFileWritesOrdered(layoutOf: Hash -> seq<ChunkInfo>, o: Objects, recs: seq<FileRecord>)
    ensures Ordered(layoutOf, o, AllFileWrites(recs))
  {
    hide Ready, Provides;
    if recs != [] {
      FileWritesOrdered(layoutOf, o, recs[0]);
      AllFileWritesOrdered(layoutOf, o, recs[1..]);
      OrderedConcat(layoutOf, o, FileWrites(recs[0]), AllFileWrites(recs[1..]));
    }
  }

  lemma DedupWritesOrdered(layoutOf: Hash -> seq<ChunkInfo>, o: Objects, body: Bytes, eligible: seq<Hash>)
    requires forall c :: c in eligible ==> ListsEligible(body, c)
    ensures Ordered(layoutOf, o, DedupWrites(body, eligible))
  {
    hide ListsEligible;
    var ws := DedupWrites(body, eligible);
    forall i | 0 <= i < |ws|
      ensures Ready(layoutOf, o, ws[i]) || exists j :: 0 <= j < i && Provides(layoutOf, ws[j], ws[i])
    {
      if i > 0 {
        assert ws[i] == WritePointer(eligible[i - 1], Sha256(body));
        assert Provides(layoutOf, ws[0], ws[i]);
      }
    }
  }

  lemma OpWritesOrdered(layoutOf: Hash -> seq<ChunkInfo>, o: Objects, op: Op, seen: bool)
    requires Allowed(layoutOf, op)
    ensures Ordered(layoutOf, o, OpWrites(o, op, seen))
  {
    hide Ready, Provides, XorbWrites, FileWrites, DedupWrites;
    match op
    case PutXorbOp(h, data) => XorbWritesOrdered(layoutOf, o, h, data);
    case PutFileOp(rec) => FileWritesOrdered(layoutOf, o, rec);
    case UploadShardOp(body, recs, eligible) =>
      AllFileWritesOrdered(layoutOf, o, recs);
      DedupWritesOrdered(layoutOf, o, body, eligible);
      OrderedConcat(layoutOf, o, AllFileWrites(recs), DedupWrites(body, eligible));
  }

  /** Another thread's ready write takes nothing away. */
  lemma ReadyStays(layoutOf: Hash -> seq<ChunkInfo>, o: Objects, w: Write, other: Write)
    requires Ready(layoutOf, o, w)
    ensures Ready(layoutOf, Apply(o, other), w)
  {
    hide WalkResult, ListsEligible;
  }

  lemma ProvidedIsReady(layoutOf: Hash -> seq<ChunkInfo>, o: Objects, before: Write, w: Write)
    requires Provides(layoutOf, before, w)
    ensures Ready(layoutOf, Apply(o, before), w)
  {
    hide WalkResult, ListsEligible;
  }

  lemma OrderedStays(layoutOf: Hash -> seq<ChunkInfo>, o: Objects, ws: seq<Write>, other: Write)
    requires Ordered(layoutOf, o, ws)
    ensures Ordered(layoutOf, Apply(o, other), ws)
  {
    hide Ready, Provides, Apply;
    forall i | 0 <= i < |ws|
      ensures Ready(layoutOf, Apply(o, other), ws[i]) || exists j :: 0 <= j < i && Provides(layoutOf, ws[j], ws[i])
    {
      if Ready(layoutOf, o, ws[i]) {
        ReadyStays(layoutOf, o, ws[i], other);
      }
    }
  }

  lemma OrderedAdvances(layoutOf: Hash -> seq<ChunkInfo>, o: Objects, ws: seq<Write>)
    requires ws != [] && Ordered(layoutOf, o, ws)
    ensures Ready(layoutOf, o, ws[0]) && Ordered(layoutOf, Apply(o, ws[0]), ws[1..])
  {
    hide Ready, Provides, Apply;
    assert Ready(layoutOf, o, ws[0]);
    var rest, o' := ws[1..], Apply(o, ws[0]);
    forall i | 0 <= i < |rest|
      ensures Ready(layoutOf, o', rest[i]) || exists j :: 0 <= j < i && Provides(layoutOf, rest[j], rest[i])
    {
      assert rest[i] == ws[i + 1];
      if Ready(layoutOf, o, ws[i + 1]) {
        ReadyStays(layoutOf, o, ws[i + 1], ws[0]);
      } else {
        var j :| 0 <= j < i + 1 && Provides(layoutOf, ws[j], ws[i + 1]);
        if j == 0 {
          ProvidedIsReady(layoutOf, o, ws[0], ws[i + 1]);
        } else {
          assert rest[j - 1] == ws[j];
        }
      }
    }
  }

  lemma ReadyWriteKeepsPromise(layoutOf: Hash -> seq<ChunkInfo>, o: Objects, w: Write)
    requires Resolvable(o) && Ready(layoutOf, o, w)
    requires forall h :: h in o.layouts ==> o.layouts[h] == layoutOf(h)
    requires forall k :: k in o.shards ==> k == Sha256(o.shards[k])
    ensures var o' := Apply(o, w);
            Resolvable(o') && (forall h :: h in o'.layouts ==> o'.layouts[h] == layoutOf(h)) &&
            (forall k :: k in o'.shards ==> k == Sha256(o'.shards[k]))
  {
    hide WalkResult, ListsEligible;
  }

  lemma WriteStepKeepsInv(layoutOf: Hash -> seq<ChunkInfo>, s: State, s': State)
    requires Inv(layoutOf, s) && WriteStep(s, s')
    ensures Inv(layoutOf, s')
  {
    hide Ordered, Resolvable, Apply;
    var t: nat :| t in s.threads && s.threads[t] != [] && s' == Stepped(s, t);
    var w := s.threads[t][0];
    OrderedAdvances(layoutOf, s.objects, s.threads[t]);
    ReadyWriteKeepsPromise(layoutOf, s.objects, w);
    forall u | u in s'.threads ensures Ordered(layoutOf, s'.objects, s'.threads[u]) {
      if u != t {
        OrderedStays(layoutOf, s.objects, s.threads[u], w);
      }
    }
  }

  lemma StartStepKeepsInv(allowed: Op -> bool, layoutOf: Hash -> seq<ChunkInfo>, s: State, s': State)
    requires forall op :: allowed(op) && HandlerMade(op) ==> Allowed(layoutOf, op)
    requires Inv(layoutOf, s) && StartStep(allowed, s, s')
    ensures Inv(layoutOf, s')
  {
    hide Ordered, Resolvable, OpWrites, Allowed, HandlerMade;
    var t: nat, op, seen :| t !in s.threads && allowed(op) && HandlerMade(op) && s' == Started(s, t, op, seen);
    OpWritesOrdered(layoutOf, s.objects, op, seen);
  }

  /** Over every interleaving of store writes, stopping anywhere, the invariant holds. */
  lemma {:induction false} RunKeepsInv(allowed: Op -> bool, layoutOf: Hash -> seq<ChunkInfo>, trace: seq<State>, i: nat)
    requires forall op :: allowed(op) && HandlerMade(op) ==> Allowed(layoutOf, op)
    requires Run(allowed, trace) && i < |trace|
    ensures Inv(layoutOf, trace[i])
    decreases i
  {
    hide Inv, StartStep, WriteStep, Allowed;
    if i == 0 {
      EmptyResolvable(layoutOf);
    } else {
      RunKeepsInv(allowed, layoutOf, trace, i - 1);
      if WriteStep(trace[i - 1], trace[i]) {
        WriteStepKeepsInv(layoutOf, trace[i - 1], trace[i]);
      } else {
        StartStepKeepsInv(allowed, layoutOf, trace[i - 1], trace[i]);
      }
    }
  }

  lemma EmptyResolvable(layoutOf: Hash -> seq<ChunkInfo>)
    ensures Inv(layoutOf, State(EMPTY, map[])) && Resolvable(EMPTY)
  {
  }

  lemma LayoutForFits(allowed: Op -> bool)
    requires OneLayoutPerHash(allowed)
    ensures forall op :: allowed(op) && HandlerMade(op) ==> Allowed((h: Hash) => LayoutFor(allowed, h), op)
  {
    hide WalkResult;
    forall op | allowed(op) && HandlerMade(op) ensures Allowed((h: Hash) => LayoutFor(allowed, h), op) {
      if op.PutXorbOp? && WalkResult(op.data).Ok? {
        assert allowed(PutXorbOp(op.h, op.data));
      }
    }
  }

  /** Two uploads under one hash whose layouts differ can leave a visible xorb beside the
      other's layout. */
  lemma TwoLayoutsCanClash(allowed: Op -> bool, h: Hash, a: Bytes, b: Bytes) returns (trace: seq<State>)
    requires allowed(PutXorbOp(h, a)) && allowed(PutXorbOp(h, b))
    requires WalkResult(a).Ok? && WalkResult(b).Ok? && WalkResult(a) != WalkResult(b)
    ensures Run(allowed, trace) && !Resolvable(trace[|trace| - 1].objects)
  {
    hide WalkResult;
    var la, lb := WalkResult(a).value, WalkResult(b).value;
    var s0 := State(EMPTY, map[]);
    var s1 := Started(s0, 0, PutXorbOp(h, a), true);
    var s2 := Started(s1, 1, PutXorbOp(h, b), true);
    assert s2.threads[0] == [WriteLayout(h, la), WriteXorb(h, a)];
    assert s2.threads[1] == [WriteLayout(h, lb), WriteXorb(h, b)];
    var s3 := Stepped(s2, 1);
    assert s3.threads[1] == [WriteXorb(h, b)];
    var s4 := Stepped(s3, 1);
    var s5 := Stepped(s4, 0);
    assert s5.objects.xorbs[h] == b && s5.objects.layouts[h] == la;
    assert !Resolvable(s5.objects);
    assert StartStep(allowed, s0, s1) && StartStep(allowed, s1, s2);
    assert WriteStep(s2, s3) && WriteStep(s3, s4) && WriteStep(s4, s5);
    trace := [s0, s1, s2, s3, s4, s5];
  }

  /** The store keeps its promise in every reachable state exactly when uploads under one
      xorb hash never differ in layout. */
  lemma StoreResolvableExactlyWhen(allowed: Op -> bool)
    ensures (forall trace: seq<State>, i :: Run(allowed, trace) && 0 <= i < |trace| ==> Resolvable(trace[i].objects)) <==>
            OneLayoutPerHash(allowed)
  {
    hide Resolvable, Run, WalkResult;
    if OneLayoutPerHash(allowed) {
      LayoutForFits(allowed);
      forall trace: seq<State>, i | Run(allowed, trace) && 0 <= i < |trace| ensures Resolvable(trace[i].objects) {
        RunKeepsInv(allowed, (h: Hash) => LayoutFor(allowed, h), trace, i);
      }
    } else {
      var h, a, b :| allowed(PutXorbOp(h, a)) && allowed(PutXorbOp(h, b)) && WalkResult(a).Ok? && WalkResult(b).Ok? &&
                     WalkResult(a) != WalkResult(b);
      var trace := TwoLayoutsCanClash(allowed, h, a, b);
      assert |trace| > 0 by { RunNonEmpty(allowed, trace); }
      assert !Resolvable(trace[|trace| - 1].objects);
    }
  }

  lemma RunNonEmpty(allowed: Op -> bool, trace: seq<State>)
    requires Run(allowed, trace)
    ensures |trace| > 0
  {
  }
}
