/** MDB shards: the parser for both layouts and its inverse (internal/xet/shard.go). */
module XetShard {
  import opened Common

  const HASH_LEN := 32
  const SHARD_HEADER_LEN := 48
  const SHARD_RECORD_LEN := 48
  const FLAG_VERIFICATION := 0x8000_0000
  const FLAG_METADATA := 0x4000_0000
  const MAX_ENTRIES := 0x10_0000

  /** MDB_SHARD_HEADER_TAG: "HFRepoMetaData", a zero byte, and 17 fixed bytes. */
  const SHARD_HEADER_TAG: Bytes :=
    [72, 70, 82, 101, 112, 111, 77, 101, 116, 97, 68, 97, 116, 97, 0,
     85, 105, 103, 69, 106, 123, 129, 87, 131, 165, 189, 217, 92, 205, 209, 74, 169]

  type Hash = h: Bytes | |h| == 32 witness Repeat(0, 32)

  const BOOKEND: Hash := Repeat(255, 32)
  const ZERO_HASH: Hash := Repeat(0, 32)

  function Repeat(b: Byte, n: nat): (r: Bytes)
    ensures |r| == n && forall i :: 0 <= i < n ==> r[i] == b
  {
    if n == 0 then [] else [b] + Repeat(b, n - 1)
  }

  datatype Term = Term(xorbHash: Hash, unpackedLen: nat, chunkStart: nat, chunkEnd: nat)
  datatype ShardFile = ShardFile(fileHash: Hash, sha256: Hash, terms: seq<Term>)
  datatype ShardXorb = ShardXorb(xorbHash: Hash, numChunks: nat, numBytesInXorb: nat, numBytesOnDisk: nat,
                                 chunkHashes: seq<Hash>)
  datatype Shard = Shard(files: seq<ShardFile>, xorbs: seq<ShardXorb>)

  datatype ShardError =
    | TooShort | BadMagic | ImplausibleFooter | FooterTooShort | OffsetsOutOfOrder
    | ImplausibleFileCount | FileSectionTruncated | MetadataTruncated
    | ImplausibleXorbCount | XorbSectionTruncated

  predicate HasVerification(flags: nat) { flags / FLAG_VERIFICATION % 2 == 1 }
  predicate HasMetadata(flags: nat) { flags / FLAG_METADATA % 2 == 1 }

  // ---------------------------------------------------------------- what the sections mean

  /** Word k of the four 32-bit words that follow the hash in a record. */
  function Word(s: Bytes, k: nat): nat
    requires |s| >= SHARD_RECORD_LEN && k < 4
  {
    LittleEndian(s[HASH_LEN + 4 * k..HASH_LEN + 4 * k + 4])
  }

  function TermOf(s: Bytes): Term
    requires |s| >= SHARD_RECORD_LEN
  {
    Term(s[..HASH_LEN], Word(s, 1), Word(s, 2), Word(s, 3))
  }

  function ParseTerms(s: Bytes, n: nat): (r: Result<seq<Term>, ShardError>)
    ensures r.Ok? ==> |r.value| == n && SHARD_RECORD_LEN * n <= |s|
  {
    if n == 0 then Ok([])
    else if |s| < SHARD_RECORD_LEN then Err(FileSectionTruncated)
    else
      match ParseTerms(s[SHARD_RECORD_LEN..], n - 1)
      case Err(e) => Err(e)
      case Ok(rest) => Ok([TermOf(s)] + rest)
  }

  /** What follows a file's terms: skipped verification records, then the metadata record.
      The result is the file's sha256 and the number of bytes taken. */
  function ParseFileEnd(s: Bytes, flags: nat, n: nat): (r: Result<(Hash, nat), ShardError>)
    ensures r.Ok? ==> r.value.1 <= |s|
  {
    var off := if HasVerification(flags) then SHARD_RECORD_LEN * n else 0;
    if HasMetadata(flags) then
      if off + SHARD_RECORD_LEN > |s| then Err(MetadataTruncated)
      else Ok((s[off..off + HASH_LEN], off + SHARD_RECORD_LEN))
    else if off > |s| then Err(FileSectionTruncated)
    else Ok((ZERO_HASH, off))
  }

  /** The file at the front of s, with the number of bytes it takes. */
  function ParseFile(s: Bytes): (r: Result<(ShardFile, nat), ShardError>)
    requires |s| >= SHARD_RECORD_LEN
    ensures r.Ok? ==> SHARD_RECORD_LEN <= r.value.1 <= |s|
  {
    var flags, n := Word(s, 0), Word(s, 1);
    if n > MAX_ENTRIES then Err(ImplausibleFileCount)
    else
      match ParseTerms(s[SHARD_RECORD_LEN..], n)
      case Err(e) => Err(e)
      case Ok(terms) =>
        var end := SHARD_RECORD_LEN + SHARD_RECORD_LEN * n;
        match ParseFileEnd(s[end..], flags, n)
        case Err(e) => Err(e)
        case Ok(f) => Ok((ShardFile(s[..HASH_LEN], f.0, terms), end + f.1))
  }

  /** A section ends at its bookend record or where no whole record is left. */
  predicate SectionEnds(s: Bytes) {
    |s| < SHARD_RECORD_LEN || s[..HASH_LEN] == BOOKEND
  }

  function EndLength(s: Bytes): (n: nat)
    ensures n <= |s|
  {
    if |s| < SHARD_RECORD_LEN then 0 else SHARD_RECORD_LEN
  }

  function PrependFile(f: ShardFile, len: nat, r: Result<(seq<ShardFile>, nat), ShardError>): Result<(seq<ShardFile>, nat), ShardError> {
    match r
    case Err(e) => Err(e)
    case Ok(rest) => Ok(([f] + rest.0, len + rest.1))
  }

  function ParseFiles(s: Bytes): (r: Result<(seq<ShardFile>, nat), ShardError>)
    ensures r.Ok? ==> r.value.1 <= |s|
    decreases |s|
  {
    if SectionEnds(s) then Ok(([], EndLength(s)))
    else
      match ParseFile(s)
      case Err(e) => Err(e)
      case Ok(f) => PrependFile(f.0, f.1, ParseFiles(s[f.1..]))
  }

  function ChunkHashes(s: Bytes, n: nat): (r: seq<Hash>)
    requires SHARD_RECORD_LEN * n <= |s|
    ensures |r| == n
  {
    if n == 0 then [] else [s[..HASH_LEN]] + ChunkHashes(s[SHARD_RECORD_LEN..], n - 1)
  }

  function ParseXorb(s: Bytes): (r: Result<(ShardXorb, nat), ShardError>)
    requires |s| >= SHARD_RECORD_LEN
    ensures r.Ok? ==> SHARD_RECORD_LEN <= r.value.1 <= |s|
  {
    var n := Word(s, 1);
    if n > MAX_ENTRIES then Err(ImplausibleXorbCount)
    else if SHARD_RECORD_LEN + n * SHARD_RECORD_LEN > |s| then Err(XorbSectionTruncated)
    else Ok((ShardXorb(s[..HASH_LEN], n, Word(s, 2), Word(s, 3), ChunkHashes(s[SHARD_RECORD_LEN..], n)),
             SHARD_RECORD_LEN + n * SHARD_RECORD_LEN))
  }

  function PrependXorb(x: ShardXorb, len: nat, r: Result<(seq<ShardXorb>, nat), ShardError>): Result<(seq<ShardXorb>, nat), ShardError> {
    match r
    case Err(e) => Err(e)
    case Ok(rest) => Ok(([x] + rest.0, len + rest.1))
  }

  function ParseXorbs(s: Bytes): (r: Result<(seq<ShardXorb>, nat), ShardError>)
    ensures r.Ok? ==> r.value.1 <= |s|
    decreases |s|
  {
    if SectionEnds(s) then Ok(([], EndLength(s)))
    else
      match ParseXorb(s)
      case Err(e) => Err(e)
      case Ok(x) => PrependXorb(x.0, x.1, ParseXorbs(s[x.1..]))
  }

  function BothSections(files: Bytes, xorbs: Bytes): Result<Shard, ShardError> {
    match ParseFiles(files)
    case Err(e) => Err(e)
    case Ok(f) =>
      match ParseXorbs(xorbs)
      case Err(e) => Err(e)
      case Ok(x) => Ok(Shard(f.0, x.0))
  }

  function ParseSequential(body: Bytes): Result<Shard, ShardError> {
    match ParseFiles(body)
    case Err(e) => Err(e)
    case Ok(f) => BothSections(body, body[f.1..])
  }

  function ParseFootered(data: Bytes, footer: Bytes): Result<Shard, ShardError> {
    if |footer| < 32 then Err(FooterTooShort)
    else
      var f, x, l := LittleEndian(footer[8..16]), LittleEndian(footer[16..24]), LittleEndian(footer[24..32]);
      if f > |data| || x > |data| || l > |data| || f > x || x > l then Err(OffsetsOutOfOrder)
      else BothSections(data[f..x], data[x..l])
  }

  /** What the parser answers for any byte string. */
  function ShardResult(data: Bytes): Result<Shard, ShardError> {
    if |data| < SHARD_HEADER_LEN then Err(TooShort)
    else if data[..32] != SHARD_HEADER_TAG then Err(BadMagic)
    else
      var footerSize := LittleEndian(data[40..48]);
      if footerSize > |data| then Err(ImplausibleFooter)
      else if footerSize == 0 then ParseSequential(data[SHARD_HEADER_LEN..])
      else ParseFootered(data, data[|data| - footerSize..])
  }

  // ---------------------------------------------------------------- the parse loops

  lemma SliceOfSuffix(s: Bytes, off: nat, i: nat, j: nat)
    requires off <= |s| && i <= j <= |s| - off
    ensures s[off..][i..j] == s[off + i..off + j]
    ensures s[off..][i..] == s[off + i..]
  {
  }

  lemma RecordAt(s: Bytes, off: nat)
    requires off + SHARD_RECORD_LEN <= |s|
    ensures s[off..][..HASH_LEN] == s[off..off + HASH_LEN]
    ensures Word(s[off..], 0) == LittleEndian(s[off + 32..off + 36])
    ensures Word(s[off..], 1) == LittleEndian(s[off + 36..off + 40])
    ensures Word(s[off..], 2) == LittleEndian(s[off + 40..off + 44])
    ensures Word(s[off..], 3) == LittleEndian(s[off + 44..off + 48])
    ensures s[off..][SHARD_RECORD_LEN..] == s[off + SHARD_RECORD_LEN..]
  {
    SliceOfSuffix(s, off, 32, 36);
    SliceOfSuffix(s, off, 36, 40);
    SliceOfSuffix(s, off, 40, 44);
    SliceOfSuffix(s, off, 44, 48);
  }

  function PrependTerms(done: seq<Term>, r: Result<seq<Term>, ShardError>): Result<seq<Term>, ShardError> {
    match r
    case Err(e) => Err(e)
    case Ok(rest) => Ok(done + rest)
  }

  method ParseTermLoop(section: Bytes, start: nat, numEntries: nat) returns (r: Result<seq<Term>, ShardError>, off: nat)
    requires start <= |section|
    ensures r == ParseTerms(section[start..], numEntries)
    ensures r.Ok? ==> off == start + SHARD_RECORD_LEN * numEntries <= |section|
  {
    hide LittleEndian, Word;
    off := start;
    var terms: seq<Term> := [];
    ghost var all := ParseTerms(section[start..], numEntries);
    assert all.Ok? ==> [] + all.value == all.value;
    for i := 0 to numEntries
      invariant off == start + SHARD_RECORD_LEN * i <= |section|
      invariant ParseTerms(section[start..], numEntries) == PrependTerms(terms, ParseTerms(section[off..], numEntries - i))
    {
      if off + SHARD_RECORD_LEN > |section| {
        return Err(FileSectionTruncated), off;
      }
      RecordAt(section, off);
      var xorbHash := section[off..off + HASH_LEN];
      var unpacked := LittleEndian(section[off + 36..off + 40]);
      var first := LittleEndian(section[off + 40..off + 44]);
      var last := LittleEndian(section[off + 44..off + 48]);
      ghost var rest := ParseTerms(section[off + SHARD_RECORD_LEN..], numEntries - i - 1);
      if rest.Ok? {
        assert terms + ([TermOf(section[off..])] + rest.value) == (terms + [TermOf(section[off..])]) + rest.value;
      }
      terms := terms + [Term(xorbHash, unpacked, first, last)];
      off := off + SHARD_RECORD_LEN;
    }
    assert terms + [] == terms;
    r := Ok(terms);
  }

  /** The file whose header record is at off, and the offset just past it. */
  method ParseFileAt(section: Bytes, at: nat) returns (r: Result<(ShardFile, nat), ShardError>)
    requires at + SHARD_RECORD_LEN <= |section|
    ensures r == ParseFile(section[at..])
  {
    hide ParseTerms, Word, LittleEndian, HasVerification, HasMetadata;
    RecordAt(section, at);
    var fileHash := section[at..at + HASH_LEN];
    var flags := LittleEndian(section[at + 32..at + 36]);
    var numEntries := LittleEndian(section[at + 36..at + 40]);
    var off := at + SHARD_RECORD_LEN;
    if numEntries > MAX_ENTRIES {
      return Err(ImplausibleFileCount);
    }
    var terms, termsEnd := ParseTermLoop(section, off, numEntries);
    if terms.Err? {
      return Err(terms.error);
    }
    off := termsEnd;
    SliceOfSuffix(section, at, termsEnd - at, |section| - at);
    if HasVerification(flags) {
      off := off + numEntries * SHARD_RECORD_LEN;
    }
    var sha256 := ZERO_HASH;
    if HasMetadata(flags) {
      if off + SHARD_RECORD_LEN > |section| {
        return Err(MetadataTruncated);
      }
      sha256 := section[off..off + HASH_LEN];
      SliceOfSuffix(section, termsEnd, off - termsEnd, off - termsEnd + HASH_LEN);
      off := off + SHARD_RECORD_LEN;
    }
    if off > |section| {
      return Err(FileSectionTruncated);
    }
    return Ok((ShardFile(fileHash, sha256, terms.value), off - at));
  }

  function PrependFiles(done: seq<ShardFile>, len: nat, r: Result<(seq<ShardFile>, nat), ShardError>): Result<(seq<ShardFile>, nat), ShardError> {
    match r
    case Err(e) => Err(e)
    case Ok(rest) => Ok((done + rest.0, len + rest.1))
  }

  /** The loop's accumulated files followed by what the rest of the section parses to. */
  lemma FilesStep(done: seq<ShardFile>, section: Bytes, off: nat)
    requires off <= |section| && !SectionEnds(section[off..]) && ParseFile(section[off..]).Ok?
    ensures var f := ParseFile(section[off..]).value;
            PrependFiles(done, off, ParseFiles(section[off..])) ==
            PrependFiles(done + [f.0], off + f.1, ParseFiles(section[off + f.1..]))
  {
    hide ParseFile;
    var f := ParseFile(section[off..]).value;
    assert section[off..][f.1..] == section[off + f.1..];
    var rest := ParseFiles(section[off + f.1..]);
    if rest.Ok? {
      assert done + ([f.0] + rest.value.0) == (done + [f.0]) + rest.value.0;
    }
  }

  method ParseFileSection(section: Bytes) returns (r: Result<(seq<ShardFile>, nat), ShardError>)
    ensures r == ParseFiles(section)
  {
    hide ParseFile;
    var off := 0;
    var files: seq<ShardFile> := [];
    assert section[0..] == section;
    ghost var all := ParseFiles(section);
    assert all.Ok? ==> [] + all.value.0 == all.value.0;
    while off + SHARD_RECORD_LEN <= |section|
      invariant 0 <= off <= |section|
      invariant all == PrependFiles(files, off, ParseFiles(section[off..]))
    {
      var fileHash := section[off..off + HASH_LEN];
      assert section[off..][..HASH_LEN] == fileHash;
      if fileHash == BOOKEND {
        assert files + [] == files;
        return Ok((files, off + SHARD_RECORD_LEN));
      }
      var parsed := ParseFileAt(section, off);
      if parsed.Err? {
        return Err(parsed.error);
      }
      FilesStep(files, section, off);
      files := files + [parsed.value.0];
      off := off + parsed.value.1;
    }
    assert files + [] == files;
    return Ok((files, off));
  }

  method ChunkHashLoop(section: Bytes, start: nat, numEntries: nat) returns (hashes: seq<Hash>)
    requires start + SHARD_RECORD_LEN * numEntries <= |section|
    ensures hashes == ChunkHashes(section[start..], numEntries)
  {
    hashes := [];
    var off := start;
    for i := 0 to numEntries
      invariant off == start + SHARD_RECORD_LEN * i
      invariant ChunkHashes(section[start..], numEntries) == hashes + ChunkHashes(section[off..], numEntries - i)
    {
      RecordAt(section, off);
      hashes := hashes + [section[off..off + HASH_LEN]];
      off := off + SHARD_RECORD_LEN;
    }
  }

  function PrependXorbs(done: seq<ShardXorb>, len: nat, r: Result<(seq<ShardXorb>, nat), ShardError>): Result<(seq<ShardXorb>, nat), ShardError> {
    match r
    case Err(e) => Err(e)
    case Ok(rest) => Ok((done + rest.0, len + rest.1))
  }

  lemma XorbsStep(done: seq<ShardXorb>, section: Bytes, off: nat)
    requires off <= |section| && !SectionEnds(section[off..]) && ParseXorb(section[off..]).Ok?
    ensures var x := ParseXorb(section[off..]).value;
            PrependXorbs(done, off, ParseXorbs(section[off..])) ==
            PrependXorbs(done + [x.0], off + x.1, ParseXorbs(section[off + x.1..]))
  {
    hide ParseXorb;
    var x := ParseXorb(section[off..]).value;
    assert section[off..][x.1..] == section[off + x.1..];
    var rest := ParseXorbs(section[off + x.1..]);
    if rest.Ok? {
      assert done + ([x.0] + rest.value.0) == (done + [x.0]) + rest.value.0;
    }
  }

  /** The xorb whose header record is at off, and its length. */
  method ParseXorbAt(section: Bytes, at: nat) returns (r: Result<(ShardXorb, nat), ShardError>)
    requires at + SHARD_RECORD_LEN <= |section|
    ensures r == ParseXorb(section[at..])
  {
    RecordAt(section, at);
    var xorbHash := section[at..at + HASH_LEN];
    var numEntries := LittleEndian(section[at + 36..at + 40]);
    var bytesInXorb := LittleEndian(section[at + 40..at + 44]);
    var bytesOnDisk := LittleEndian(section[at + 44..at + 48]);
    var off := at + SHARD_RECORD_LEN;
    if numEntries > MAX_ENTRIES {
      return Err(ImplausibleXorbCount);
    }
    if off + numEntries * SHARD_RECORD_LEN > |section| {
      return Err(XorbSectionTruncated);
    }
    var hashes := ChunkHashLoop(section, off, numEntries);
    off := off + numEntries * SHARD_RECORD_LEN;
    return Ok((ShardXorb(xorbHash, numEntries, bytesInXorb, bytesOnDisk, hashes), off - at));
  }

  method ParseXorbSection(section: Bytes) returns (r: Result<(seq<ShardXorb>, nat), ShardError>)
    ensures r == ParseXorbs(section)
  {
    hide ParseXorb;
    var off := 0;
    var xorbs: seq<ShardXorb> := [];
    assert section[0..] == section;
    ghost var all := ParseXorbs(section);
    assert all.Ok? ==> [] + all.value.0 == all.value.0;
    while off + SHARD_RECORD_LEN <= |section|
      invariant 0 <= off <= |section|
      invariant all == PrependXorbs(xorbs, off, ParseXorbs(section[off..]))
    {
      var xorbHash := section[off..off + HASH_LEN];
      assert section[off..][..HASH_LEN] == xorbHash;
      if xorbHash == BOOKEND {
        assert xorbs + [] == xorbs;
        return Ok((xorbs, off + SHARD_RECORD_LEN));
      }
      var parsed := ParseXorbAt(section, off);
      if parsed.Err? {
        return Err(parsed.error);
      }
      XorbsStep(xorbs, section, off);
      xorbs := xorbs + [parsed.value.0];
      off := off + parsed.value.1;
    }
    assert xorbs + [] == xorbs;
    return Ok((xorbs, off));
  }

  /** Total: every byte string gets a shard or an error, and no access leaves the data. */
  method ParseShard(data: Bytes) returns (r: Result<Shard, ShardError>)
    ensures r == ShardResult(data)
  {
    if |data| < SHARD_HEADER_LEN {
      return Err(TooShort);
    }
    if data[..32] != SHARD_HEADER_TAG {
      return Err(BadMagic);
    }
    var footerSize := LittleEndian(data[40..48]);
    if footerSize > |data| {
      return Err(ImplausibleFooter);
    }
    if footerSize == 0 {
      var files := ParseFileSection(data[SHARD_HEADER_LEN..]);
      if files.Err? {
        return Err(files.error);
      }
      SliceOfSuffix(data, SHARD_HEADER_LEN, files.value.1, |data| - SHARD_HEADER_LEN);
      var xorbs := ParseXorbSection(data[SHARD_HEADER_LEN + files.value.1..]);
      if xorbs.Err? {
        return Err(xorbs.error);
      }
      return Ok(Shard(files.value.0, xorbs.value.0));
    }
    var footer := data[|data| - footerSize..];
    if |footer| < 32 {
      return Err(FooterTooShort);
    }
    var fileInfoOffset := LittleEndian(footer[8..16]);
    var xorbInfoOffset := LittleEndian(footer[16..24]);
    var fileLookupOffset := LittleEndian(footer[24..32]);
    if fileInfoOffset > |data| || xorbInfoOffset > |data| || fileLookupOffset > |data| ||
       fileInfoOffset > xorbInfoOffset || xorbInfoOffset > fileLookupOffset {
      return Err(OffsetsOutOfOrder);
    }
    var files := ParseFileSection(data[fileInfoOffset..xorbInfoOffset]);
    if files.Err? {
      return Err(files.error);
    }
    var xorbs := ParseXorbSection(data[xorbInfoOffset..fileLookupOffset]);
    if xorbs.Err? {
      return Err(xorbs.error);
    }
    return Ok(Shard(files.value.0, xorbs.value.0));
  }

  // ---------------------------------------------------------------- the serializer

  predicate IsU32(n: nat) { n < 0x1_0000_0000 }

  /** A 48-byte record: a hash and four 32-bit words. */
  function Record(hash: Hash, a: nat, b: nat, c: nat, d: nat): (r: Bytes)
    ensures |r| == SHARD_RECORD_LEN
  {
    hash + ToLittleEndian(a, 4) + ToLittleEndian(b, 4) + ToLittleEndian(c, 4) + ToLittleEndian(d, 4)
  }

  /** A file as a client writes it. Everything the parser skips is left free: the other
      flag bits, the reserved words, the per-term flags and the verification records. */
  datatype FileForm = FileForm(file: ShardFile, otherFlags: nat, reserved: (nat, nat), termFlags: seq<nat>,
                               verification: Option<Bytes>, metadata: Option<(nat, nat, nat, nat)>)

  predicate ValidTerm(t: Term) {
    IsU32(t.unpackedLen) && IsU32(t.chunkStart) && IsU32(t.chunkEnd)
  }

  predicate ValidFileForm(w: FileForm) {
    && w.file.fileHash != BOOKEND
    && |w.file.terms| <= MAX_ENTRIES && |w.termFlags| == |w.file.terms|
    && (forall i :: 0 <= i < |w.file.terms| ==> ValidTerm(w.file.terms[i]))
    && w.otherFlags < FLAG_METADATA
    && (w.verification.Some? ==> |w.verification.value| == SHARD_RECORD_LEN * |w.file.terms|)
    && (w.metadata.None? ==> w.file.sha256 == ZERO_HASH)
  }

  function FlagsOf(w: FileForm): nat {
    w.otherFlags + (if w.verification.Some? then FLAG_VERIFICATION else 0) + (if w.metadata.Some? then FLAG_METADATA else 0)
  }

  function SerializeTerms(terms: seq<Term>, flags: seq<nat>): (b: Bytes)
    requires |flags| == |terms|
    ensures |b| == SHARD_RECORD_LEN * |terms|
  {
    if terms == [] then []
    else Record(terms[0].xorbHash, flags[0], terms[0].unpackedLen, terms[0].chunkStart, terms[0].chunkEnd) +
         SerializeTerms(terms[1..], flags[1..])
  }

  function SerializeVerification(w: FileForm): Bytes {
    if w.verification.Some? then w.verification.value else []
  }

  function SerializeMetadata(w: FileForm): Bytes {
    match w.metadata
    case None => []
    case Some(m) => Record(w.file.sha256, m.0, m.1, m.2, m.3)
  }

  function SerializeFileEnd(w: FileForm): Bytes {
    SerializeVerification(w) + SerializeMetadata(w)
  }

  function SerializeFile(w: FileForm): Bytes
    requires ValidFileForm(w)
  {
    Record(w.file.fileHash, FlagsOf(w), |w.file.terms|, w.reserved.0, w.reserved.1) +
    (SerializeTerms(w.file.terms, w.termFlags) + SerializeFileEnd(w))
  }

  predicate ValidFileForms(ws: seq<FileForm>) {
    forall i :: 0 <= i < |ws| ==> ValidFileForm(ws[i])
  }

  function SerializeFiles(ws: seq<FileForm>): Bytes
    requires ValidFileForms(ws)
  {
    if ws == [] then [] else SerializeFile(ws[0]) + SerializeFiles(ws[1..])
  }

  function FilesOf(ws: seq<FileForm>): (r: seq<ShardFile>)
    ensures |r| == |ws|
  {
    if ws == [] then [] else [ws[0].file] + FilesOf(ws[1..])
  }

  datatype XorbForm = XorbForm(xorb: ShardXorb, flags: nat, chunkWords: seq<(nat, nat, nat, nat)>)

  predicate ValidXorbForm(w: XorbForm) {
    && w.xorb.xorbHash != BOOKEND
    && w.xorb.numChunks == |w.xorb.chunkHashes| == |w.chunkWords| <= MAX_ENTRIES
    && IsU32(w.xorb.numBytesInXorb) && IsU32(w.xorb.numBytesOnDisk)
  }

  function SerializeChunkHashes(hashes: seq<Hash>, words: seq<(nat, nat, nat, nat)>): (b: Bytes)
    requires |words| == |hashes|
    ensures |b| == SHARD_RECORD_LEN * |hashes|
  {
    if hashes == [] then []
    else Record(hashes[0], words[0].0, words[0].1, words[0].2, words[0].3) + SerializeChunkHashes(hashes[1..], words[1..])
  }

  function SerializeXorb(w: XorbForm): Bytes
    requires ValidXorbForm(w)
  {
    Record(w.xorb.xorbHash, w.flags, w.xorb.numChunks, w.xorb.numBytesInXorb, w.xorb.numBytesOnDisk) +
    SerializeChunkHashes(w.xorb.chunkHashes, w.chunkWords)
  }

  predicate ValidXorbForms(ws: seq<XorbForm>) {
    forall i :: 0 <= i < |ws| ==> ValidXorbForm(ws[i])
  }

  function SerializeXorbs(ws: seq<XorbForm>): Bytes
    requires ValidXorbForms(ws)
  {
    if ws == [] then [] else SerializeXorb(ws[0]) + SerializeXorbs(ws[1..])
  }

  function XorbsOf(ws: seq<XorbForm>): (r: seq<ShardXorb>)
    ensures |r| == |ws|
  {
    if ws == [] then [] else [ws[0].xorb] + XorbsOf(ws[1..])
  }

  function BookendRecord(a: nat, b: nat, c: nat, d: nat): Bytes {
    Record(BOOKEND, a, b, c, d)
  }

  // ---------------------------------------------------------------- parsing inverts serializing

  lemma WordRoundTrip(n: nat)
    requires IsU32(n)
    ensures LittleEndian(ToLittleEndian(n, 4)) == n
  {
    assert Pow256(4) == 256 * (256 * (256 * (256 * Pow256(0))));
    LittleEndianRoundTrip(n, 4);
  }

  lemma RecordSlices(hash: Hash, a: nat, b: nat, c: nat, d: nat, more: Bytes)
    ensures var s := Record(hash, a, b, c, d) + more;
            s[..HASH_LEN] == hash && s[SHARD_RECORD_LEN..] == more &&
            s[32..36] == ToLittleEndian(a, 4) && s[36..40] == ToLittleEndian(b, 4) &&
            s[40..44] == ToLittleEndian(c, 4) && s[44..48] == ToLittleEndian(d, 4)
  {
    hide ToLittleEndian;
  }

  lemma RecordFields(hash: Hash, a: nat, b: nat, c: nat, d: nat, more: Bytes)
    ensures var s := Record(hash, a, b, c, d) + more;
            s[..HASH_LEN] == hash && s[SHARD_RECORD_LEN..] == more &&
            (IsU32(a) ==> Word(s, 0) == a) && (IsU32(b) ==> Word(s, 1) == b) &&
            (IsU32(c) ==> Word(s, 2) == c) && (IsU32(d) ==> Word(s, 3) == d)
  {
    RecordSlices(hash, a, b, c, d, more);
    if IsU32(a) { WordRoundTrip(a); }
    if IsU32(b) { WordRoundTrip(b); }
    if IsU32(c) { WordRoundTrip(c); }
    if IsU32(d) { WordRoundTrip(d); }
  }

  lemma {:induction false} TermsRoundTrip(terms: seq<Term>, flags: seq<nat>, more: Bytes)
    requires |flags| == |terms|
    requires forall i :: 0 <= i < |terms| ==> ValidTerm(terms[i])
    ensures ParseTerms(SerializeTerms(terms, flags) + more, |terms|) == Ok(terms)
    decreases |terms|
  {
    hide Record, Word;
    if terms != [] {
      var t := terms[0];
      var rest := SerializeTerms(terms[1..], flags[1..]) + more;
      RecordFields(t.xorbHash, flags[0], t.unpackedLen, t.chunkStart, t.chunkEnd, rest);
      assert SerializeTerms(terms, flags) + more == Record(t.xorbHash, flags[0], t.unpackedLen, t.chunkStart, t.chunkEnd) + rest;
      TermsRoundTrip(terms[1..], flags[1..], more);
      assert [t] + terms[1..] == terms;
    }
  }

  lemma FlagBits(w: FileForm)
    requires ValidFileForm(w)
    ensures HasVerification(FlagsOf(w)) == w.verification.Some?
    ensures HasMetadata(FlagsOf(w)) == w.metadata.Some?
    ensures IsU32(FlagsOf(w))
  {
  }

  lemma FileEndRoundTrip(w: FileForm, more: Bytes)
    requires ValidFileForm(w)
    ensures ParseFileEnd(SerializeFileEnd(w) + more, FlagsOf(w), |w.file.terms|) ==
            Ok((w.file.sha256, |SerializeFileEnd(w)|))
  {
    hide FlagsOf, HasVerification, HasMetadata, Record, Word;
    FlagBits(w);
    var v := SerializeVerification(w);
    var s := SerializeFileEnd(w) + more;
    if w.metadata.Some? {
      var m, meta := w.metadata.value, SerializeMetadata(w);
      RecordSlices(w.file.sha256, m.0, m.1, m.2, m.3, []);
      assert meta + [] == meta;
      MiddleSlices(v, meta, more, []);
      assert s == v + meta + more + [];
      assert s[|v|..|v| + HASH_LEN] == s[|v|..|v| + SHARD_RECORD_LEN][..HASH_LEN];
    }
  }

  lemma FileParts(w: FileForm, more: Bytes)
    requires ValidFileForm(w)
    ensures var s := SerializeFile(w) + more;
            var end := SHARD_RECORD_LEN + SHARD_RECORD_LEN * |w.file.terms|;
            |s| >= SHARD_RECORD_LEN && s[..HASH_LEN] == w.file.fileHash &&
            Word(s, 0) == FlagsOf(w) && Word(s, 1) == |w.file.terms| &&
            s[SHARD_RECORD_LEN..] == SerializeTerms(w.file.terms, w.termFlags) + (SerializeFileEnd(w) + more) &&
            end <= |s| && s[end..] == SerializeFileEnd(w) + more &&
            |SerializeFile(w)| == end + |SerializeFileEnd(w)| && s[|SerializeFile(w)|..] == more
  {
    hide FlagsOf, Record, Word, SerializeTerms, SerializeFileEnd;
    FlagBits(w);
    var terms, end := SerializeTerms(w.file.terms, w.termFlags), SerializeFileEnd(w);
    var head := Record(w.file.fileHash, FlagsOf(w), |w.file.terms|, w.reserved.0, w.reserved.1);
    var rest := terms + (end + more);
    RecordFields(w.file.fileHash, FlagsOf(w), |w.file.terms|, w.reserved.0, w.reserved.1, rest);
    assert SerializeFile(w) + more == head + rest;
    assert (head + rest)[|head| + |terms|..] == end + more;
  }

  lemma FileRoundTrip(w: FileForm, more: Bytes)
    requires ValidFileForm(w)
    ensures var s := SerializeFile(w) + more;
            !SectionEnds(s) && s[|SerializeFile(w)|..] == more &&
            ParseFile(s) == Ok((w.file, |SerializeFile(w)|))
  {
    hide FlagsOf, Word, SerializeFile, SerializeTerms, SerializeFileEnd, ParseTerms, ParseFileEnd;
    FileParts(w, more);
    TermsRoundTrip(w.file.terms, w.termFlags, SerializeFileEnd(w) + more);
    FileEndRoundTrip(w, more);
  }

  lemma {:induction false} FilesRoundTrip(ws: seq<FileForm>, end: Bytes)
    requires ValidFileForms(ws)
    requires SectionEnds(end)
    ensures ParseFiles(SerializeFiles(ws) + end) == Ok((FilesOf(ws), |SerializeFiles(ws)| + EndLength(end)))
    decreases |ws|
  {
    hide ParseFile, SerializeFile, ValidFileForm;
    var s := SerializeFiles(ws) + end;
    if ws == [] {
      assert s == end;
    } else {
      var rest := SerializeFiles(ws[1..]) + end;
      assert s == SerializeFile(ws[0]) + rest;
      FileRoundTrip(ws[0], rest);
      FilesRoundTrip(ws[1..], end);
    }
  }

  lemma {:induction false} ChunkHashesRoundTrip(hashes: seq<Hash>, words: seq<(nat, nat, nat, nat)>, more: Bytes)
    requires |words| == |hashes|
    ensures ChunkHashes(SerializeChunkHashes(hashes, words) + more, |hashes|) == hashes
    decreases |hashes|
  {
    if hashes != [] {
      var w := words[0];
      var rest := SerializeChunkHashes(hashes[1..], words[1..]) + more;
      RecordSlices(hashes[0], w.0, w.1, w.2, w.3, rest);
      assert SerializeChunkHashes(hashes, words) + more == Record(hashes[0], w.0, w.1, w.2, w.3) + rest;
      ChunkHashesRoundTrip(hashes[1..], words[1..], more);
    }
  }

  lemma XorbRoundTrip(w: XorbForm, more: Bytes)
    requires ValidXorbForm(w)
    ensures var s := SerializeXorb(w) + more;
            !SectionEnds(s) && s[|SerializeXorb(w)|..] == more &&
            ParseXorb(s) == Ok((w.xorb, |SerializeXorb(w)|))
  {
    hide Record, Word, SerializeChunkHashes, ChunkHashes;
    var s, x := SerializeXorb(w) + more, w.xorb;
    var rest := SerializeChunkHashes(x.chunkHashes, w.chunkWords) + more;
    RecordFields(x.xorbHash, w.flags, x.numChunks, x.numBytesInXorb, x.numBytesOnDisk, rest);
    assert s == Record(x.xorbHash, w.flags, x.numChunks, x.numBytesInXorb, x.numBytesOnDisk) + rest;
    ChunkHashesRoundTrip(x.chunkHashes, w.chunkWords, more);
  }

  lemma {:induction false} XorbsRoundTrip(ws: seq<XorbForm>, end: Bytes)
    requires ValidXorbForms(ws)
    requires SectionEnds(end)
    ensures ParseXorbs(SerializeXorbs(ws) + end) == Ok((XorbsOf(ws), |SerializeXorbs(ws)| + EndLength(end)))
    decreases |ws|
  {
    hide ParseXorb, SerializeXorb, ValidXorbForm;
    var s := SerializeXorbs(ws) + end;
    if ws == [] {
      assert s == end;
    } else {
      var rest := SerializeXorbs(ws[1..]) + end;
      assert s == SerializeXorb(ws[0]) + rest;
      XorbRoundTrip(ws[0], rest);
      XorbsRoundTrip(ws[1..], end);
    }
  }

  lemma QuadRoundTrip(n: nat)
    requires n < 0x1_0000_0000_0000_0000
    ensures LittleEndian(ToLittleEndian(n, 8)) == n
  {
    assert Pow256(8) == 256 * (256 * (256 * (256 * Pow256(4))));
    assert Pow256(4) == 256 * (256 * (256 * (256 * Pow256(0))));
    LittleEndianRoundTrip(n, 8);
  }

  function ShardHeader(version: nat, footerSize: nat): (h: Bytes)
    ensures |h| == SHARD_HEADER_LEN
  {
    SHARD_HEADER_TAG + ToLittleEndian(version, 8) + ToLittleEndian(footerSize, 8)
  }

  lemma HeaderSlices(version: nat, footerSize: nat, more: Bytes)
    ensures var d := ShardHeader(version, footerSize) + more;
            d[..32] == SHARD_HEADER_TAG && d[40..48] == ToLittleEndian(footerSize, 8) && d[SHARD_HEADER_LEN..] == more
  {
  }

  /** The sequential layout: file records up to a bookend, then xorb records; end is a
      bookend with anything after it, or less than a record. */
  lemma SequentialRoundTrip(fs: seq<FileForm>, xs: seq<XorbForm>, version: nat, book: (nat, nat, nat, nat), end: Bytes)
    requires ValidFileForms(fs) && ValidXorbForms(xs) && SectionEnds(end)
    ensures var data := ShardHeader(version, 0) + SerializeFiles(fs) + BookendRecord(book.0, book.1, book.2, book.3) + SerializeXorbs(xs) + end;
            ShardResult(data) == Ok(Shard(FilesOf(fs), XorbsOf(xs)))
  {
    hide ParseFiles, ParseXorbs, SerializeFiles, SerializeXorbs, Record, LittleEndian, ToLittleEndian, ShardHeader;
    var bookend := BookendRecord(book.0, book.1, book.2, book.3);
    var xorbs := SerializeXorbs(xs) + end;
    var body := SerializeFiles(fs) + (bookend + xorbs);
    var data := ShardHeader(version, 0) + SerializeFiles(fs) + bookend + SerializeXorbs(xs) + end;
    assert data == ShardHeader(version, 0) + body;
    HeaderSlices(version, 0, body);
    QuadRoundTrip(0);
    RecordSlices(BOOKEND, book.0, book.1, book.2, book.3, xorbs);
    FilesRoundTrip(fs, bookend + xorbs);
    XorbsRoundTrip(xs, end);
    assert body == (SerializeFiles(fs) + bookend) + xorbs;
    assert body[|SerializeFiles(fs)| + SHARD_RECORD_LEN..] == xorbs;
  }

  /** The footered layout: sections anywhere between header and footer, located by the
      footer's offsets. */
  lemma FooteredRoundTrip(fs: seq<FileForm>, xs: seq<XorbForm>, version: nat, gap: Bytes, fileEnd: Bytes,
                          xorbEnd: Bytes, lookup: Bytes, footerStart: Bytes, footerRest: Bytes)
    requires ValidFileForms(fs) && ValidXorbForms(xs) && SectionEnds(fileEnd) && SectionEnds(xorbEnd) && |footerStart| == 8
    requires var files, xorbs := SerializeFiles(fs) + fileEnd, SerializeXorbs(xs) + xorbEnd;
             SHARD_HEADER_LEN + |gap| + |files| + |xorbs| + |lookup| + 32 + |footerRest| < 0x1_0000_0000_0000_0000
    ensures var files, xorbs := SerializeFiles(fs) + fileEnd, SerializeXorbs(xs) + xorbEnd;
            var f := SHARD_HEADER_LEN + |gap|;
            var footer := FooterOf(footerStart, f, f + |files|, f + |files| + |xorbs|, footerRest);
            var data := ShardHeader(version, |footer|) + gap + files + xorbs + lookup + footer;
            ShardResult(data) == Ok(Shard(FilesOf(fs), XorbsOf(xs)))
  {
    hide ParseFiles, ParseXorbs, SerializeFiles, SerializeXorbs, LittleEndian, ToLittleEndian, ShardHeader, FooterOf;
    var files, xorbs := SerializeFiles(fs) + fileEnd, SerializeXorbs(xs) + xorbEnd;
    var f := SHARD_HEADER_LEN + |gap|;
    var x, l := f + |files|, f + |files| + |xorbs|;
    var footer := FooterOf(footerStart, f, x, l, footerRest);
    FooteredSlices(ShardHeader(version, |footer|), gap, files, xorbs, lookup, footer);
    HeaderSlices(version, |footer|, gap + files + xorbs + lookup + footer);
    QuadRoundTrip(|footer|);
    FooterFields(footerStart, f, x, l, footerRest);
    FilesRoundTrip(fs, fileEnd);
    XorbsRoundTrip(xs, xorbEnd);
  }

  lemma FooteredSlices(header: Bytes, gap: Bytes, files: Bytes, xorbs: Bytes, lookup: Bytes, footer: Bytes)
    ensures var data := header + gap + files + xorbs + lookup + footer;
            var f := |header| + |gap|;
            data == header + (gap + files + xorbs + lookup + footer) &&
            data[|data| - |footer|..] == footer &&
            data[f..f + |files|] == files && data[f + |files|..f + |files| + |xorbs|] == xorbs
  {
    var data := header + gap + files + xorbs + lookup + footer;
    MiddleSlices(header + gap, files, xorbs, lookup + footer);
    assert data == (header + gap) + files + xorbs + (lookup + footer);
  }

  lemma MiddleSlices(a: Bytes, b: Bytes, c: Bytes, d: Bytes)
    ensures var s := a + b + c + d;
            s[|a|..|a| + |b|] == b && s[|a| + |b|..|a| + |b| + |c|] == c
  {
  }

  function FooterOf(start: Bytes, f: nat, x: nat, l: nat, rest: Bytes): (footer: Bytes)
    ensures |footer| == |start| + 24 + |rest|
  {
    start + ToLittleEndian(f, 8) + ToLittleEndian(x, 8) + ToLittleEndian(l, 8) + rest
  }

  lemma FooterFields(start: Bytes, f: nat, x: nat, l: nat, rest: Bytes)
    requires |start| == 8 && f <= x <= l < 0x1_0000_0000_0000_0000
    ensures var footer := FooterOf(start, f, x, l, rest);
            |footer| == 32 + |rest| && LittleEndian(footer[8..16]) == f && LittleEndian(footer[16..24]) == x && LittleEndian(footer[24..32]) == l
  {
    var footer := FooterOf(start, f, x, l, rest);
    assert footer[8..16] == ToLittleEndian(f, 8);
    assert footer[16..24] == ToLittleEndian(x, 8);
    assert footer[24..32] == ToLittleEndian(l, 8);
    QuadRoundTrip(f);
    QuadRoundTrip(x);
    QuadRoundTrip(l);
  }

  // ---------------------------------------------------------------- whatever is parsed is a serialization

  lemma WordsOf(s: Bytes, k: nat)
    requires |s| >= SHARD_RECORD_LEN && k < 4
    ensures IsU32(Word(s, k)) && ToLittleEndian(Word(s, k), 4) == s[HASH_LEN + 4 * k..HASH_LEN + 4 * k + 4]
  {
    assert Pow256(4) == 256 * (256 * (256 * (256 * Pow256(0))));
    ToLittleEndianInverts(s[HASH_LEN + 4 * k..HASH_LEN + 4 * k + 4]);
  }

  /** Any 48 bytes are the record of a hash and four words. */
  lemma RecordOf(s: Bytes)
    requires |s| >= SHARD_RECORD_LEN
    ensures s[..SHARD_RECORD_LEN] == Record(s[..HASH_LEN], Word(s, 0), Word(s, 1), Word(s, 2), Word(s, 3))
    ensures forall k: nat :: k < 4 ==> IsU32(Word(s, k))
  {
    forall k: nat | k < 4 ensures IsU32(Word(s, k)) { WordsOf(s, k); }
    WordsOf(s, 0);
    WordsOf(s, 1);
    WordsOf(s, 2);
    WordsOf(s, 3);
    hide Word, ToLittleEndian;
  }

  lemma {:induction false} TermsParsed(s: Bytes, n: nat) returns (flags: seq<nat>)
    requires ParseTerms(s, n).Ok?
    ensures |flags| == n && s[..SHARD_RECORD_LEN * n] == SerializeTerms(ParseTerms(s, n).value, flags)
    ensures forall i :: 0 <= i < n ==> ValidTerm(ParseTerms(s, n).value[i])
    decreases n
  {
    hide Word, Record;
    if n == 0 {
      flags := [];
    } else {
      var more := TermsParsed(s[SHARD_RECORD_LEN..], n - 1);
      flags := [Word(s, 0)] + more;
      RecordOf(s);
      assert flags[1..] == more;
      var terms := ParseTerms(s, n).value;
      assert terms[1..] == ParseTerms(s[SHARD_RECORD_LEN..], n - 1).value;
      assert s[..SHARD_RECORD_LEN * n] == s[..SHARD_RECORD_LEN] + s[SHARD_RECORD_LEN..][..SHARD_RECORD_LEN * (n - 1)];
    }
  }

  /** The flags word is made of its two known bits and the others. */
  lemma FlagsSplit(flags: nat)
    requires IsU32(flags)
    ensures flags == flags % FLAG_METADATA + (if HasVerification(flags) then FLAG_VERIFICATION else 0) +
                     (if HasMetadata(flags) then FLAG_METADATA else 0)
  {
  }

  /** What a parsed file record held besides the file. */
  function FormOf(s: Bytes, file: ShardFile, termFlags: seq<nat>): FileForm
    requires |s| >= SHARD_RECORD_LEN
  {
    var flags, n := Word(s, 0), Word(s, 1);
    var end := SHARD_RECORD_LEN + SHARD_RECORD_LEN * n;
    FileForm(file, flags % FLAG_METADATA, (Word(s, 2), Word(s, 3)), termFlags,
             if end <= |s| then VerificationOf(s[end..], flags, n) else None, if end <= |s| then MetadataOf(s[end..], flags, n) else None)
  }

  function VerificationOf(s: Bytes, flags: nat, n: nat): Option<Bytes> {
    if HasVerification(flags) && SHARD_RECORD_LEN * n <= |s| then Some(s[..SHARD_RECORD_LEN * n]) else None
  }

  function MetadataOf(s: Bytes, flags: nat, n: nat): Option<(nat, nat, nat, nat)> {
    var off := if HasVerification(flags) then SHARD_RECORD_LEN * n else 0;
    if HasMetadata(flags) && off + SHARD_RECORD_LEN <= |s| then
      Some((Word(s[off..], 0), Word(s[off..], 1), Word(s[off..], 2), Word(s[off..], 3)))
    else None
  }

  /** A file record that parses is the serialization of that file. */
  lemma FileParsed(s: Bytes) returns (w: FileForm)
    requires !SectionEnds(s) && ParseFile(s).Ok?
    ensures ValidFileForm(w) && w.file == ParseFile(s).value.0 && s[..ParseFile(s).value.1] == SerializeFile(w)
  {
    hide ParseFile, Word, Record, HasVerification, HasMetadata, ParseTerms, SerializeTerms, SerializeFileEnd, ParseFileEnd,
         VerificationOf, MetadataOf, FlagsOf, ValidTerm;
    var flags, n, file := Word(s, 0), Word(s, 1), ParseFile(s).value.0;
    var end := SHARD_RECORD_LEN + SHARD_RECORD_LEN * n;
    FileOpened(s);
    var termFlags := TermsParsed(s[SHARD_RECORD_LEN..], n);
    w := FormOf(s, file, termFlags);
    FileEndParsed(s[end..], flags, n, w);
    RecordOf(s);
    FormFlags(flags, w);
    FormSerialized(s, n, w, ParseFile(s).value.1);
    assert ValidFileForm(w);
  }

  lemma FormFlags(flags: nat, w: FileForm)
    requires IsU32(flags) && w.otherFlags == flags % FLAG_METADATA
    requires w.verification.Some? == HasVerification(flags) && w.metadata.Some? == HasMetadata(flags)
    ensures FlagsOf(w) == flags && w.otherFlags < FLAG_METADATA
  {
    FlagsSplit(flags);
  }

  lemma FormSerialized(s: Bytes, n: nat, w: FileForm, len: nat)
    requires ValidFileForm(w) && |w.file.terms| == n
    requires var end := SHARD_RECORD_LEN + SHARD_RECORD_LEN * n;
             end <= len <= |s| && s[..SHARD_RECORD_LEN] == Record(w.file.fileHash, FlagsOf(w), n, w.reserved.0, w.reserved.1) &&
             s[SHARD_RECORD_LEN..][..SHARD_RECORD_LEN * n] == SerializeTerms(w.file.terms, w.termFlags) &&
             s[end..][..len - end] == SerializeFileEnd(w)
    ensures s[..len] == SerializeFile(w)
  {
    hide ValidTerm, Record, FlagsOf, SerializeTerms, SerializeFileEnd;
    ThreeParts(s, SHARD_RECORD_LEN, SHARD_RECORD_LEN * n, len - SHARD_RECORD_LEN - SHARD_RECORD_LEN * n);
  }

  lemma ThreeParts(s: Bytes, i: nat, j: nat, k: nat)
    requires i + j + k <= |s|
    ensures s[..i + j + k] == s[..i] + (s[i..][..j] + s[i + j..][..k])
  {
  }

  lemma FileOpened(s: Bytes)
    requires !SectionEnds(s) && ParseFile(s).Ok?
    ensures var flags, n, file, len := Word(s, 0), Word(s, 1), ParseFile(s).value.0, ParseFile(s).value.1;
            var end := SHARD_RECORD_LEN + SHARD_RECORD_LEN * n;
            n <= MAX_ENTRIES && end <= |s| && ParseTerms(s[SHARD_RECORD_LEN..], n).Ok? && ParseFileEnd(s[end..], flags, n).Ok? &&
            file == ShardFile(s[..HASH_LEN], ParseFileEnd(s[end..], flags, n).value.0, ParseTerms(s[SHARD_RECORD_LEN..], n).value) &&
            len == end + ParseFileEnd(s[end..], flags, n).value.1 && s[..HASH_LEN] != BOOKEND
  {
    hide Word, ParseTerms, ParseFileEnd;
  }

  lemma FileEndParsed(s: Bytes, flags: nat, n: nat, w: FileForm)
    requires ParseFileEnd(s, flags, n).Ok?
    requires w.verification == VerificationOf(s, flags, n) && w.metadata == MetadataOf(s, flags, n)
    requires w.file.sha256 == ParseFileEnd(s, flags, n).value.0
    ensures s[..ParseFileEnd(s, flags, n).value.1] == SerializeFileEnd(w)
    ensures w.verification.Some? == HasVerification(flags) && w.metadata.Some? == HasMetadata(flags)
    ensures w.verification.Some? ==> |w.verification.value| == SHARD_RECORD_LEN * n
    ensures w.metadata.None? ==> w.file.sha256 == ZERO_HASH
  {
    hide Word, Record, HasVerification, HasMetadata;
    var off := if HasVerification(flags) then SHARD_RECORD_LEN * n else 0;
    if HasMetadata(flags) {
      RecordOf(s[off..]);
      assert s[off..][..HASH_LEN] == s[off..off + HASH_LEN];
      assert s[..off + SHARD_RECORD_LEN] == s[..off] + s[off..][..SHARD_RECORD_LEN];
    }
  }

  /** s is a section of these files: their records, up to the section's end. */
  ghost predicate IsFileSection(s: Bytes, files: seq<ShardFile>, rest: Bytes) {
    SectionEnds(rest) &&
    exists ws {:trigger FilesOf(ws)} :: ValidFileForms(ws) && FilesOf(ws) == files && s == SerializeFiles(ws) + rest
  }

  lemma {:induction false} FilesParsed(s: Bytes) returns (ws: seq<FileForm>, rest: Bytes)
    requires ParseFiles(s).Ok?
    ensures ValidFileForms(ws) && FilesOf(ws) == ParseFiles(s).value.0 && s == SerializeFiles(ws) + rest && SectionEnds(rest)
    ensures ParseFiles(s).value.1 == |SerializeFiles(ws)| + EndLength(rest)
    decreases |s|
  {
    hide ParseFile, ValidFileForm, SerializeFile;
    if SectionEnds(s) {
      ws, rest := [], s;
    } else {
      var f := ParseFile(s).value;
      var w := FileParsed(s);
      var more;
      more, rest := FilesParsed(s[f.1..]);
      ws := [w] + more;
      assert ws[1..] == more;
      assert s == s[..f.1] + s[f.1..];
    }
  }

  lemma {:induction false} HashesParsed(s: Bytes, n: nat) returns (words: seq<(nat, nat, nat, nat)>)
    requires SHARD_RECORD_LEN * n <= |s|
    ensures |words| == n && s[..SHARD_RECORD_LEN * n] == SerializeChunkHashes(ChunkHashes(s, n), words)
    decreases n
  {
    hide Word, Record;
    if n == 0 {
      words := [];
    } else {
      var more := HashesParsed(s[SHARD_RECORD_LEN..], n - 1);
      words := [(Word(s, 0), Word(s, 1), Word(s, 2), Word(s, 3))] + more;
      RecordOf(s);
      assert words[1..] == more;
      assert ChunkHashes(s, n)[1..] == ChunkHashes(s[SHARD_RECORD_LEN..], n - 1);
      assert s[..SHARD_RECORD_LEN * n] == s[..SHARD_RECORD_LEN] + s[SHARD_RECORD_LEN..][..SHARD_RECORD_LEN * (n - 1)];
    }
  }

  lemma XorbParsed(s: Bytes) returns (w: XorbForm)
    requires !SectionEnds(s) && ParseXorb(s).Ok?
    ensures ValidXorbForm(w) && w.xorb == ParseXorb(s).value.0 && s[..ParseXorb(s).value.1] == SerializeXorb(w)
  {
    var n, xorb, len := Word(s, 1), ParseXorb(s).value.0, ParseXorb(s).value.1;
    RecordOf(s);
    var words := HashesParsed(s[SHARD_RECORD_LEN..], n);
    w := XorbForm(xorb, Word(s, 0), words);
    hide Word, Record, ChunkHashes, SerializeChunkHashes;
    assert s[..len] == s[..SHARD_RECORD_LEN] + s[SHARD_RECORD_LEN..][..SHARD_RECORD_LEN * n];
  }

  ghost predicate IsXorbSection(s: Bytes, xorbs: seq<ShardXorb>) {
    exists ws, rest {:trigger SerializeXorbs(ws) + rest} ::
      ValidXorbForms(ws) && XorbsOf(ws) == xorbs && s == SerializeXorbs(ws) + rest && SectionEnds(rest)
  }

  lemma {:induction false} XorbsParsed(s: Bytes) returns (ws: seq<XorbForm>, rest: Bytes)
    requires ParseXorbs(s).Ok?
    ensures ValidXorbForms(ws) && XorbsOf(ws) == ParseXorbs(s).value.0 && s == SerializeXorbs(ws) + rest && SectionEnds(rest)
    decreases |s|
  {
    hide ParseXorb, ValidXorbForm, SerializeXorb;
    if SectionEnds(s) {
      ws, rest := [], s;
    } else {
      var x := ParseXorb(s).value;
      var w := XorbParsed(s);
      var more;
      more, rest := XorbsParsed(s[x.1..]);
      ws := [w] + more;
      assert ws[1..] == more;
      assert s == s[..x.1] + s[x.1..];
    }
  }

  /** The bytes of a shard: the magic tag, and sections either right after the header, the second
      after the end of the first, or where the footer's offsets say. */
  ghost predicate IsShard(data: Bytes, shard: Shard) {
    |data| >= SHARD_HEADER_LEN && data[..32] == SHARD_HEADER_TAG &&
    var footerSize := LittleEndian(data[40..48]);
    if footerSize == 0 then
      exists rest :: IsFileSection(data[SHARD_HEADER_LEN..], shard.files, rest) &&
                     IsXorbSection(if |rest| < SHARD_RECORD_LEN then rest else rest[SHARD_RECORD_LEN..], shard.xorbs)
    else 32 <= footerSize <= |data| && IsFooteredShard(data, data[|data| - footerSize..], shard)
  }

  ghost predicate IsFooteredShard(data: Bytes, footer: Bytes, shard: Shard)
    requires |footer| >= 32
  {
    var f, x, l := LittleEndian(footer[8..16]), LittleEndian(footer[16..24]), LittleEndian(footer[24..32]);
    f <= x <= l <= |data| && IsXorbSection(data[x..l], shard.xorbs) && exists rest :: IsFileSection(data[f..x], shard.files, rest)
  }

  lemma FileSectionParses(s: Bytes, files: seq<ShardFile>, rest: Bytes)
    requires IsFileSection(s, files, rest)
    ensures ParseFiles(s) == Ok((files, |s| - |rest| + EndLength(rest)))
  {
    hide ParseFiles, SerializeFiles, SectionEnds;
    var ws :| ValidFileForms(ws) && FilesOf(ws) == files && s == SerializeFiles(ws) + rest;
    FilesRoundTrip(ws, rest);
  }

  lemma FileSectionParsed(s: Bytes) returns (rest: Bytes)
    requires ParseFiles(s).Ok?
    ensures IsFileSection(s, ParseFiles(s).value.0, rest) && |rest| <= |s| && s[|s| - |rest|..] == rest
    ensures ParseFiles(s).value.1 == |s| - |rest| + EndLength(rest)
  {
    hide ParseFiles, SerializeFiles, SectionEnds, ValidFileForm;
    var ws;
    ws, rest := FilesParsed(s);
  }

  lemma XorbSectionParses(s: Bytes)
    ensures forall xorbs :: IsXorbSection(s, xorbs) <==> ParseXorbs(s).Ok? && ParseXorbs(s).value.0 == xorbs
  {
    hide ParseXorbs, SerializeXorbs, SectionEnds, ValidXorbForm;
    forall xorbs ensures IsXorbSection(s, xorbs) <==> ParseXorbs(s).Ok? && ParseXorbs(s).value.0 == xorbs {
      if IsXorbSection(s, xorbs) {
        var ws, rest :| ValidXorbForms(ws) && XorbsOf(ws) == xorbs && s == SerializeXorbs(ws) + rest && SectionEnds(rest);
        XorbsRoundTrip(ws, rest);
      }
      if ParseXorbs(s).Ok? {
        var ws, rest := XorbsParsed(s);
        assert s == SerializeXorbs(ws) + rest;
      }
    }
  }

  lemma ShardAccepted(data: Bytes)
    requires ShardResult(data).Ok?
    ensures IsShard(data, ShardResult(data).value)
  {
    hide ParseFiles, ParseXorbs, IsFileSection, IsXorbSection, LittleEndian;
    var footerSize := LittleEndian(data[40..48]);
    if footerSize == 0 {
      var body := data[SHARD_HEADER_LEN..];
      var rest := FileSectionParsed(body);
      XorbSectionParses(body[ParseFiles(body).value.1..]);
      assert body[ParseFiles(body).value.1..] == if |rest| < SHARD_RECORD_LEN then rest else rest[SHARD_RECORD_LEN..];
    } else {
      var footer := data[|data| - footerSize..];
      var f, x, l := LittleEndian(footer[8..16]), LittleEndian(footer[16..24]), LittleEndian(footer[24..32]);
      var rest := FileSectionParsed(data[f..x]);
      XorbSectionParses(data[x..l]);
    }
  }

  lemma IsShardAccepted(data: Bytes, shard: Shard)
    requires IsShard(data, shard)
    ensures ShardResult(data) == Ok(shard)
  {
    hide ParseFiles, ParseXorbs, IsXorbSection, LittleEndian, SectionEnds, IsFileSection;
    var footerSize := LittleEndian(data[40..48]);
    if footerSize == 0 {
      var body := data[SHARD_HEADER_LEN..];
      var rest :| IsFileSection(body, shard.files, rest) &&
                  IsXorbSection(if |rest| < SHARD_RECORD_LEN then rest else rest[SHARD_RECORD_LEN..], shard.xorbs);
      FileSectionParses(body, shard.files, rest);
      SectionSuffix(body, shard.files, rest);
      XorbSectionParses(body[ParseFiles(body).value.1..]);
      assert body[ParseFiles(body).value.1..] == if |rest| < SHARD_RECORD_LEN then rest else rest[SHARD_RECORD_LEN..];
    } else {
      var footer := data[|data| - footerSize..];
      var f, x, l := LittleEndian(footer[8..16]), LittleEndian(footer[16..24]), LittleEndian(footer[24..32]);
      var rest :| IsFileSection(data[f..x], shard.files, rest);
      FileSectionParses(data[f..x], shard.files, rest);
      XorbSectionParses(data[x..l]);
    }
  }

  lemma SectionSuffix(s: Bytes, files: seq<ShardFile>, rest: Bytes)
    requires IsFileSection(s, files, rest)
    ensures |rest| <= |s| && s[|s| - |rest|..] == rest
  {
    hide SerializeFiles, SectionEnds;
  }

  lemma {:induction false} FileErrors(s: Bytes)
    ensures ParseFiles(s).Err? ==> ParseFiles(s).error in [ImplausibleFileCount, FileSectionTruncated, MetadataTruncated]
    decreases |s|
  {
    hide ParseFile;
    if !SectionEnds(s) {
      if ParseFile(s).Ok? {
        FileErrors(s[ParseFile(s).value.1..]);
      } else {
        FileError(s);
      }
    }
  }

  lemma FileError(s: Bytes)
    requires |s| >= SHARD_RECORD_LEN
    ensures ParseFile(s).Err? ==> ParseFile(s).error in [ImplausibleFileCount, FileSectionTruncated, MetadataTruncated]
  {
    hide ParseTerms;
    TermErrors(s[SHARD_RECORD_LEN..], Word(s, 1));
  }

  lemma {:induction false} TermErrors(s: Bytes, n: nat)
    ensures ParseTerms(s, n).Err? ==> ParseTerms(s, n).error == FileSectionTruncated
    decreases n
  {
    if n > 0 && |s| >= SHARD_RECORD_LEN {
      TermErrors(s[SHARD_RECORD_LEN..], n - 1);
    }
  }

  lemma {:induction false} XorbErrors(s: Bytes)
    ensures ParseXorbs(s).Err? ==> ParseXorbs(s).error in [ImplausibleXorbCount, XorbSectionTruncated]
    decreases |s|
  {
    if !SectionEnds(s) && ParseXorb(s).Ok? {
      XorbErrors(s[ParseXorb(s).value.1..]);
    }
  }

  /** The data is refused for its header or its footer. */
  predicate HeaderError(data: Bytes, e: ShardError) {
    if |data| < SHARD_HEADER_LEN then e == TooShort
    else if data[..32] != SHARD_HEADER_TAG then e == BadMagic
    else
      var footerSize := LittleEndian(data[40..48]);
      if footerSize > |data| then e == ImplausibleFooter
      else if 0 < footerSize < 32 then e == FooterTooShort
      else footerSize >= 32 && OffsetsBad(data, data[|data| - footerSize..]) && e == OffsetsOutOfOrder
  }

  predicate OffsetsBad(data: Bytes, footer: Bytes)
    requires |footer| >= 32
  {
    !(LittleEndian(footer[8..16]) <= LittleEndian(footer[16..24]) <= LittleEndian(footer[24..32]) <= |data|)
  }

  /** Header and footer alone decide these refusals; every other one is a section's. */
  lemma HeaderErrors(data: Bytes)
    ensures forall e :: e in [TooShort, BadMagic, ImplausibleFooter, FooterTooShort, OffsetsOutOfOrder] ==>
              (ShardResult(data) == Err(e) <==> HeaderError(data, e))
  {
    hide ParseFiles, ParseXorbs, LittleEndian;
    if |data| >= SHARD_HEADER_LEN {
      var body := data[SHARD_HEADER_LEN..];
      FileErrors(body);
      if ParseFiles(body).Ok? { XorbErrors(body[ParseFiles(body).value.1..]); }
      var footerSize := LittleEndian(data[40..48]);
      if 32 <= footerSize <= |data| {
        var footer := data[|data| - footerSize..];
        var f, x, l := LittleEndian(footer[8..16]), LittleEndian(footer[16..24]), LittleEndian(footer[24..32]);
        if f <= x <= l <= |data| {
          FileErrors(data[f..x]);
          XorbErrors(data[x..l]);
        }
      }
    }
  }

  /** Every byte string: it parses to a shard if and only if it is one, and to no other. */
  lemma ShardAcceptedExactlyWhen(data: Bytes, shard: Shard)
    ensures ShardResult(data) == Ok(shard) <==> IsShard(data, shard)
  {
    hide ShardResult, IsShard;
    if ShardResult(data) == Ok(shard) {
      ShardAccepted(data);
    }
    if IsShard(data, shard) {
      IsShardAccepted(data, shard);
    }
  }
}
