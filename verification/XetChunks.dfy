/** Serialized xorbs: the chunk walker, the byte-grouping transform and chunk decoding
    (internal/xet/chunks.go). */
module XetChunks {
  import opened Common

  const CHUNK_HEADER_LEN := 8
  const CHUNK_HEADER_VERSION := 0
  const MAX_SCHEME := 2
  const MAX_CHUNK_SIZE := 0x2_0000

  /** "XETBLOB" */
  const XORB_FOOTER_IDENT: Bytes := [88, 69, 84, 66, 76, 79, 66]

  datatype ChunkInfo = ChunkInfo(start: nat, end: nat, unpackedLen: nat, scheme: Byte)

  datatype WalkError = TruncatedHeader | BadVersion | BadScheme | Implausible | Overrun | NoChunks

  // ---------------------------------------------------------------- walking

  /** The header at the front of rest, which starts at offset base of the xorb; the checks
      come in the walker's order. */
  function ReadHeader(rest: Bytes, base: nat): (r: Result<ChunkInfo, WalkError>)
    ensures r.Ok? ==> r.value.start == base && base + CHUNK_HEADER_LEN <= r.value.end <= base + |rest|
  {
    if |rest| < CHUNK_HEADER_LEN then Err(TruncatedHeader)
    else
      var compressedLen := U24(rest[1], rest[2], rest[3]);
      var unpackedLen := U24(rest[5], rest[6], rest[7]);
      if rest[0] != CHUNK_HEADER_VERSION then Err(BadVersion)
      else if rest[4] > MAX_SCHEME then Err(BadScheme)
      else if unpackedLen > MAX_CHUNK_SIZE || compressedLen > 2 * MAX_CHUNK_SIZE then Err(Implausible)
      else if CHUNK_HEADER_LEN + compressedLen > |rest| then Err(Overrun)
      else Ok(ChunkInfo(base, base + CHUNK_HEADER_LEN + compressedLen, unpackedLen, rest[4]))
  }

  /** The chunk stream ends where the bytes end or the footer begins. */
  predicate StreamEnds(rest: Bytes) {
    rest == [] || XORB_FOOTER_IDENT <= rest
  }

  function Walk(rest: Bytes, base: nat): Result<seq<ChunkInfo>, WalkError>
    decreases |rest|
  {
    if StreamEnds(rest) then Ok([])
    else
      match ReadHeader(rest, base)
      case Err(e) => Err(e)
      case Ok(c) => Prepend([c], Walk(rest[c.end - base..], c.end))
  }

  function Prepend(cs: seq<ChunkInfo>, r: Result<seq<ChunkInfo>, WalkError>): Result<seq<ChunkInfo>, WalkError> {
    match r
    case Err(e) => Err(e)
    case Ok(rest) => Ok(cs + rest)
  }

  lemma PrependTwice(a: seq<ChunkInfo>, b: seq<ChunkInfo>, r: Result<seq<ChunkInfo>, WalkError>)
    ensures Prepend(a, Prepend(b, r)) == Prepend(a + b, r)
  {
    if r.Ok? {
      assert a + (b + r.value) == (a + b) + r.value;
    }
  }

  /** What the walker answers for a whole xorb. */
  function WalkResult(xorb: Bytes): Result<seq<ChunkInfo>, WalkError> {
    match Walk(xorb, 0)
    case Err(e) => Err(e)
    case Ok(cs) => if cs == [] then Err(NoChunks) else Ok(cs)
  }

  method WalkChunks(xorb: Bytes) returns (r: Result<seq<ChunkInfo>, WalkError>)
    ensures r == WalkResult(xorb)
    ensures r.Ok? <==> exists cs, tail :: IsXorb(xorb, cs, tail)
    ensures forall cs, tail :: IsXorb(xorb, cs, tail) ==> r == Ok(Layout(cs, 0))
  {
    hide IsXorb, Layout, SerializeChunks, SerializeChunk;
    WalkAcceptsExactly(xorb);
    var chunks: seq<ChunkInfo> := [];
    var offset := 0;
    assert xorb[0..] == xorb;
    EmptyPrepend(Walk(xorb, 0));
    while offset < |xorb|
      invariant 0 <= offset <= |xorb|
      invariant Walk(xorb, 0) == Prepend(chunks, Walk(xorb[offset..], offset))
    {
      var remaining := xorb[offset..];
      if |remaining| >= |XORB_FOOTER_IDENT| && remaining[..|XORB_FOOTER_IDENT|] == XORB_FOOTER_IDENT {
        break;
      }
      if |remaining| < CHUNK_HEADER_LEN {
        return Err(TruncatedHeader);
      }
      var version := remaining[0];
      var compressedLen := U24(remaining[1], remaining[2], remaining[3]);
      var scheme := remaining[4];
      var unpackedLen := U24(remaining[5], remaining[6], remaining[7]);
      if version != CHUNK_HEADER_VERSION {
        return Err(BadVersion);
      }
      if scheme > MAX_SCHEME {
        return Err(BadScheme);
      }
      if unpackedLen > MAX_CHUNK_SIZE || compressedLen > 2 * MAX_CHUNK_SIZE {
        return Err(Implausible);
      }
      var end := offset + CHUNK_HEADER_LEN + compressedLen;
      if end > |xorb| {
        return Err(Overrun);
      }
      var c := ChunkInfo(offset, end, unpackedLen, scheme);
      assert remaining[end - offset..] == xorb[end..];
      PrependTwice(chunks, [c], Walk(xorb[end..], end));
      chunks := chunks + [c];
      offset := end;
    }
    assert chunks + [] == chunks;
    if |chunks| == 0 {
      return Err(NoChunks);
    }
    return Ok(chunks);
  }

  lemma EmptyPrepend(r: Result<seq<ChunkInfo>, WalkError>)
    ensures Prepend([], r) == r
  {
    if r.Ok? {
      assert [] + r.value == r.value;
    }
  }

  // ---------------------------------------------------------------- the grammar of a xorb

  /** One chunk before serialization. */
  datatype Chunk = Chunk(scheme: Byte, unpackedLen: nat, payload: Bytes)

  predicate ValidChunk(c: Chunk) {
    c.scheme <= MAX_SCHEME && c.unpackedLen <= MAX_CHUNK_SIZE && |c.payload| <= 2 * MAX_CHUNK_SIZE
  }

  function SerializeHeader(c: Chunk): (h: Bytes)
    ensures |h| == CHUNK_HEADER_LEN
  {
    [CHUNK_HEADER_VERSION] + ToU24(|c.payload|) + [c.scheme] + ToU24(c.unpackedLen)
  }

  function SerializeChunk(c: Chunk): Bytes {
    SerializeHeader(c) + c.payload
  }

  function SerializeChunks(cs: seq<Chunk>): Bytes {
    if cs == [] then [] else SerializeChunk(cs[0]) + SerializeChunks(cs[1..])
  }

  /** What may follow the chunk stream. */
  predicate IsTail(tail: Bytes) {
    StreamEnds(tail)
  }

  predicate AllValid(cs: seq<Chunk>) {
    forall i :: 0 <= i < |cs| ==> ValidChunk(cs[i])
  }

  ghost predicate IsXorb(xorb: Bytes, cs: seq<Chunk>, tail: Bytes) {
    cs != [] && AllValid(cs) && IsTail(tail) && xorb == SerializeChunks(cs) + tail
  }

  /** The contiguous partition of the chunk stream, starting at base. */
  function Layout(cs: seq<Chunk>, base: nat): (r: seq<ChunkInfo>)
    ensures |r| == |cs|
  {
    if cs == [] then []
    else
      var end := base + |SerializeChunk(cs[0])|;
      [ChunkInfo(base, end, cs[0].unpackedLen, cs[0].scheme)] + Layout(cs[1..], end)
  }

  lemma ReadSerializedChunk(c: Chunk, more: Bytes, base: nat)
    requires ValidChunk(c)
    ensures var x := SerializeChunk(c) + more;
            !StreamEnds(x) && x[|SerializeChunk(c)|..] == more &&
            ReadHeader(x, base) == Ok(ChunkInfo(base, base + |SerializeChunk(c)|, c.unpackedLen, c.scheme))
  {
    var x, h := SerializeChunk(c) + more, SerializeHeader(c);
    assert x[0] == h[0] && x[1] == h[1] && x[2] == h[2] && x[3] == h[3] && x[4] == h[4] && x[5] == h[5] && x[6] == h[6] && x[7] == h[7];
    U24RoundTrip(|c.payload|);
    U24RoundTrip(c.unpackedLen);
  }

  /** Every serialization of valid chunks, followed by nothing or a footer, walks to its layout. */
  lemma {:induction false} WalkSerialized(cs: seq<Chunk>, tail: Bytes, base: nat)
    requires AllValid(cs) && IsTail(tail)
    ensures Walk(SerializeChunks(cs) + tail, base) == Ok(Layout(cs, base))
    decreases |cs|
  {
    hide ReadHeader, SerializeChunk, ValidChunk, StreamEnds;
    var x := SerializeChunks(cs) + tail;
    if cs == [] {
      assert x == tail;
    } else {
      var more := SerializeChunks(cs[1..]) + tail;
      assert x == SerializeChunk(cs[0]) + more;
      ReadSerializedChunk(cs[0], more, base);
      WalkSerialized(cs[1..], tail, base + |SerializeChunk(cs[0])|);
    }
  }

  lemma HeaderDetermines(rest: Bytes, base: nat) returns (c: Chunk)
    requires ReadHeader(rest, base).Ok?
    ensures var n := ReadHeader(rest, base).value.end - base;
            ValidChunk(c) && rest == SerializeChunk(c) + rest[n..] && n == |SerializeChunk(c)|
  {
    var info := ReadHeader(rest, base).value;
    var n := info.end - base;
    c := Chunk(info.scheme, info.unpackedLen, rest[CHUNK_HEADER_LEN..n]);
    ToU24Inverts(rest[1], rest[2], rest[3]);
    ToU24Inverts(rest[5], rest[6], rest[7]);
    var h := SerializeHeader(c);
    assert h == [rest[0]] + [rest[1], rest[2], rest[3]] + [rest[4]] + [rest[5], rest[6], rest[7]];
    assert h == rest[..CHUNK_HEADER_LEN];
    assert rest == rest[..CHUNK_HEADER_LEN] + rest[CHUNK_HEADER_LEN..n] + rest[n..];
  }

  /** Whatever the walker accepts is a serialization of valid chunks plus a tail. */
  lemma {:induction false} WalkParses(rest: Bytes, base: nat) returns (cs: seq<Chunk>, tail: Bytes)
    requires Walk(rest, base).Ok?
    ensures AllValid(cs) && IsTail(tail) && rest == SerializeChunks(cs) + tail
    ensures |cs| == |Walk(rest, base).value|
    decreases |rest|
  {
    if StreamEnds(rest) {
      cs, tail := [], rest;
    } else {
      var info := ReadHeader(rest, base).value;
      var n := info.end - base;
      var c := HeaderDetermines(rest, base);
      var cs', tail' := WalkParses(rest[n..], info.end);
      cs, tail := [c] + cs', tail';
      assert cs[1..] == cs';
      assert SerializeChunk(c) + (SerializeChunks(cs') + tail) == (SerializeChunk(c) + SerializeChunks(cs')) + tail;
    }
  }

  lemma WalkAcceptsExactly(xorb: Bytes)
    ensures WalkResult(xorb).Ok? <==> exists cs, tail :: IsXorb(xorb, cs, tail)
    ensures forall cs, tail :: IsXorb(xorb, cs, tail) ==> WalkResult(xorb) == Ok(Layout(cs, 0))
  {
    forall cs, tail | IsXorb(xorb, cs, tail) ensures WalkResult(xorb) == Ok(Layout(cs, 0)) {
      WalkSerialized(cs, tail, 0);
    }
    if WalkResult(xorb).Ok? {
      var cs, tail := WalkParses(xorb, 0);
      assert IsXorb(xorb, cs, tail);
    }
  }

  /** A xorb has one reading: the version byte keeps footer and header apart. */
  lemma {:induction false} XorbReadingIsUnique(cs: seq<Chunk>, tail: Bytes, cs': seq<Chunk>, tail': Bytes)
    requires AllValid(cs) && IsTail(tail) && AllValid(cs') && IsTail(tail')
    requires SerializeChunks(cs) + tail == SerializeChunks(cs') + tail'
    ensures cs == cs' && tail == tail'
    decreases |cs|
  {
    hide SerializeChunk, ValidChunk, StreamEnds, Walk;
    var x := SerializeChunks(cs) + tail;
    if cs == [] || cs' == [] {
      WalkSerialized(cs, tail, 0);
      WalkSerialized(cs', tail', 0);
      assert |cs| == |cs'|;
      assert SerializeChunks([]) + tail == tail && SerializeChunks([]) + tail' == tail';
    } else {
      var more, more' := SerializeChunks(cs[1..]) + tail, SerializeChunks(cs'[1..]) + tail';
      assert x == SerializeChunk(cs[0]) + more;
      assert x == SerializeChunk(cs'[0]) + more';
      FirstChunkIsUnique(cs[0], more, cs'[0], more');
      XorbReadingIsUnique(cs[1..], tail, cs'[1..], tail');
      assert cs == [cs[0]] + cs[1..] && cs' == [cs'[0]] + cs'[1..];
    }
  }

  lemma FirstChunkIsUnique(a: Chunk, more: Bytes, b: Chunk, more': Bytes)
    requires ValidChunk(a) && ValidChunk(b)
    requires SerializeChunk(a) + more == SerializeChunk(b) + more'
    ensures a == b && more == more'
  {
    ReadSerializedChunk(a, more, 0);
    ReadSerializedChunk(b, more', 0);
    var x, n := SerializeChunk(a) + more, |SerializeChunk(a)|;
    assert n == |SerializeChunk(b)|;
    assert SerializeChunk(a) == x[..n];
    assert SerializeChunk(b) == x[..n];
    assert a.payload == x[..n][CHUNK_HEADER_LEN..];
    assert b.payload == x[..n][CHUNK_HEADER_LEN..];
  }

  // ---------------------------------------------------------------- byte grouping

  function PlaneSize(n: nat, p: nat): nat
    requires p < 4
  {
    n / 4 + if p < n % 4 then 1 else 0
  }

  function PlaneStart(n: nat, p: nat): nat
    requires p <= 4
  {
    match p
    case 0 => 0
    case 1 => PlaneSize(n, 0)
    case 2 => PlaneSize(n, 0) + PlaneSize(n, 1)
    case 3 => PlaneSize(n, 0) + PlaneSize(n, 1) + PlaneSize(n, 2)
    case 4 => n
  }

  lemma PlanesPartition(n: nat, p: nat)
    requires p < 4
    ensures PlaneStart(n, p) + PlaneSize(n, p) == PlaneStart(n, p + 1) <= n
  {
    assert n == 4 * (n / 4) + n % 4;
  }

  /** Position k of the original is byte k / 4 of plane k % 4, and every plane byte is one such position. */
  lemma PlaneOf(n: nat, k: nat)
    requires k < n
    ensures k / 4 < PlaneSize(n, k % 4)
    ensures PlaneStart(n, k % 4) + k / 4 < n
  {
    PlanesPartition(n, k % 4);
  }

  lemma PositionOf(n: nat, p: nat, i: nat)
    requires p < 4 && i < PlaneSize(n, p)
    ensures 4 * i + p < n && (4 * i + p) % 4 == p && (4 * i + p) / 4 == i
  {
  }

  /** Plane p of the original: its bytes at positions p, p + 4, p + 8, ... */
  function Plane(data: Bytes, p: nat): (r: Bytes)
    requires p < 4
    ensures |r| == PlaneSize(|data|, p)
  {
    seq(PlaneSize(|data|, p), i requires 0 <= i < PlaneSize(|data|, p) => PositionOf(|data|, p, i); data[4 * i + p])
  }

  /** The forward byte-grouping-4 transform clients apply before compressing. */
  function Bg4Split(data: Bytes): (r: Bytes)
    ensures |r| == |data|
  {
    PlanesPartition(|data|, 3);
    Plane(data, 0) + Plane(data, 1) + Plane(data, 2) + Plane(data, 3)
  }

  lemma AtPart(a: Bytes, b: Bytes, c: Bytes, d: Bytes, i: nat)
    ensures var all := a + b + c + d;
            (i < |a| ==> all[i] == a[i]) && (i < |b| ==> all[|a| + i] == b[i]) &&
            (i < |c| ==> all[|a| + |b| + i] == c[i]) && (i < |d| ==> all[|a| + |b| + |c| + i] == d[i])
  {
  }

  lemma Bg4SplitAt(data: Bytes, p: nat, i: nat)
    requires p < 4 && i < PlaneSize(|data|, p)
    ensures PlaneStart(|data|, p) + i < |data| && 4 * i + p < |data|
    ensures Bg4Split(data)[PlaneStart(|data|, p) + i] == data[4 * i + p]
  {
    PlanesPartition(|data|, p);
    PositionOf(|data|, p, i);
    AtPart(Plane(data, 0), Plane(data, 1), Plane(data, 2), Plane(data, 3), i);
    assert Plane(data, p)[i] == data[4 * i + p];
  }

  function Bg4RegroupedAt(g: Bytes, k: nat): Byte
    requires k < |g|
  {
    PlaneOf(|g|, k);
    g[PlaneStart(|g|, k % 4) + k / 4]
  }

  /** The regrouped bytes, position by position. */
  function Bg4Regrouped(g: Bytes): (r: Bytes)
    ensures |r| == |g|
  {
    seq(|g|, k requires 0 <= k < |g| => Bg4RegroupedAt(g, k))
  }

  lemma Bg4RegroupSplit(data: Bytes)
    ensures Bg4Regrouped(Bg4Split(data)) == data
  {
    forall k | 0 <= k < |data| ensures Bg4RegroupedAt(Bg4Split(data), k) == data[k] {
      PlaneOf(|data|, k);
      Bg4SplitAt(data, k % 4, k / 4);
    }
  }

  lemma Bg4SplitRegroupAt(g: Bytes, p: nat, i: nat)
    requires p < 4 && i < PlaneSize(|g|, p)
    ensures PlaneStart(|g|, p) + i < |g|
    ensures Bg4Split(Bg4Regrouped(g))[PlaneStart(|g|, p) + i] == g[PlaneStart(|g|, p) + i]
  {
    Bg4SplitAt(Bg4Regrouped(g), p, i);
    PositionOf(|g|, p, i);
    assert Bg4Regrouped(g)[4 * i + p] == Bg4RegroupedAt(g, 4 * i + p);
  }

  lemma Bg4SplitRegroup(g: Bytes)
    ensures Bg4Split(Bg4Regrouped(g)) == g
  {
    hide Bg4Split, Bg4Regrouped, PlaneSize;
    var n := |g|;
    PlanesPartition(n, 0);
    PlanesPartition(n, 1);
    PlanesPartition(n, 2);
    PlanesPartition(n, 3);
    forall j | 0 <= j < n ensures Bg4Split(Bg4Regrouped(g))[j] == g[j] {
      var p := if j < PlaneStart(n, 1) then 0 else if j < PlaneStart(n, 2) then 1 else if j < PlaneStart(n, 3) then 2 else 3;
      Bg4SplitRegroupAt(g, p, j - PlaneStart(n, p));
    }
  }

  lemma RegroupedFromPlane(g: Bytes, p: nat, i: nat)
    requires p < 4 && i < PlaneSize(|g|, p)
    ensures 4 * i + p < |g| && PlaneStart(|g|, p) + i < |g|
    ensures Bg4RegroupedAt(g, 4 * i + p) == g[PlaneStart(|g|, p) + i]
  {
    PositionOf(|g|, p, i);
    PlaneOf(|g|, 4 * i + p);
  }

  /** Position k is filled once the loops reach plane p, index i. */
  predicate Filled(k: nat, p: nat, i: nat) {
    k % 4 < p || (k % 4 == p && k / 4 < i)
  }

  /** Fills the output plane by plane. The ghost log of written positions shows that each
      position is written exactly once. */
  method Bg4Regroup(g: Bytes) returns (r: Bytes, ghost writes: seq<nat>)
    ensures r == Bg4Regrouped(g)
    ensures forall data :: g == Bg4Split(data) ==> r == data
    ensures Bg4Split(r) == g
    ensures |writes| == |g| && forall k :: 0 <= k < |g| ==> multiset(writes)[k] == 1
  {
    var n := |g|;
    var split, rem := n / 4, n % 4;
    var sizes := [split, split, split, split];
    for p := 0 to rem
      invariant |sizes| == 4
      invariant forall q :: 0 <= q < 4 ==> sizes[q] == split + if q < p then 1 else 0
    {
      sizes := sizes[p := sizes[p] + 1];
    }
    assert forall q :: 0 <= q < 4 ==> sizes[q] == PlaneSize(n, q);
    var starts := [0, 0, 0, 0];
    for p := 1 to 4
      invariant |starts| == 4
      invariant forall q :: 0 <= q < p ==> starts[q] == PlaneStart(n, q)
    {
      PlanesPartition(n, p - 1);
      starts := starts[p := starts[p - 1] + sizes[p - 1]];
    }
    r, writes := FillPlanes(g, sizes, starts);
    forall data | g == Bg4Split(data) ensures Bg4Regrouped(g) == data {
      Bg4RegroupSplit(data);
    }
    Bg4SplitRegroup(g);
  }

  /** The nested copy loops: plane by plane, byte by byte. */
  method FillPlanes(g: Bytes, sizes: seq<nat>, starts: seq<nat>) returns (r: Bytes, ghost writes: seq<nat>)
    requires |sizes| == |starts| == 4
    requires forall p :: 0 <= p < 4 ==> sizes[p] == PlaneSize(|g|, p) && starts[p] == PlaneStart(|g|, p)
    ensures r == Bg4Regrouped(g)
    ensures |writes| == |g| && forall k :: 0 <= k < |g| ==> multiset(writes)[k] == 1
  {
    hide Bg4RegroupedAt, PlaneSize;
    var n := |g|;
    var out := new Byte[n];
    writes := [];
    for p := 0 to 4
      invariant |writes| == PlaneStart(n, p)
      invariant forall k :: 0 <= k < n && Filled(k, p, 0) ==> out[k] == Bg4RegroupedAt(g, k)
      invariant forall k :: 0 <= k < n ==> multiset(writes)[k] == if Filled(k, p, 0) then 1 else 0
    {
      hide Filled, PlaneStart;
      PlanesPartition(n, p);
      var plane := g[starts[p]..starts[p] + sizes[p]];
      for i := 0 to |plane|
        invariant |writes| == PlaneStart(n, p) + i
        invariant forall k :: 0 <= k < n && Filled(k, p, i) ==> out[k] == Bg4RegroupedAt(g, k)
        invariant forall k :: 0 <= k < n ==> multiset(writes)[k] == if Filled(k, p, i) then 1 else 0
      {
        RegroupedFromPlane(g, p, i);
        FillNext(n, p, i);
        ghost var before := writes;
        var at := 4 * i + p;
        out[at] := plane[i];
        writes := writes + [at];
        assert multiset(writes) == multiset(before) + multiset{at};
      }
      FillPlane(n, p);
    }
    r := out[..];
  }

  lemma FillNext(n: nat, p: nat, i: nat)
    requires p < 4 && i < PlaneSize(n, p)
    ensures forall k :: 0 <= k < n ==> (Filled(k, p, i + 1) <==> Filled(k, p, i) || k == 4 * i + p)
    ensures !Filled(4 * i + p, p, i)
  {
    PositionOf(n, p, i);
  }

  lemma FillPlane(n: nat, p: nat)
    requires p < 4
    ensures forall k :: 0 <= k < n ==> (Filled(k, p, PlaneSize(n, p)) <==> Filled(k, p + 1, 0))
  {
    forall k | 0 <= k < n ensures Filled(k, p, PlaneSize(n, p)) <==> Filled(k, p + 1, 0) {
      PlaneOf(n, k);
    }
  }

  // ---------------------------------------------------------------- decoding

  datatype DecodeError = ShortChunk | LengthMismatch | Lz4Failed | UnknownScheme | RangeOutOfBounds

  /** The LZ4 frame decoder, an opaque deterministic function; None is a corrupt frame. */
  type Lz4 = Bytes -> Option<Bytes>

  /** Inflation bounded to the declared length: anything but exactly that length is refused. */
  function Lz4Inflate(lz4: Lz4, payload: Bytes, unpackedLen: nat): (r: Result<Bytes, DecodeError>)
    ensures r.Ok? ==> |r.value| == unpackedLen
  {
    match lz4(payload)
    case None => Err(Lz4Failed)
    case Some(out) => if |out| == unpackedLen then Ok(out) else Err(Lz4Failed)
  }

  function DecodeChunk(lz4: Lz4, chunk: Bytes): (r: Result<Bytes, DecodeError>)
    ensures r.Ok? ==> |chunk| >= CHUNK_HEADER_LEN && |r.value| == U24(chunk[5], chunk[6], chunk[7])
  {
    if |chunk| < CHUNK_HEADER_LEN then Err(ShortChunk)
    else
      var unpackedLen := U24(chunk[5], chunk[6], chunk[7]);
      var payload := chunk[CHUNK_HEADER_LEN..];
      match chunk[4]
      case 0 => if |payload| != unpackedLen then Err(LengthMismatch) else Ok(payload)
      case 1 => Lz4Inflate(lz4, payload, unpackedLen)
      case 2 =>
        (match Lz4Inflate(lz4, payload, unpackedLen)
         case Err(e) => Err(e)
         case Ok(grouped) => Ok(Bg4Regrouped(grouped)))
      case _ => Err(UnknownScheme)
  }

  /** What a client stores for a chunk, given the LZ4 compressor it uses. */
  function EncodeChunk(compress: Bytes -> Bytes, scheme: Byte, content: Bytes): Chunk
    requires scheme <= MAX_SCHEME
  {
    var payload := match scheme case 0 => content case 1 => compress(content) case _ => compress(Bg4Split(content));
    Chunk(scheme, |content|, payload)
  }

  lemma DecodeEncoded(lz4: Lz4, compress: Bytes -> Bytes, scheme: Byte, content: Bytes)
    requires forall b :: lz4(compress(b)) == Some(b)
    requires scheme <= MAX_SCHEME && ValidChunk(EncodeChunk(compress, scheme, content))
    ensures DecodeChunk(lz4, SerializeChunk(EncodeChunk(compress, scheme, content))) == Ok(content)
  {
    var c := EncodeChunk(compress, scheme, content);
    var s := SerializeChunk(c);
    assert s + [] == s;
    ReadSerializedChunk(c, [], 0);
    assert s[CHUNK_HEADER_LEN..] == c.payload;
    Bg4RegroupSplit(content);
    assert lz4(compress(content)) == Some(content);
    assert lz4(compress(Bg4Split(content))) == Some(Bg4Split(content));
  }

  /** A serialized chunk decodes to a content if and only if its declared length is the content's
      and its payload is that content in its scheme. */
  lemma DecodesExactlyWhen(lz4: Lz4, c: Chunk, content: Bytes)
    requires ValidChunk(c)
    ensures DecodeChunk(lz4, SerializeChunk(c)) == Ok(content) <==>
            c.unpackedLen == |content| &&
            if c.scheme == 0 then c.payload == content
            else if c.scheme == 1 then lz4(c.payload) == Some(content)
            else lz4(c.payload) == Some(Bg4Split(content))
  {
    var s := SerializeChunk(c);
    assert s + [] == s;
    ReadSerializedChunk(c, [], 0);
    assert s[CHUNK_HEADER_LEN..] == c.payload;
    Bg4RegroupSplit(content);
    if lz4(c.payload).Some? { Bg4SplitRegroup(lz4(c.payload).value); }
  }

  /** A layout whose windows lie inside the xorb. */
  predicate LayoutFits(chunks: seq<ChunkInfo>, size: nat) {
    forall i :: 0 <= i < |chunks| ==> chunks[i].start <= chunks[i].end <= size
  }

  /** One chunk of a xorb, which must decode to the length its layout entry declares. */
  function DecodeOne(lz4: Lz4, xorb: Bytes, c: ChunkInfo): Result<Bytes, DecodeError>
    requires c.start <= c.end <= |xorb|
  {
    match DecodeChunk(lz4, xorb[c.start..c.end])
    case Err(e) => Err(e)
    case Ok(data) => if |data| != c.unpackedLen then Err(LengthMismatch) else Ok(data)
  }

  /** Two consecutive outputs; the first failure wins. */
  function Join(a: Result<Bytes, DecodeError>, b: Result<Bytes, DecodeError>): Result<Bytes, DecodeError> {
    match (a, b)
    case (Err(e), _) => Err(e)
    case (_, Err(e)) => Err(e)
    case (Ok(x), Ok(y)) => Ok(x + y)
  }

  lemma JoinAssociates(a: Result<Bytes, DecodeError>, b: Result<Bytes, DecodeError>, c: Result<Bytes, DecodeError>)
    ensures Join(Join(a, b), c) == Join(a, Join(b, c))
    ensures Join(Ok([]), c) == c && Join(a, Ok([])) == a
  {
    if a.Ok? && b.Ok? && c.Ok? {
      assert (a.value + b.value) + c.value == a.value + (b.value + c.value);
    }
    if c.Ok? { assert [] + c.value == c.value; }
    if a.Ok? { assert a.value + [] == a.value; }
  }

  /** Chunks [i, end) decoded and concatenated. */
  function DecodeFrom(lz4: Lz4, xorb: Bytes, chunks: seq<ChunkInfo>, i: nat, end: nat): Result<Bytes, DecodeError>
    requires i <= end <= |chunks| && LayoutFits(chunks, |xorb|)
    decreases end - i
  {
    if i == end then Ok([])
    else Join(DecodeOne(lz4, xorb, chunks[i]), DecodeFrom(lz4, xorb, chunks, i + 1, end))
  }

  function DecodeRange(lz4: Lz4, xorb: Bytes, chunks: seq<ChunkInfo>, start: int, end: int): Result<Bytes, DecodeError>
    requires LayoutFits(chunks, |xorb|)
  {
    if start < 0 || end > |chunks| || start >= end then Err(RangeOutOfBounds)
    else DecodeFrom(lz4, xorb, chunks, start, end)
  }

  /** A range that is empty or reaches outside the layout is refused, and every other one decodes
      to the chunks from its start to its end or fails at one of them. */
  lemma RefusedRange(lz4: Lz4, xorb: Bytes, chunks: seq<ChunkInfo>, start: int, end: int)
    requires LayoutFits(chunks, |xorb|)
    ensures DecodeRange(lz4, xorb, chunks, start, end) ==
            if 0 <= start < end <= |chunks| then DecodeFrom(lz4, xorb, chunks, start, end) else Err(RangeOutOfBounds)
  {
  }

  function UnpackedTotal(chunks: seq<ChunkInfo>, start: nat, end: nat): nat
    requires start <= end <= |chunks|
    decreases end - start
  {
    if start == end then 0 else chunks[start].unpackedLen + UnpackedTotal(chunks, start + 1, end)
  }

  lemma {:induction false} DecodedLength(lz4: Lz4, xorb: Bytes, chunks: seq<ChunkInfo>, i: nat, end: nat)
    requires i <= end <= |chunks| && LayoutFits(chunks, |xorb|)
    requires DecodeFrom(lz4, xorb, chunks, i, end).Ok?
    ensures |DecodeFrom(lz4, xorb, chunks, i, end).value| == UnpackedTotal(chunks, i, end)
    decreases end - i
  {
    if i < end {
      DecodedLength(lz4, xorb, chunks, i + 1, end);
    }
  }

  lemma {:induction false} DecodeFromSplits(lz4: Lz4, xorb: Bytes, chunks: seq<ChunkInfo>, i: nat, mid: nat, end: nat)
    requires i <= mid <= end <= |chunks| && LayoutFits(chunks, |xorb|)
    ensures DecodeFrom(lz4, xorb, chunks, i, end) ==
            Join(DecodeFrom(lz4, xorb, chunks, i, mid), DecodeFrom(lz4, xorb, chunks, mid, end))
    decreases mid - i
  {
    hide DecodeOne, Join;
    var last := DecodeFrom(lz4, xorb, chunks, mid, end);
    if i == mid {
      JoinAssociates(last, last, last);
    } else {
      DecodeFromSplits(lz4, xorb, chunks, i + 1, mid, end);
      JoinAssociates(DecodeOne(lz4, xorb, chunks[i]), DecodeFrom(lz4, xorb, chunks, i + 1, mid), last);
    }
  }

  /** Decoding one chunk more, and what a failure there means for the whole range. */
  lemma DecodeNext(lz4: Lz4, xorb: Bytes, chunks: seq<ChunkInfo>, start: nat, i: nat, end: nat)
    requires start <= i < end <= |chunks| && LayoutFits(chunks, |xorb|)
    requires DecodeFrom(lz4, xorb, chunks, start, i).Ok?
    ensures DecodeFrom(lz4, xorb, chunks, start, i + 1) ==
            Join(DecodeFrom(lz4, xorb, chunks, start, i), DecodeOne(lz4, xorb, chunks[i]))
    ensures DecodeOne(lz4, xorb, chunks[i]).Err? ==>
              DecodeFrom(lz4, xorb, chunks, start, end) == DecodeOne(lz4, xorb, chunks[i])
  {
    DecodeFromSplits(lz4, xorb, chunks, start, i, i + 1);
    DecodeFromSplits(lz4, xorb, chunks, start, i, end);
    var one := DecodeOne(lz4, xorb, chunks[i]);
    JoinAssociates(one, one, DecodeFrom(lz4, xorb, chunks, i + 1, i + 1));
  }

  /** Decoding [start, end) stops with e after writing out: at once for a bad range, otherwise
      at the first chunk that does not decode, with exactly the chunks before it written. */
  ghost predicate RangeStops(lz4: Lz4, xorb: Bytes, chunks: seq<ChunkInfo>, start: int, end: int, out: Bytes, e: DecodeError)
    requires LayoutFits(chunks, |xorb|)
  {
    if start < 0 || end > |chunks| || start >= end then out == [] && e == RangeOutOfBounds
    else exists k :: start <= k < end && ChunkStops(lz4, xorb, chunks, start, k, out, e)
  }

  predicate ChunkStops(lz4: Lz4, xorb: Bytes, chunks: seq<ChunkInfo>, start: nat, k: nat, out: Bytes, e: DecodeError)
    requires start <= k < |chunks| && LayoutFits(chunks, |xorb|)
  {
    DecodeFrom(lz4, xorb, chunks, start, k) == Ok(out) && DecodeOne(lz4, xorb, chunks[k]) == Err(e)
  }

  /** Streams the decoded chunks into w; out is everything written, also on failure. */
  method DecodeChunkRange(lz4: Lz4, xorb: Bytes, chunks: seq<ChunkInfo>, start: int, end: int)
    returns (out: Bytes, failure: Option<DecodeError>)
    requires LayoutFits(chunks, |xorb|)
    ensures DecodeRange(lz4, xorb, chunks, start, end) == if failure.None? then Ok(out) else Err(failure.value)
    ensures failure.Some? ==> RangeStops(lz4, xorb, chunks, start, end, out, failure.value)
  {
    out := [];
    if start < 0 || end > |chunks| || start >= end {
      return [], Some(RangeOutOfBounds);
    }
    for i := start to end
      invariant DecodeFrom(lz4, xorb, chunks, start, i) == Ok(out)
    {
      DecodeNext(lz4, xorb, chunks, start, i, end);
      var c := chunks[i];
      var decoded := DecodeChunk(lz4, xorb[c.start..c.end]);
      if decoded.Err? {
        assert ChunkStops(lz4, xorb, chunks, start, i, out, decoded.error);
        return out, Some(decoded.error);
      }
      var data := decoded.value;
      if |data| != c.unpackedLen {
        assert ChunkStops(lz4, xorb, chunks, start, i, out, LengthMismatch);
        return out, Some(LengthMismatch);
      }
      out := out + data;
    }
    return out, None;
  }
}
