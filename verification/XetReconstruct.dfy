/** Reconstruction of files from xorb terms: whole-file streaming and the range planner
    (internal/xet/service.go). */
module XetReconstruct {
  import opened Common
  import opened XetChunks
  import opened XetShard
  import Decimal

  datatype TermRecord = TermRecord(xorb: Hash, chunkStart: nat, chunkEnd: nat, unpackedLen: nat)
  datatype FileRecord = FileRecord(fileHash: Hash, sha256: Option<Hash>, totalLen: nat, terms: seq<TermRecord>)

  /** The stored xorbs and the chunk layouts cached beside them. */
  datatype XorbStore = XorbStore(xorbs: map<Hash, Bytes>, layouts: map<Hash, seq<ChunkInfo>>)

  /** A visible xorb has its layout, and the layout is what walking its bytes gives. */
  ghost predicate Consistent(store: XorbStore) {
    forall h :: h in store.xorbs ==> h in store.layouts && WalkResult(store.xorbs[h]) == Ok(store.layouts[h])
  }

  predicate LayoutsFit(store: XorbStore) {
    forall h :: h in store.xorbs && h in store.layouts ==> LayoutFits(store.layouts[h], |store.xorbs[h]|)
  }

  // ---------------------------------------------------------------- records

  function TotalOf(terms: seq<TermRecord>): nat {
    if terms == [] then 0 else TotalOf(terms[..|terms| - 1]) + terms[|terms| - 1].unpackedLen
  }

  method RecordFromShardFile(f: ShardFile) returns (rec: FileRecord)
    ensures rec.fileHash == f.fileHash
    ensures rec.sha256 == if f.sha256 == ZERO_HASH then None else Some(f.sha256)
    ensures |rec.terms| == |f.terms|
    ensures forall i :: 0 <= i < |f.terms| ==>
              rec.terms[i] == TermRecord(f.terms[i].xorbHash, f.terms[i].chunkStart, f.terms[i].chunkEnd, f.terms[i].unpackedLen)
    ensures rec.totalLen == TotalOf(rec.terms)
  {
    var total := 0;
    var terms: seq<TermRecord> := [];
    for i := 0 to |f.terms|
      invariant |terms| == i && total == TotalOf(terms)
      invariant forall j :: 0 <= j < i ==>
                  terms[j] == TermRecord(f.terms[j].xorbHash, f.terms[j].chunkStart, f.terms[j].chunkEnd, f.terms[j].unpackedLen)
    {
      var t := f.terms[i];
      total := total + t.unpackedLen;
      var next := terms + [TermRecord(t.xorbHash, t.chunkStart, t.chunkEnd, t.unpackedLen)];
      assert next[..i] == terms;
      terms := next;
    }
    rec := FileRecord(f.fileHash, if f.sha256 == ZERO_HASH then None else Some(f.sha256), total, terms);
  }

  // ---------------------------------------------------------------- whole-file reconstruction

  datatype ReconstructError = XorbMissing | LayoutMissing | Undecodable(cause: DecodeError)

  type Output = Result<Bytes, ReconstructError>

  /** The bytes one term stands for. */
  function TermBytes(lz4: Lz4, store: XorbStore, t: TermRecord): Output
    requires LayoutsFit(store)
  {
    if t.xorb !in store.xorbs then Err(XorbMissing)
    else if t.xorb !in store.layouts then Err(LayoutMissing)
    else
      match DecodeRange(lz4, store.xorbs[t.xorb], store.layouts[t.xorb], t.chunkStart, t.chunkEnd)
      case Err(e) => Err(Undecodable(e))
      case Ok(data) => Ok(data)
  }

  function Then(a: Output, b: Output): Output {
    match (a, b)
    case (Err(e), _) => Err(e)
    case (_, Err(e)) => Err(e)
    case (Ok(x), Ok(y)) => Ok(x + y)
  }

  /** The file's bytes: its terms in order, up to the first failure. */
  function FileBytes(lz4: Lz4, store: XorbStore, terms: seq<TermRecord>): Output
    requires LayoutsFit(store)
  {
    if terms == [] then Ok([])
    else Then(FileBytes(lz4, store, terms[..|terms| - 1]), TermBytes(lz4, store, terms[|terms| - 1]))
  }

  /** A file that fails early fails the same way whatever follows. */
  lemma {:induction false} FailureSticks(lz4: Lz4, store: XorbStore, terms: seq<TermRecord>, i: nat)
    requires LayoutsFit(store)
    requires i <= |terms| && FileBytes(lz4, store, terms[..i]).Err?
    ensures FileBytes(lz4, store, terms) == FileBytes(lz4, store, terms[..i])
    decreases |terms|
  {
    if i == |terms| {
      assert terms[..i] == terms;
    } else {
      assert terms[..|terms| - 1][..i] == terms[..i];
      FailureSticks(lz4, store, terms[..|terms| - 1], i);
    }
  }

  /** Reconstruction stops at term i: everything before it is written in full, and of the term
      itself exactly the chunks before its first bad one. */
  ghost predicate StopsAt(lz4: Lz4, store: XorbStore, terms: seq<TermRecord>, i: nat, out: Bytes, e: ReconstructError)
    requires LayoutsFit(store) && i < |terms|
  {
    exists before, partial ::
      FileBytes(lz4, store, terms[..i]) == Ok(before) && TermStops(lz4, store, terms[i], partial, e) && out == before + partial
  }

  ghost predicate TermStops(lz4: Lz4, store: XorbStore, t: TermRecord, partial: Bytes, e: ReconstructError)
    requires LayoutsFit(store)
  {
    if t.xorb !in store.xorbs then partial == [] && e == XorbMissing
    else if t.xorb !in store.layouts then partial == [] && e == LayoutMissing
    else e.Undecodable? && RangeStops(lz4, store.xorbs[t.xorb], store.layouts[t.xorb], t.chunkStart, t.chunkEnd, partial, e.cause)
  }

  method Reconstruct(lz4: Lz4, store: XorbStore, rec: FileRecord) returns (out: Bytes, failure: Option<ReconstructError>)
    requires LayoutsFit(store)
    ensures failure.Some? ==> exists i :: 0 <= i < |rec.terms| && StopsAt(lz4, store, rec.terms, i, out, failure.value)
    ensures FileBytes(lz4, store, rec.terms) == if failure.None? then Ok(out) else Err(failure.value)
  {
    hide StopsAt, RangeStops, DecodeRange;
    out := [];
    for i := 0 to |rec.terms|
      invariant FileBytes(lz4, store, rec.terms[..i]) == Ok(out)
    {
      var term := rec.terms[i];
      assert rec.terms[..i + 1][..i] == rec.terms[..i];
      if term.xorb !in store.xorbs {
        FailureSticks(lz4, store, rec.terms, i + 1);
        StoppedAt(lz4, store, rec.terms, i, out, [], XorbMissing);
        return out, Some(XorbMissing);
      }
      var xorb := store.xorbs[term.xorb];
      if term.xorb !in store.layouts {
        FailureSticks(lz4, store, rec.terms, i + 1);
        StoppedAt(lz4, store, rec.terms, i, out, [], LayoutMissing);
        return out, Some(LayoutMissing);
      }
      var chunks := store.layouts[term.xorb];
      var data, err := DecodeChunkRange(lz4, xorb, chunks, term.chunkStart, term.chunkEnd);
      if err.Some? {
        FailureSticks(lz4, store, rec.terms, i + 1);
        StoppedAt(lz4, store, rec.terms, i, out, data, Undecodable(err.value));
        return out + data, Some(Undecodable(err.value));
      }
      out := out + data;
    }
    assert rec.terms[..|rec.terms|] == rec.terms;
    return out, None;
  }

  lemma StoppedAt(lz4: Lz4, store: XorbStore, terms: seq<TermRecord>, i: nat, before: Bytes, partial: Bytes, e: ReconstructError)
    requires LayoutsFit(store) && i < |terms|
    requires FileBytes(lz4, store, terms[..i]) == Ok(before) && TermStops(lz4, store, terms[i], partial, e)
    ensures StopsAt(lz4, store, terms, i, before + partial, e)
    ensures partial == [] ==> StopsAt(lz4, store, terms, i, before, e)
  {
    hide FileBytes, TermStops;
    if partial == [] { assert before + partial == before; }
  }

  // ---------------------------------------------------------------- ranges

  function CutBytesPrefix(header: string): Option<string> {
    if "bytes=" <= header then Some(header[6..]) else None
  }

  /** "bytes=a-b", end-inclusive; an omitted end means the last byte. None is a 416. */
  function ParseByteRange(header: string, total: nat): (r: Option<(nat, nat)>)
    ensures r.Some? ==> r.value.0 <= r.value.1 < total
  {
    match CutBytesPrefix(header)
    case None => None
    case Some(spec) =>
      match Decimal.CutDash(spec)
      case None => None
      case Some(parts) =>
        var start := Decimal.ParseInt64(parts.0);
        var end := if parts.1 != "" then Decimal.ParseInt64(parts.1) else Some(total - 1);
        if start.None? || end.None? || start.value < 0 || end.value < start.value then None
        else if start.value >= total then None
        else Some((start.value, if end.value < total - 1 then end.value else total - 1))
  }

  function RangeHeader(a: nat, b: nat): string {
    "bytes=" + Decimal.Format(a) + "-" + Decimal.Format(b)
  }

  /** A printed range is accepted exactly when it starts inside the file, and is clipped to it. */
  lemma ByteRangeRoundTrip(a: nat, b: nat, total: nat)
    requires a <= Decimal.MAX_INT64 && b <= Decimal.MAX_INT64
    ensures ParseByteRange(RangeHeader(a, b), total) ==
            if a <= b && a < total then Some((a, if b < total then b else total - 1)) else None
  {
    var spec := Decimal.Format(a) + "-" + Decimal.Format(b);
    assert RangeHeader(a, b)[6..] == spec;
    Decimal.CutFormatted(a, Decimal.Format(b));
    Decimal.ParseFormatted(a);
    Decimal.ParseFormatted(b);
  }

  lemma BytesPrefix(spec: string)
    ensures CutBytesPrefix("bytes=" + spec) == Some(spec)
  {
    assert ("bytes=" + spec)[6..] == spec;
  }

  /** A printed range without an end asks for everything from its start on. */
  lemma OpenRangeParses(a: nat, total: nat)
    requires a <= Decimal.MAX_INT64
    ensures ParseByteRange("bytes=" + (Decimal.Format(a) + "-"), total) == if a < total then Some((a, total - 1)) else None
  {
    BytesPrefix(Decimal.Format(a) + "-");
    Decimal.CutFormatted(a, "");
    assert Decimal.Format(a) + "-" + "" == Decimal.Format(a) + "-";
    Decimal.ParseFormatted(a);
  }

  /** y is the text of a range's end in a file of total bytes, and end what it asks for. */
  predicate EndText(y: string, start: int, total: nat, end: int) {
    if y == "" then end == total - 1
    else
      Decimal.ParseInt64(y).Some? && start <= Decimal.ParseInt64(y).value &&
      end == if Decimal.ParseInt64(y).value < total then Decimal.ParseInt64(y).value else total - 1
  }

  /** Any header at all: it is accepted if and only if it is "bytes=", a start inside the file, a
      dash and an end that is missing or not before the start, which is clipped to the file. */
  lemma ByteRangeAcceptedExactlyWhen(header: string, total: nat, start: nat, end: nat)
    ensures ParseByteRange(header, total) == Some((start, end)) <==> exists x, y :: RangeText(header, x, y, total, start, end)
  {
    hide ParseByteRange, RangeText;
    if ParseByteRange(header, total) == Some((start, end)) {
      AcceptedRange(header, total, start, end);
    }
    if x, y :| RangeText(header, x, y, total, start, end) {
      RangeTextAccepted(header, x, y, total, start, end);
    }
  }

  predicate RangeText(header: string, x: string, y: string, total: nat, start: nat, end: nat) {
    header == "bytes=" + (x + "-" + y) && '-' !in x && Decimal.ParseInt64(x) == Some(start) && start < total &&
    EndText(y, start, total, end)
  }

  lemma AcceptedRange(header: string, total: nat, start: nat, end: nat)
    requires ParseByteRange(header, total) == Some((start, end))
    ensures exists x, y :: RangeText(header, x, y, total, start, end)
  {
    hide Decimal.ParseInt64, Decimal.CutDash;
    var spec := CutBytesPrefix(header).value;
    var parts := Decimal.CutDash(spec).value;
    Decimal.CutDashMeans(spec);
    assert header == header[..6] + spec;
    assert RangeText(header, parts.0, parts.1, total, start, end);
  }

  lemma RangeTextAccepted(header: string, x: string, y: string, total: nat, start: nat, end: nat)
    requires RangeText(header, x, y, total, start, end)
    ensures ParseByteRange(header, total) == Some((start, end))
  {
    BytesPrefix(x + "-" + y);
    Decimal.CutFirstDash(x, y);
    hide CutBytesPrefix, Decimal.ParseInt64, Decimal.CutDash;
  }

  // ---------------------------------------------------------------- the range planner

  datatype IndexRange = IndexRange(start: nat, end: nat)
  datatype FetchInfo = FetchInfo(range: IndexRange, urlStart: int, urlEnd: int)
  datatype PlanTerm = PlanTerm(hash: Hash, unpackedLength: nat, range: IndexRange)
  datatype Response =
    | Plan(offsetIntoFirstRange: int, terms: seq<PlanTerm>, fetchInfo: map<Hash, seq<FetchInfo>>)
    | RangeNotSatisfiable
    | ServerError
    | Panic

  /** Bytes of the file before term i. */
  function Before(terms: seq<TermRecord>, i: nat): nat
    requires i <= |terms|
  {
    TotalOf(terms[..i])
  }

  lemma BeforeNext(terms: seq<TermRecord>, i: nat)
    requires i < |terms|
    ensures Before(terms, i + 1) == Before(terms, i) + terms[i].unpackedLen
  {
    assert terms[..i + 1][..i] == terms[..i];
  }

  lemma {:induction false} BeforeMonotone(terms: seq<TermRecord>, i: nat, j: nat)
    requires i <= j <= |terms|
    ensures Before(terms, i) <= Before(terms, j)
    decreases j - i
  {
    if i < j {
      BeforeNext(terms, j - 1);
      BeforeMonotone(terms, i, j - 1);
    }
  }

  predicate WellFormedTerm(store: XorbStore, t: TermRecord) {
    t.xorb in store.layouts && t.chunkStart < t.chunkEnd <= |store.layouts[t.xorb]|
  }

  /** What the handler needs of a term; it does not notice chunkStart >= chunkEnd. */
  predicate Servable(store: XorbStore, t: TermRecord) {
    t.xorb in store.layouts && t.chunkStart < |store.layouts[t.xorb]| && 1 <= t.chunkEnd <= |store.layouts[t.xorb]|
  }

  predicate AllWellFormed(store: XorbStore, terms: seq<TermRecord>) {
    forall j :: 0 <= j < |terms| ==> WellFormedTerm(store, terms[j])
  }

  function PlanOf(t: TermRecord): PlanTerm {
    PlanTerm(t.xorb, t.unpackedLen, IndexRange(t.chunkStart, t.chunkEnd))
  }

  /** The fetch entry of a term; its byte range is end-inclusive. */
  function FetchOf(store: XorbStore, t: TermRecord): FetchInfo
    requires Servable(store, t)
  {
    var chunks := store.layouts[t.xorb];
    FetchInfo(IndexRange(t.chunkStart, t.chunkEnd), chunks[t.chunkStart].start, chunks[t.chunkEnd - 1].end - 1)
  }

  /** The plan lists exactly the terms [lo, hi). */
  predicate Covers(rec: FileRecord, start: int, end: int, lo: nat, hi: nat) {
    && lo <= hi <= |rec.terms|
    && Before(rec.terms, lo) <= start
    && (lo < hi ==> start < Before(rec.terms, lo + 1) && Before(rec.terms, hi - 1) <= end)
  }

  function AddFetch(fetch: map<Hash, seq<FetchInfo>>, h: Hash, entry: FetchInfo): map<Hash, seq<FetchInfo>> {
    fetch[h := (if h in fetch then fetch[h] else []) + [entry]]
  }

  predicate AllServable(store: XorbStore, terms: seq<TermRecord>) {
    forall j :: 0 <= j < |terms| ==> Servable(store, terms[j])
  }

  /** The fetch entries of a run of terms, by xorb, in term order. */
  function FetchMap(store: XorbStore, terms: seq<TermRecord>): map<Hash, seq<FetchInfo>>
    requires AllServable(store, terms)
  {
    if terms == [] then map[]
    else
      var t := terms[|terms| - 1];
      AddFetch(FetchMap(store, terms[..|terms| - 1]), t.xorb, FetchOf(store, t))
  }

  /** Every term has its entry, and every entry is some term's. */
  ghost predicate Fetches(store: XorbStore, terms: seq<TermRecord>, fetch: map<Hash, seq<FetchInfo>>) {
    && (forall j :: 0 <= j < |terms| ==>
          Servable(store, terms[j]) && terms[j].xorb in fetch && FetchOf(store, terms[j]) in fetch[terms[j].xorb])
    && (forall h, f :: h in fetch && f in fetch[h] ==>
          exists j :: 0 <= j < |terms| && terms[j].xorb == h && Servable(store, terms[j]) && f == FetchOf(store, terms[j]))
  }

  /** What a plan for [start, end] promises: a non-empty run of terms, none of those left out
      reaching into the range, with a fetch entry for each. */
  ghost predicate GoodPlan(store: XorbStore, rec: FileRecord, start: int, end: int, r: Response, lo: nat, hi: nat)
    requires r.Plan?
  {
    && lo < hi
    && Covers(rec, start, end, lo, hi)
    && (hi == |rec.terms| || end < Before(rec.terms, hi))
    && r.offsetIntoFirstRange == start - Before(rec.terms, lo)
    && |r.terms| == hi - lo
    && (forall k :: 0 <= k < hi - lo ==> r.terms[k] == PlanOf(rec.terms[lo + k]))
    && AllServable(store, rec.terms[lo..hi])
    && r.fetchInfo == FetchMap(store, rec.terms[lo..hi])
  }

  /** The planner comes to term i: it ends after the range's start and begins inside the range. */
  predicate Reached(rec: FileRecord, start: int, end: int, i: nat)
    requires i < |rec.terms|
  {
    start < Before(rec.terms, i + 1) && Before(rec.terms, i) <= end
  }

  /** Terms the handler answers with 500. */
  predicate Refused(store: XorbStore, t: TermRecord) {
    t.xorb !in store.layouts || t.chunkEnd > |store.layouts[t.xorb]|
  }

  /** Terms for which the handler reads outside the layout. */
  predicate OutOfBounds(store: XorbStore, t: TermRecord) {
    !Refused(store, t) && (t.chunkStart >= |store.layouts[t.xorb]| || t.chunkEnd == 0)
  }

  /** Term i is the first reached term that is not servable. */
  ghost predicate StopsPlan(store: XorbStore, rec: FileRecord, start: int, end: int, i: nat) {
    i < |rec.terms| && Reached(rec, start, end, i) && !Servable(store, rec.terms[i]) &&
    forall j :: 0 <= j < i && Reached(rec, start, end, j) ==> Servable(store, rec.terms[j])
  }

  ghost predicate PanicsOn(store: XorbStore, rec: FileRecord, start: int, end: int) {
    exists i: nat :: StopsPlan(store, rec, start, end, i) && OutOfBounds(store, rec.terms[i])
  }

  ghost predicate FailsOn(store: XorbStore, rec: FileRecord, start: int, end: int) {
    exists i: nat :: StopsPlan(store, rec, start, end, i) && Refused(store, rec.terms[i])
  }

  /** Which answer a range gets. */
  ghost predicate Answers(store: XorbStore, rec: FileRecord, start: int, end: int, r: Response) {
    && (r.Panic? <==> PanicsOn(store, rec, start, end))
    && (r.ServerError? <==> FailsOn(store, rec, start, end))
    && (r.RangeNotSatisfiable? <==> forall i :: 0 <= i < |rec.terms| ==> !Reached(rec, start, end, i))
  }

  /** The range a request asks for; without a header it is the whole file. */
  function RequestedRange(rangeHeader: string, total: nat): Option<(nat, int)> {
    if rangeHeader == "" then Some((0, total - 1)) else ParseByteRange(rangeHeader, total)
  }

  /** The plan starts at the file's first byte and lists, in order, a run of terms that leaves out
      only empty ones. */
  ghost predicate PlansWholeFile(rec: FileRecord, r: Response)
    requires r.Plan?
  {
    r.offsetIntoFirstRange == 0 && exists lo: nat, hi: nat :: PlansRun(rec, r, lo, hi)
  }

  ghost predicate PlansRun(rec: FileRecord, r: Response, lo: nat, hi: nat)
    requires r.Plan?
  {
    && lo <= hi <= |rec.terms| && |r.terms| == hi - lo
    && (forall k :: 0 <= k < hi - lo ==>
          var t := rec.terms[lo + k];
          r.terms[k] == PlanTerm(t.xorb, t.unpackedLen, IndexRange(t.chunkStart, t.chunkEnd)))
    && (forall i :: 0 <= i < |rec.terms| && rec.terms[i].unpackedLen > 0 ==> lo <= i < hi)
  }

  lemma WholeFilePlan(store: XorbStore, rec: FileRecord, r: Response, lo: nat, hi: nat)
    requires rec.totalLen == TotalOf(rec.terms) > 0 && r.Plan? && GoodPlan(store, rec, 0, rec.totalLen - 1, r, lo, hi)
    ensures PlansWholeFile(rec, r) && Before(rec.terms, lo) == 0 && Before(rec.terms, hi) == rec.totalLen
  {
    CoversBounds(store, rec, 0, rec.totalLen - 1, r, lo, hi);
    assert rec.terms[..|rec.terms|] == rec.terms;
    BeforeMonotone(rec.terms, hi, |rec.terms|);
    forall i | 0 <= i < |rec.terms| && rec.terms[i].unpackedLen > 0 ensures lo <= i < hi {
      BeforeNext(rec.terms, i);
      BeforeMonotone(rec.terms, i + 1, |rec.terms|);
      PlanIsTight(store, rec, r, 0, rec.totalLen - 1, lo, hi, i);
    }
    hide TotalOf;
    assert PlansRun(rec, r, lo, hi);
  }

  /** A good plan for the range from the first byte to the last. */
  ghost predicate PlansAll(store: XorbStore, rec: FileRecord, r: Response, lo: nat, hi: nat)
    requires r.Plan?
  {
    GoodPlan(store, rec, 0, rec.totalLen - 1, r, lo, hi)
  }

  /** Without a Range header the whole file is asked for. */
  method HandleReconstruction(store: XorbStore, rec: FileRecord, rangeHeader: string) returns (r: Response)
    requires rec.totalLen == TotalOf(rec.terms)
    ensures rangeHeader == "" ==>
              Answers(store, rec, 0, rec.totalLen - 1, r) &&
              (r.Plan? ==> PlansWholeFile(rec, r) && exists lo, hi :: PlansAll(store, rec, r, lo, hi))
    ensures rangeHeader == "" && AllWellFormed(store, rec.terms) ==> (r.Plan? <==> rec.totalLen > 0)
    ensures rangeHeader != "" ==>
              match ParseByteRange(rangeHeader, rec.totalLen)
              case None => r == RangeNotSatisfiable
              case Some(range) =>
                Answers(store, rec, range.0, range.1, r) &&
                (r.Plan? ==> exists lo, hi :: GoodPlan(store, rec, range.0, range.1, r, lo, hi))
    ensures AllWellFormed(store, rec.terms) ==>
              (if rec.totalLen > 0 && RequestedRange(rangeHeader, rec.totalLen).Some? then r.Plan? else r == RangeNotSatisfiable)
  {
    var start, end := 0, rec.totalLen - 1;
    if rangeHeader != "" {
      var parsed := ParseByteRange(rangeHeader, rec.totalLen);
      if parsed.None? {
        return RangeNotSatisfiable;
      }
      start, end := parsed.value.0, parsed.value.1;
    }
    r := PlanRange(store, rec, start, end);
    if rangeHeader == "" && r.Plan? {
      ghost var lo: nat, hi: nat :| GoodPlan(store, rec, 0, rec.totalLen - 1, r, lo, hi);
      GoodPlanHolds(store, rec, r, lo, hi);
      WholeFilePlan(store, rec, r, lo, hi);
      assert PlansAll(store, rec, r, lo, hi);
    }
  }

  /** Only a file that holds bytes has a plan for all of it. */
  lemma GoodPlanHolds(store: XorbStore, rec: FileRecord, r: Response, lo: nat, hi: nat)
    requires rec.totalLen == TotalOf(rec.terms) && r.Plan? && GoodPlan(store, rec, 0, rec.totalLen - 1, r, lo, hi)
    ensures rec.totalLen > 0
  {
    BeforeMonotone(rec.terms, lo + 1, |rec.terms|);
    assert rec.terms[..|rec.terms|] == rec.terms;
  }

  /** What a one-term record is answered when its term is ill-formed. */
  lemma BadTermAnswers(store: XorbStore, fileHash: Hash, t: TermRecord)
    requires t.unpackedLen > 0
    ensures var rec := FileRecord(fileHash, None, t.unpackedLen, [t]);
            (FailsOn(store, rec, 0, t.unpackedLen - 1) <==>
               t.xorb !in store.layouts || t.chunkEnd > |store.layouts[t.xorb]|) &&
            (PanicsOn(store, rec, 0, t.unpackedLen - 1) <==>
               t.xorb in store.layouts && t.chunkEnd <= |store.layouts[t.xorb]| &&
               (t.chunkStart >= |store.layouts[t.xorb]| || t.chunkEnd == 0))
  {
    var rec := FileRecord(fileHash, None, t.unpackedLen, [t]);
    assert rec.terms[..0] == [] && rec.terms[..1] == rec.terms;
    assert Reached(rec, 0, t.unpackedLen - 1, 0);
    assert !Servable(store, t) ==> StopsPlan(store, rec, 0, t.unpackedLen - 1, 0);
  }

  lemma FetchesNext(store: XorbStore, terms: seq<TermRecord>, fetch: map<Hash, seq<FetchInfo>>, t: TermRecord)
    requires Fetches(store, terms, fetch) && Servable(store, t)
    ensures Fetches(store, terms + [t], AddFetch(fetch, t.xorb, FetchOf(store, t)))
  {
    hide FetchOf, Servable;
    var all, fetch' := terms + [t], AddFetch(fetch, t.xorb, FetchOf(store, t));
    assert all[|terms|] == t;
    forall h, f | h in fetch' && f in fetch'[h]
      ensures exists j :: 0 <= j < |all| && all[j].xorb == h && Servable(store, all[j]) && f == FetchOf(store, all[j])
    {
      if h in fetch && f in fetch[h] {
        var j :| 0 <= j < |terms| && terms[j].xorb == h && Servable(store, terms[j]) && f == FetchOf(store, terms[j]);
        assert all[j] == terms[j];
      }
    }
  }

  lemma {:induction false} FetchMapFetches(store: XorbStore, terms: seq<TermRecord>)
    requires AllServable(store, terms)
    ensures Fetches(store, terms, FetchMap(store, terms))
  {
    hide Servable, FetchOf, AddFetch;
    if terms != [] {
      var n := |terms| - 1;
      FetchMapFetches(store, terms[..n]);
      FetchesNext(store, terms[..n], FetchMap(store, terms[..n]), terms[n]);
      assert terms[..n] + [terms[n]] == terms;
    }
  }

  lemma FetchMapNext(store: XorbStore, terms: seq<TermRecord>, t: TermRecord)
    requires AllServable(store, terms) && Servable(store, t)
    ensures AllServable(store, terms + [t])
    ensures FetchMap(store, terms + [t]) == AddFetch(FetchMap(store, terms), t.xorb, FetchOf(store, t))
  {
    hide Servable, FetchOf, AddFetch;
    assert (terms + [t])[..|terms|] == terms;
  }

  /** The first i terms are behind the planner: none before lo was reached, the others are planned. */
  ghost predicate Passed(store: XorbStore, rec: FileRecord, start: int, end: int, lo: nat, i: nat)
    requires lo <= i <= |rec.terms|
  {
    (forall j :: 0 <= j < lo ==> !Reached(rec, start, end, j)) &&
    (forall j :: lo <= j < i ==> Reached(rec, start, end, j) && Servable(store, rec.terms[j]))
  }

  lemma StoppedPlan(store: XorbStore, rec: FileRecord, start: int, end: int, lo: nat, i: nat, r: Response)
    requires lo <= i < |rec.terms| && Passed(store, rec, start, end, lo, i) && Reached(rec, start, end, i)
    requires if Refused(store, rec.terms[i]) then r == ServerError else OutOfBounds(store, rec.terms[i]) && r == Panic
    ensures Answers(store, rec, start, end, r)
  {
    hide Reached;
    assert StopsPlan(store, rec, start, end, i);
    forall k: nat | StopsPlan(store, rec, start, end, k) ensures k == i {
      OneStop(store, rec, start, end, i, k);
    }
  }

  lemma OneStop(store: XorbStore, rec: FileRecord, start: int, end: int, i: nat, k: nat)
    requires StopsPlan(store, rec, start, end, i) && StopsPlan(store, rec, start, end, k)
    ensures i == k
  {
    hide Reached, Servable;
  }

  lemma FinishedPlan(store: XorbStore, rec: FileRecord, start: int, end: int, lo: nat, i: nat, r: Response)
    requires lo <= i <= |rec.terms| && Passed(store, rec, start, end, lo, i)
    requires i == |rec.terms| || end < Before(rec.terms, i)
    requires if lo == i then r == RangeNotSatisfiable else r.Plan?
    ensures Answers(store, rec, start, end, r)
  {
    forall j | i <= j < |rec.terms| ensures !Reached(rec, start, end, j) {
      BeforeMonotone(rec.terms, i, j);
    }
    hide Reached, Servable, Refused, OutOfBounds;
    forall k: nat ensures !StopsPlan(store, rec, start, end, k) {
      if k < |rec.terms| && Reached(rec, start, end, k) {
        assert Servable(store, rec.terms[k]);
      }
    }
    assert lo < i ==> Reached(rec, start, end, lo);
  }

  lemma PassedNext(store: XorbStore, rec: FileRecord, start: int, end: int, lo: nat, i: nat)
    requires lo <= i < |rec.terms| && Passed(store, rec, start, end, lo, i)
    ensures Reached(rec, start, end, i) && Servable(store, rec.terms[i]) ==> Passed(store, rec, start, end, lo, i + 1)
    ensures lo == i && !Reached(rec, start, end, i) ==> Passed(store, rec, start, end, i + 1, i + 1)
  {
    hide Reached, Servable;
  }

  /** The planner loop over the file's terms. */
  method PlanRange(store: XorbStore, rec: FileRecord, start: nat, end: int) returns (r: Response)
    requires start <= end || TotalOf(rec.terms) <= start
    ensures r.Plan? ==> exists lo, hi :: GoodPlan(store, rec, start, end, r, lo, hi)
    ensures Answers(store, rec, start, end, r)
    ensures AllWellFormed(store, rec.terms) ==> (if start < TotalOf(rec.terms) then r.Plan? else r == RangeNotSatisfiable)
  {
    hide FetchMap, AllServable, TotalOf, Answers, Passed;
    var offset := 0;
    var terms: seq<PlanTerm> := [];
    var fetch: map<Hash, seq<FetchInfo>> := map[];
    var acc := 0;
    ghost var lo := 0;
    var i := 0;
    ghost var total := TotalOf(rec.terms);
    EmptyPlan(store, rec, start, end);
    NothingPassed(store, rec, start, end);
    while i < |rec.terms|
      invariant 0 <= lo <= i <= |rec.terms| && acc == Before(rec.terms, i)
      invariant |terms| == i - lo && Covers(rec, start, end, lo, i)
      invariant Passed(store, rec, start, end, lo, i)
      invariant lo < i ==> offset == start - Before(rec.terms, lo)
      invariant forall k :: 0 <= k < i - lo ==> terms[k] == PlanOf(rec.terms[lo + k])
      invariant AllServable(store, rec.terms[lo..i]) && fetch == FetchMap(store, rec.terms[lo..i])
      decreases |rec.terms| - i
    {
      hide Before, Covers;
      var term := rec.terms[i];
      BeforeNext(rec.terms, i);
      PassedNext(store, rec, start, end, lo, i);
      var termEnd := acc + term.unpackedLen;
      if termEnd <= start {
        CoversSkip(rec, start, end, lo, i);
        assert rec.terms[lo..i] == rec.terms[i + 1..i + 1];
        acc := termEnd;
        lo, i := i + 1, i + 1;
        continue;
      }
      if acc > end {
        break;
      }
      if |terms| == 0 {
        offset := start - acc;
      }
      if term.xorb !in store.layouts {
        StoppedPlan(store, rec, start, end, lo, i, ServerError);
        return ServerError;
      }
      var chunks := store.layouts[term.xorb];
      if term.chunkEnd > |chunks| {
        StoppedPlan(store, rec, start, end, lo, i, ServerError);
        return ServerError;
      }
      if term.chunkStart >= |chunks| || term.chunkEnd == 0 {
        StoppedPlan(store, rec, start, end, lo, i, Panic);
        return Panic;
      }
      CoversTake(rec, start, end, lo, i);
      FetchMapNext(store, rec.terms[lo..i], term);
      assert rec.terms[lo..i] + [term] == rec.terms[lo..i + 1];
      var range := IndexRange(term.chunkStart, term.chunkEnd);
      terms := terms + [PlanTerm(term.xorb, term.unpackedLen, range)];
      var entry := FetchInfo(range, chunks[term.chunkStart].start, chunks[term.chunkEnd - 1].end - 1);
      fetch := AddFetch(fetch, term.xorb, entry);
      acc := termEnd;
      i := i + 1;
    }
    if i == |rec.terms| {
      assert rec.terms[..i] == rec.terms;
    }
    BeforeMonotone(rec.terms, i, |rec.terms|);
    assert rec.terms[..|rec.terms|] == rec.terms;
    FinishedPlan(store, rec, start, end, lo, i, if |terms| == 0 then RangeNotSatisfiable else Plan(offset, terms, fetch));
    if |terms| == 0 {
      return RangeNotSatisfiable;
    }
    BeforeMonotone(rec.terms, lo + 1, |rec.terms|);
    r := Plan(offset, terms, fetch);
    assert GoodPlan(store, rec, start, end, r, lo, i);
  }

  lemma NothingPassed(store: XorbStore, rec: FileRecord, start: int, end: int)
    ensures Passed(store, rec, start, end, 0, 0)
  {
  }

  lemma EmptyPlan(store: XorbStore, rec: FileRecord, start: nat, end: int)
    ensures Covers(rec, start, end, 0, 0) && Before(rec.terms, 0) == 0
    ensures rec.terms[0..0] == [] && AllServable(store, []) && FetchMap(store, []) == map[]
  {
  }

  lemma CoversSkip(rec: FileRecord, start: nat, end: int, lo: nat, i: nat)
    requires i < |rec.terms| && Covers(rec, start, end, lo, i) && Before(rec.terms, i + 1) <= start
    ensures lo == i && Covers(rec, start, end, i + 1, i + 1)
  {
    if lo < i {
      BeforeMonotone(rec.terms, lo + 1, i + 1);
    }
  }

  lemma CoversTake(rec: FileRecord, start: nat, end: int, lo: nat, i: nat)
    requires i < |rec.terms| && Covers(rec, start, end, lo, i)
    requires start < Before(rec.terms, i + 1) && Before(rec.terms, i) <= end
    ensures Covers(rec, start, end, lo, i + 1)
  {
  }

  // ---------------------------------------------------------------- records that can panic

  /** Some request comes to this term and reads outside its layout: the term holds bytes, or it
      is empty, lies inside the file, and no term answered with 500 touches its place. */
  ghost predicate StrayTerm(store: XorbStore, rec: FileRecord, i: nat)
    requires i < |rec.terms|
  {
    var at := Before(rec.terms, i);
    OutOfBounds(store, rec.terms[i]) &&
    (rec.terms[i].unpackedLen > 0 ||
     (0 < at < TotalOf(rec.terms) && forall j :: 0 <= j < i && at <= Before(rec.terms, j + 1) ==> !Refused(store, rec.terms[j])))
  }

  lemma {:induction false} FirstStop(store: XorbStore, rec: FileRecord, start: int, end: int, i: nat) returns (k: nat)
    requires i < |rec.terms| && Reached(rec, start, end, i) && !Servable(store, rec.terms[i])
    ensures k <= i && StopsPlan(store, rec, start, end, k)
    decreases i
  {
    hide Reached, Servable;
    if j: nat :| j < i && Reached(rec, start, end, j) && !Servable(store, rec.terms[j]) {
      k := FirstStop(store, rec, start, end, j);
    } else {
      k := i;
    }
  }

  /** A stray term is met by a range that begins and ends at it, or covers the byte before it. */
  lemma StrayTermPanics(store: XorbStore, rec: FileRecord, i: nat)
    requires i < |rec.terms| && StrayTerm(store, rec, i)
    ensures var at := Before(rec.terms, i);
            at < TotalOf(rec.terms) && PanicsOn(store, rec, if rec.terms[i].unpackedLen > 0 then at else at - 1, at)
  {
    hide TotalOf;
    var at := Before(rec.terms, i);
    var start := if rec.terms[i].unpackedLen > 0 then at else at - 1;
    BeforeNext(rec.terms, i);
    BeforeMonotone(rec.terms, i + 1, |rec.terms|);
    assert rec.terms[..|rec.terms|] == rec.terms;
    assert Reached(rec, start, at, i);
    var k := FirstStop(store, rec, start, at, i);
    if k < i {
      BeforeMonotone(rec.terms, k + 1, i);
      assert start < Before(rec.terms, k + 1);
      assert !Refused(store, rec.terms[k]);
    }
    hide Before, Reached;
    assert StopsPlan(store, rec, start, at, k) && OutOfBounds(store, rec.terms[k]);
  }

  /** Only stray terms make a range panic. */
  lemma PanicMeansStray(store: XorbStore, rec: FileRecord, start: nat, end: int, i: nat)
    requires end < TotalOf(rec.terms) && StopsPlan(store, rec, start, end, i) && OutOfBounds(store, rec.terms[i])
    ensures StrayTerm(store, rec, i)
  {
    BeforeNext(rec.terms, i);
    if rec.terms[i].unpackedLen == 0 {
      forall j | 0 <= j < i && Before(rec.terms, i) <= Before(rec.terms, j + 1) ensures !Refused(store, rec.terms[j]) {
        BeforeMonotone(rec.terms, j, i);
        assert Reached(rec, start, end, j);
      }
    }
  }

  /** Some request on the record makes the handler read out of bounds exactly when the record
      has a stray term. */
  lemma HandlerPanicsExactlyWhen(store: XorbStore, rec: FileRecord)
    requires rec.totalLen == TotalOf(rec.terms) <= Decimal.MAX_INT64
    ensures (exists header :: CanPanic(store, rec, header)) <==> exists i: nat :: i < |rec.terms| && StrayTerm(store, rec, i)
  {
    hide TotalOf, Before, PanicsOn, StrayTerm, ParseByteRange, RangeHeader, StopsPlan;
    if i: nat :| i < |rec.terms| && StrayTerm(store, rec, i) {
      StrayTermPanics(store, rec, i);
      StrayStart(store, rec, i);
      var at := Before(rec.terms, i);
      var start := if rec.terms[i].unpackedLen > 0 then at else at - 1;
      ByteRangeRoundTrip(start, at, rec.totalLen);
      RangeHeaderNonEmpty(start, at);
      assert CanPanic(store, rec, RangeHeader(start, at));
    }
    if header :| CanPanic(store, rec, header) {
      var range := RequestedRange(header, rec.totalLen).value;
      RequestedInside(header, rec.totalLen);
      var i := PanicStop(store, rec, range.0, range.1);
      PanicMeansStray(store, rec, range.0, range.1, i);
    }
  }

  lemma PanicStop(store: XorbStore, rec: FileRecord, start: int, end: int) returns (i: nat)
    requires PanicsOn(store, rec, start, end)
    ensures StopsPlan(store, rec, start, end, i) && i < |rec.terms| && OutOfBounds(store, rec.terms[i])
  {
    hide Reached;
    i :| StopsPlan(store, rec, start, end, i) && OutOfBounds(store, rec.terms[i]);
  }

  lemma StrayStart(store: XorbStore, rec: FileRecord, i: nat)
    requires i < |rec.terms| && StrayTerm(store, rec, i)
    ensures rec.terms[i].unpackedLen > 0 || Before(rec.terms, i) > 0
  {
    hide TotalOf, Before;
  }

  lemma RangeHeaderNonEmpty(a: nat, b: nat)
    ensures RangeHeader(a, b) != ""
  {
    hide Decimal.Format;
  }

  lemma RequestedInside(header: string, total: nat)
    requires RequestedRange(header, total).Some?
    ensures RequestedRange(header, total).value.1 < total
  {
    hide ParseByteRange;
  }

  /** A one-term record whose chunk range starts where its layout ends makes a plain GET panic. */
  lemma StrayRecordPanics(store: XorbStore, fileHash: Hash, h: Hash, len: nat)
    requires h in store.layouts && len > 0
    ensures var n := |store.layouts[h]|;
            var rec := FileRecord(fileHash, None, len, [TermRecord(h, n, n, len)]);
            rec.totalLen == TotalOf(rec.terms) && CanPanic(store, rec, "")
  {
    var n := |store.layouts[h]|;
    var rec := FileRecord(fileHash, None, len, [TermRecord(h, n, n, len)]);
    assert rec.terms[..0] == [] && rec.terms[..1] == rec.terms;
    assert StopsPlan(store, rec, 0, len - 1, 0);
  }

  ghost predicate CanPanic(store: XorbStore, rec: FileRecord, header: string) {
    RequestedRange(header, rec.totalLen).Some? &&
    PanicsOn(store, rec, RequestedRange(header, rec.totalLen).value.0, RequestedRange(header, rec.totalLen).value.1)
  }

  // ---------------------------------------------------------------- what a client gets from a plan

  /** The chunks [i, j) of a xorb, decoded from their serialized form. */
  function DecodeChunks(lz4: Lz4, cs: seq<Chunk>): Result<Bytes, DecodeError> {
    if cs == [] then Ok([])
    else
      var s := SerializeChunk(cs[0]);
      Join(DecodeOne(lz4, s, ChunkInfo(0, |s|, cs[0].unpackedLen, cs[0].scheme)), DecodeChunks(lz4, cs[1..]))
  }

  lemma {:induction false} SerializeSplits(a: seq<Chunk>, b: seq<Chunk>)
    ensures SerializeChunks(a + b) == SerializeChunks(a) + SerializeChunks(b)
  {
    hide SerializeChunk;
    if a == [] {
      assert a + b == b;
    } else {
      assert (a + b)[1..] == a[1..] + b;
      SerializeSplits(a[1..], b);
    }
  }

  lemma {:induction false} LayoutAt(cs: seq<Chunk>, base: nat, i: nat)
    requires i < |cs|
    ensures var info := Layout(cs, base)[i];
            info == ChunkInfo(base + |SerializeChunks(cs[..i])|, base + |SerializeChunks(cs[..i])| + |SerializeChunk(cs[i])|,
                              cs[i].unpackedLen, cs[i].scheme)
    decreases i
  {
    hide SerializeChunk;
    if i == 0 {
      assert cs[..0] == [];
    } else {
      LayoutAt(cs[1..], base + |SerializeChunk(cs[0])|, i - 1);
      assert cs[..i] == [cs[0]] + cs[1..][..i - 1];
      SerializeSplits([cs[0]], cs[1..][..i - 1]);
      OneChunk(cs[0]);
    }
  }

  lemma OneChunk(c: Chunk)
    ensures SerializeChunks([c]) == SerializeChunk(c)
  {
    assert SerializeChunks([c][1..]) == [];
    assert SerializeChunk(c) + [] == SerializeChunk(c);
  }

  /** The bytes from chunk i to chunk j of a xorb are those chunks' serializations. */
  lemma WindowIsChunks(cs: seq<Chunk>, tail: Bytes, i: nat, j: nat)
    requires i < j <= |cs|
    ensures var x, layout := SerializeChunks(cs) + tail, Layout(cs, 0);
            layout[i].start <= layout[j - 1].end <= |x| &&
            x[layout[i].start..layout[j - 1].end] == SerializeChunks(cs[i..j])
  {
    hide SerializeChunk, Layout, SerializeChunks;
    LayoutAt(cs, 0, i);
    LayoutAt(cs, 0, j - 1);
    assert cs[..j] == cs[..j - 1] + [cs[j - 1]];
    SerializeSplits(cs[..j - 1], [cs[j - 1]]);
    OneChunk(cs[j - 1]);
    assert cs[..j] == cs[..i] + cs[i..j];
    SerializeSplits(cs[..i], cs[i..j]);
    assert cs == cs[..j] + cs[j..];
    SerializeSplits(cs[..j], cs[j..]);
    var a, b, c := SerializeChunks(cs[..i]), SerializeChunks(cs[i..j]), SerializeChunks(cs[j..]) + tail;
    assert SerializeChunks(cs) + tail == a + b + c;
    MiddleSlices(a, b, c, []);
    assert a + b + c + [] == a + b + c;
  }

  lemma LayoutInside(cs: seq<Chunk>, tail: Bytes)
    ensures LayoutFits(Layout(cs, 0), |SerializeChunks(cs) + tail|)
  {
    forall i | 0 <= i < |cs| ensures Layout(cs, 0)[i].start <= Layout(cs, 0)[i].end <= |SerializeChunks(cs) + tail| {
      LayoutAt(cs, 0, i);
      WindowIsChunks(cs, tail, i, i + 1);
    }
  }

  lemma {:induction false} DecodeWindow(lz4: Lz4, cs: seq<Chunk>, tail: Bytes, i: nat, j: nat)
    requires i <= j <= |cs| && LayoutFits(Layout(cs, 0), |SerializeChunks(cs) + tail|)
    ensures DecodeFrom(lz4, SerializeChunks(cs) + tail, Layout(cs, 0), i, j) == DecodeChunks(lz4, cs[i..j])
    decreases j - i
  {
    hide SerializeChunk, SerializeChunks, Layout, DecodeChunk, Join;
    if i < j {
      WindowIsChunks(cs, tail, i, i + 1);
      LayoutAt(cs, 0, i);
      assert cs[i..i + 1] == [cs[i]];
      OneChunk(cs[i]);
      var s := SerializeChunk(cs[i]);
      assert s[0..|s|] == s;
      DecodeWindow(lz4, cs, tail, i + 1, j);
      assert cs[i..j][1..] == cs[i + 1..j];
    }
  }

  /** A client fetches the URL range, walks the chunks it finds there and decodes them all. */
  function ClientDecode(lz4: Lz4, data: Bytes): (r: Option<Bytes>) {
    match WalkResult(data)
    case Err(_) => None
    case Ok(infos) =>
      if !LayoutFits(infos, |data|) then None
      else
        match DecodeRange(lz4, data, infos, 0, |infos|)
        case Err(_) => None
        case Ok(out) => Some(out)
  }

  function ClientFetch(lz4: Lz4, store: XorbStore, h: Hash, f: FetchInfo): Option<Bytes> {
    if h !in store.xorbs || !(0 <= f.urlStart <= f.urlEnd + 1 <= |store.xorbs[h]|) then None
    else ClientDecode(lz4, store.xorbs[h][f.urlStart..f.urlEnd + 1])
  }

  lemma StoredLayoutsFit(store: XorbStore)
    requires Consistent(store)
    ensures LayoutsFit(store)
  {
    forall h | h in store.xorbs ensures LayoutFits(store.layouts[h], |store.xorbs[h]|) {
      WalkAcceptsExactly(store.xorbs[h]);
      var cs, tail :| IsXorb(store.xorbs[h], cs, tail);
      LayoutInside(cs, tail);
    }
  }

  /** Fetching and decoding one term's URL range gives what whole-file reconstruction
      decodes for that term. */
  lemma FetchAgrees(lz4: Lz4, store: XorbStore, t: TermRecord)
    requires Consistent(store) && t.xorb in store.xorbs && WellFormedTerm(store, t)
    requires LayoutsFit(store)
    ensures match TermBytes(lz4, store, t)
            case Ok(data) => ClientFetch(lz4, store, t.xorb, FetchOf(store, t)) == Some(data)
            case Err(_) => ClientFetch(lz4, store, t.xorb, FetchOf(store, t)) == None
  {
    hide Walk, SerializeChunks, SerializeChunk, Layout, DecodeFrom, DecodeChunks;
    var xorb := store.xorbs[t.xorb];
    WalkAcceptsExactly(xorb);
    var cs, tail :| IsXorb(xorb, cs, tail);
    var i, j := t.chunkStart, t.chunkEnd;
    WindowIsChunks(cs, tail, i, j);
    DecodeWindow(lz4, cs, tail, i, j);
    var part := cs[i..j];
    var data := SerializeChunks(part);
    assert data + [] == data;
    assert IsXorb(data, part, []);
    WalkAcceptsExactly(data);
    LayoutInside(part, []);
    DecodeWindow(lz4, part, [], 0, |part|);
    assert part[0..|part|] == part;
  }

  /** Everything a client following the plan downloads, in term order. It may use any fetch
      entry of the term's xorb that names the term's chunk range. */
  ghost predicate ClientDownload(lz4: Lz4, store: XorbStore, r: Response, parts: seq<Bytes>)
    requires r.Plan?
  {
    && |parts| == |r.terms|
    && forall k {:trigger parts[k]} :: 0 <= k < |parts| ==> DownloadsTerm(lz4, store, r.terms[k], r.fetchInfo, parts[k])
  }

  ghost predicate DownloadsTerm(lz4: Lz4, store: XorbStore, t: PlanTerm, fetchInfo: map<Hash, seq<FetchInfo>>, part: Bytes) {
    t.hash in fetchInfo &&
    exists f :: f in fetchInfo[t.hash] && f.range == t.range && ClientFetch(lz4, store, t.hash, f) == Some(part)
  }

  lemma {:induction false} FileBytesSplit(lz4: Lz4, store: XorbStore, terms: seq<TermRecord>, parts: seq<Bytes>)
    requires LayoutsFit(store)
    requires |parts| == |terms|
    requires forall k :: 0 <= k < |terms| ==> TermBytes(lz4, store, terms[k]) == Ok(parts[k])
    ensures FileBytes(lz4, store, terms) == Ok(Concat(parts))
    decreases |terms|
  {
    hide TermBytes;
    if terms != [] {
      var n := |terms| - 1;
      FileBytesSplit(lz4, store, terms[..n], parts[..n]);
      assert parts == parts[..n] + [parts[n]];
      ConcatAppend(parts[..n], [parts[n]]);
      assert Concat([parts[n]]) == parts[n] + Concat([]);
      assert parts[n] + [] == parts[n];
    }
  }

  /** The bytes of each term, when the whole file reconstructs. */
  lemma {:induction false} TermParts(lz4: Lz4, store: XorbStore, terms: seq<TermRecord>) returns (parts: seq<Bytes>)
    requires LayoutsFit(store)
    requires FileBytes(lz4, store, terms).Ok?
    ensures |parts| == |terms|
    ensures forall k :: 0 <= k < |terms| ==> TermBytes(lz4, store, terms[k]) == Ok(parts[k])
    decreases |terms|
  {
    hide TermBytes;
    if terms == [] {
      parts := [];
    } else {
      var n := |terms| - 1;
      var init := TermParts(lz4, store, terms[..n]);
      parts := init + [TermBytes(lz4, store, terms[n]).value];
    }
  }

  /** Declared term lengths are the lengths of the chunks they name. */
  ghost predicate HonestLengths(store: XorbStore, terms: seq<TermRecord>)
    requires AllWellFormed(store, terms)
  {
    forall k {:trigger HonestTerm(store, terms[k])} :: 0 <= k < |terms| ==> HonestTerm(store, terms[k])
  }

  predicate HonestTerm(store: XorbStore, t: TermRecord)
    requires WellFormedTerm(store, t)
  {
    t.unpackedLen == UnpackedTotal(store.layouts[t.xorb], t.chunkStart, t.chunkEnd)
  }

  lemma {:induction false} ConcatLength(terms: seq<TermRecord>, parts: seq<Bytes>)
    requires |parts| == |terms| && forall k :: 0 <= k < |terms| ==> |parts[k]| == terms[k].unpackedLen
    ensures |Concat(parts)| == TotalOf(terms)
    decreases |terms|
  {
    if terms != [] {
      var n := |terms| - 1;
      ConcatLength(terms[..n], parts[..n]);
      assert parts == parts[..n] + [parts[n]];
      ConcatAppend(parts[..n], [parts[n]]);
      assert Concat([parts[n]]) == parts[n] + Concat([]);
    }
  }

  /** A planned term has its fetch entry, and every entry naming its chunk range is that one. */
  lemma PlannedTerm(store: XorbStore, rec: FileRecord, r: Response, start: int, end: int, lo: nat, hi: nat, k: nat)
    requires r.Plan? && GoodPlan(store, rec, start, end, r, lo, hi) && k < hi - lo
    ensures hi <= |rec.terms| && k < |r.terms| && r.terms[k] == PlanOf(rec.terms[lo + k]) && Servable(store, rec.terms[lo + k])
    ensures var t := rec.terms[lo + k];
            t.xorb in r.fetchInfo && FetchOf(store, t) in r.fetchInfo[t.xorb] &&
            forall f :: f in r.fetchInfo[t.xorb] && f.range == r.terms[k].range ==> f == FetchOf(store, t)
  {
    hide Before, FetchMap;
    var t, part := rec.terms[lo + k], rec.terms[lo..hi];
    assert part[k] == t;
    FetchMapFetches(store, part);
    forall f | f in r.fetchInfo[t.xorb] && f.range == r.terms[k].range ensures f == FetchOf(store, t) {
      var j :| 0 <= j < |part| && part[j].xorb == t.xorb && Servable(store, part[j]) && f == FetchOf(store, part[j]);
    }
  }

  /** A plan term's fetch entries all lead to the bytes reconstruction uses for it. */
  lemma DownloadedTerm(lz4: Lz4, store: XorbStore, rec: FileRecord, r: Response, start: int, end: int, lo: nat, hi: nat,
                       k: nat, f: FetchInfo)
    requires Consistent(store) && AllWellFormed(store, rec.terms)
    requires LayoutsFit(store)
    requires r.Plan? && GoodPlan(store, rec, start, end, r, lo, hi) && k < hi - lo
    requires rec.terms[lo + k].xorb in store.xorbs
    requires r.terms[k].hash in r.fetchInfo && f in r.fetchInfo[r.terms[k].hash] && f.range == r.terms[k].range
    ensures match TermBytes(lz4, store, rec.terms[lo + k])
            case Ok(data) => ClientFetch(lz4, store, r.terms[k].hash, f) == Some(data)
            case Err(_) => ClientFetch(lz4, store, r.terms[k].hash, f) == None
  {
    PlannedTerm(store, rec, r, start, end, lo, hi, k);
    hide GoodPlan, ClientFetch, TermBytes, Consistent, LayoutsFit, FetchOf;
    FetchAgrees(lz4, store, rec.terms[lo + k]);
  }

  lemma DecodedTermIsStored(lz4: Lz4, store: XorbStore, t: TermRecord)
    requires LayoutsFit(store) && TermBytes(lz4, store, t).Ok?
    ensures t.xorb in store.xorbs
  {
  }

  /** A client can always follow the plan of a file that reconstructs. */
  lemma PlanIsDownloadable(lz4: Lz4, store: XorbStore, rec: FileRecord, r: Response, start: int, end: int, lo: nat, hi: nat)
    requires Consistent(store) && AllWellFormed(store, rec.terms) && LayoutsFit(store)
    requires FileBytes(lz4, store, rec.terms).Ok?
    requires r.Plan? && GoodPlan(store, rec, start, end, r, lo, hi)
    ensures exists parts :: ClientDownload(lz4, store, r, parts)
  {
    hide FileBytes, ClientFetch, GoodPlan, TermBytes, Consistent, LayoutsFit, FetchOf;
    var all := TermParts(lz4, store, rec.terms);
    CoversBounds(store, rec, start, end, r, lo, hi);
    var parts := all[lo..hi];
    forall k | 0 <= k < hi - lo
      ensures DownloadsTerm(lz4, store, r.terms[k], r.fetchInfo, parts[k])
    {
      var t := rec.terms[lo + k];
      assert TermBytes(lz4, store, t) == Ok(all[lo + k]);
      PlannedTerm(store, rec, r, start, end, lo, hi, k);
      DecodedTermIsStored(lz4, store, t);
      FetchRange(store, t);
      DownloadedTerm(lz4, store, rec, r, start, end, lo, hi, k, FetchOf(store, t));
    }
    assert ClientDownload(lz4, store, r, parts);
  }

  lemma FetchRange(store: XorbStore, t: TermRecord)
    requires Servable(store, t)
    ensures FetchOf(store, t).range == PlanOf(t).range
  {
  }

  /** The main agreement: whatever a client downloads by following the plan for [start, end],
      after dropping offset_into_first_range bytes and taking the length of the range, is that
      slice of the reconstructed file. */
  lemma RangeAgrees(lz4: Lz4, store: XorbStore, rec: FileRecord, r: Response, start: nat, end: nat, lo: nat, hi: nat,
                    parts: seq<Bytes>)
    requires Consistent(store) && AllWellFormed(store, rec.terms) && HonestLengths(store, rec.terms)
    requires LayoutsFit(store)
    requires FileBytes(lz4, store, rec.terms).Ok?
    requires start <= end < TotalOf(rec.terms)
    requires r.Plan? && GoodPlan(store, rec, start, end, r, lo, hi)
    requires ClientDownload(lz4, store, r, parts)
    ensures var file, got := FileBytes(lz4, store, rec.terms).value, Concat(parts);
            end < |file| && 0 <= r.offsetIntoFirstRange && r.offsetIntoFirstRange + (end + 1 - start) <= |got| &&
            got[r.offsetIntoFirstRange..r.offsetIntoFirstRange + (end + 1 - start)] == file[start..end + 1]
  {
    hide FileBytes, TermBytes, ClientFetch, GoodPlan, Concat, TotalOf, Covers, ClientDownload, Consistent, AllWellFormed, HonestLengths;
    var all := TermParts(lz4, store, rec.terms);
    FileBytesSplit(lz4, store, rec.terms, all);
    PartLengths(lz4, store, rec.terms, all);
    PlanFacts(store, rec, start, end, r, lo, hi);
    PartsAgree(lz4, store, rec, r, start, end, lo, hi, parts, all);
    ConcatLength(rec.terms, all);
    ConcatLength(rec.terms[..lo], all[..lo]);
    ConcatLength(rec.terms[..hi], all[..hi]);
    assert all == all[..lo] + all[lo..hi] + all[hi..];
    ConcatAppend(all[..lo] + all[lo..hi], all[hi..]);
    ConcatAppend(all[..lo], all[lo..hi]);
    assert all[..hi] == all[..lo] + all[lo..hi];
    var a, b, c := Concat(all[..lo]), Concat(all[lo..hi]), Concat(all[hi..]);
    SliceInside(a, b, c, start, end + 1);
  }

  lemma SliceInside(a: Bytes, b: Bytes, c: Bytes, i: nat, j: nat)
    requires |a| <= i <= j <= |a| + |b|
    ensures (a + b + c)[i..j] == b[i - |a|..j - |a|]
  {
  }

  lemma PlanFacts(store: XorbStore, rec: FileRecord, start: nat, end: nat, r: Response, lo: nat, hi: nat)
    requires start <= end < TotalOf(rec.terms)
    requires r.Plan? && GoodPlan(store, rec, start, end, r, lo, hi)
    ensures lo < hi <= |rec.terms|
    ensures TotalOf(rec.terms[..lo]) <= start && end < TotalOf(rec.terms[..hi])
    ensures r.offsetIntoFirstRange == start - TotalOf(rec.terms[..lo])
  {
    assert Before(rec.terms, lo) <= start;
    assert rec.terms[..|rec.terms|] == rec.terms;
  }

  lemma PartLengths(lz4: Lz4, store: XorbStore, terms: seq<TermRecord>, parts: seq<Bytes>)
    requires AllWellFormed(store, terms) && HonestLengths(store, terms) && |parts| == |terms|
    requires LayoutsFit(store)
    requires forall k :: 0 <= k < |terms| ==> TermBytes(lz4, store, terms[k]) == Ok(parts[k])
    ensures forall k :: 0 <= k < |terms| ==> |parts[k]| == terms[k].unpackedLen
  {
    hide DecodeFrom, UnpackedTotal;
    forall k | 0 <= k < |terms| ensures |parts[k]| == terms[k].unpackedLen {
      var t := terms[k];
      assert TermBytes(lz4, store, t) == Ok(parts[k]) && HonestTerm(store, terms[k]);
      DecodedLength(lz4, store.xorbs[t.xorb], store.layouts[t.xorb], t.chunkStart, t.chunkEnd);
    }
  }

  lemma PartsAgree(lz4: Lz4, store: XorbStore, rec: FileRecord, r: Response, start: int, end: int, lo: nat, hi: nat,
                   parts: seq<Bytes>, all: seq<Bytes>)
    requires Consistent(store) && AllWellFormed(store, rec.terms)
    requires LayoutsFit(store)
    requires r.Plan? && GoodPlan(store, rec, start, end, r, lo, hi)
    requires ClientDownload(lz4, store, r, parts)
    requires |all| == |rec.terms| && forall k :: 0 <= k < |all| ==> TermBytes(lz4, store, rec.terms[k]) == Ok(all[k])
    ensures lo <= hi <= |all| && parts == all[lo..hi]
  {
    hide FileBytes, ClientFetch, GoodPlan, Consistent, LayoutsFit, TermBytes;
    CoversBounds(store, rec, start, end, r, lo, hi);
    forall k | 0 <= k < hi - lo ensures parts[k] == all[lo + k] {
      assert DownloadsTerm(lz4, store, r.terms[k], r.fetchInfo, parts[k]);
      var f :| f in r.fetchInfo[r.terms[k].hash] && f.range == r.terms[k].range &&
               ClientFetch(lz4, store, r.terms[k].hash, f) == Some(parts[k]);
      assert TermBytes(lz4, store, rec.terms[lo + k]) == Ok(all[lo + k]);
      DecodedTermIsStored(lz4, store, rec.terms[lo + k]);
      DownloadedTerm(lz4, store, rec, r, start, end, lo, hi, k, f);
    }
  }

  lemma CoversBounds(store: XorbStore, rec: FileRecord, start: int, end: int, r: Response, lo: nat, hi: nat)
    requires r.Plan? && GoodPlan(store, rec, start, end, r, lo, hi)
    ensures lo < hi <= |rec.terms| && |r.terms| == hi - lo
  {
  }

  /** Every planned term of positive length overlaps the range, and no term left out does. */
  lemma PlanIsTight(store: XorbStore, rec: FileRecord, r: Response, start: nat, end: nat, lo: nat, hi: nat, i: nat)
    requires r.Plan? && GoodPlan(store, rec, start, end, r, lo, hi) && i < |rec.terms| && rec.terms[i].unpackedLen > 0
    ensures lo <= i < hi <==> Before(rec.terms, i) <= end && start < Before(rec.terms, i + 1)
  {
    if i < lo {
      BeforeMonotone(rec.terms, i + 1, lo);
    } else if i >= hi {
      BeforeMonotone(rec.terms, hi, i);
    } else {
      BeforeMonotone(rec.terms, lo + 1, i + 1);
      BeforeMonotone(rec.terms, i, hi - 1);
    }
  }

  /** The declared length of a planned term is the length of what the client downloads for it. */
  lemma PlannedLengths(lz4: Lz4, store: XorbStore, rec: FileRecord, r: Response, start: nat, end: nat, lo: nat, hi: nat,
                       parts: seq<Bytes>)
    requires Consistent(store) && AllWellFormed(store, rec.terms) && HonestLengths(store, rec.terms) && LayoutsFit(store)
    requires FileBytes(lz4, store, rec.terms).Ok?
    requires r.Plan? && GoodPlan(store, rec, start, end, r, lo, hi)
    requires ClientDownload(lz4, store, r, parts)
    ensures forall k :: 0 <= k < |parts| ==> |parts[k]| == r.terms[k].unpackedLength
    ensures |Concat(parts)| == Before(rec.terms, hi) - Before(rec.terms, lo)
  {
    hide FileBytes, TermBytes, ClientFetch, GoodPlan, Concat, TotalOf, ClientDownload, Consistent, AllWellFormed, HonestLengths;
    var all := TermParts(lz4, store, rec.terms);
    PartLengths(lz4, store, rec.terms, all);
    PartsAgree(lz4, store, rec, r, start, end, lo, hi, parts, all);
    CoversBounds(store, rec, start, end, r, lo, hi);
    forall k | 0 <= k < |parts| ensures |parts[k]| == r.terms[k].unpackedLength {
      PlannedTerm(store, rec, r, start, end, lo, hi, k);
      assert parts[k] == all[lo + k];
    }
    ConcatLength(rec.terms[..lo], all[..lo]);
    ConcatLength(rec.terms[..hi], all[..hi]);
    assert all[..hi] == all[..lo] + all[lo..hi];
    ConcatAppend(all[..lo], all[lo..hi]);
  }

  /** Following the plan for a request without a range gives the whole file. */
  lemma WholeFileDownloads(lz4: Lz4, store: XorbStore, rec: FileRecord, r: Response, lo: nat, hi: nat, parts: seq<Bytes>)
    requires Consistent(store) && AllWellFormed(store, rec.terms) && HonestLengths(store, rec.terms) && LayoutsFit(store)
    requires FileBytes(lz4, store, rec.terms).Ok? && rec.totalLen == TotalOf(rec.terms) > 0
    requires r.Plan? && PlansAll(store, rec, r, lo, hi)
    requires ClientDownload(lz4, store, r, parts)
    ensures Ok(Concat(parts)) == FileBytes(lz4, store, rec.terms)
  {
    hide FileBytes, GoodPlan, ClientDownload, Consistent, AllWellFormed, HonestLengths, TotalOf, Concat, LayoutsFit, Before,
         PlansWholeFile;
    RangeAgrees(lz4, store, rec, r, 0, rec.totalLen - 1, lo, hi, parts);
    PlannedLengths(lz4, store, rec, r, 0, rec.totalLen - 1, lo, hi, parts);
    WholeFilePlan(store, rec, r, lo, hi);
    FileLength(lz4, store, rec.terms);
    var file, got := FileBytes(lz4, store, rec.terms).value, Concat(parts);
    assert got == got[0..rec.totalLen] && file == file[0..rec.totalLen];
  }

  lemma FileLength(lz4: Lz4, store: XorbStore, terms: seq<TermRecord>)
    requires AllWellFormed(store, terms) && HonestLengths(store, terms) && LayoutsFit(store)
    requires FileBytes(lz4, store, terms).Ok?
    ensures |FileBytes(lz4, store, terms).value| == TotalOf(terms)
  {
    hide FileBytes, TotalOf, TermBytes, AllWellFormed, HonestLengths, Concat;
    var all := TermParts(lz4, store, terms);
    FileBytesSplit(lz4, store, terms, all);
    PartLengths(lz4, store, terms, all);
    ConcatLength(terms, all);
  }

  // ---------------------------------------------------------------- from contents to xorbs and back

  /** What a client puts into a xorb: contents, each with the scheme it stores it under. */
  type Contents = seq<(Byte, Bytes)>

  function Encoded(compress: Bytes -> Bytes, contents: Contents): (cs: seq<Chunk>)
    requires forall i :: 0 <= i < |contents| ==> contents[i].0 <= MAX_SCHEME
    ensures |cs| == |contents| && forall i :: 0 <= i < |cs| ==> cs[i] == EncodeChunk(compress, contents[i].0, contents[i].1)
  {
    seq(|contents|, i requires 0 <= i < |contents| => EncodeChunk(compress, contents[i].0, contents[i].1))
  }

  /** The xorb stored under h serializes these contents, and its layout is the walker's. */
  ghost predicate Holding(compress: Bytes -> Bytes, store: XorbStore, h: Hash, contents: Contents) {
    && (forall i :: 0 <= i < |contents| ==>
          contents[i].0 <= MAX_SCHEME && ValidChunk(EncodeChunk(compress, contents[i].0, contents[i].1)))
    && h in store.xorbs && h in store.layouts
    && exists tail :: IsXorb(store.xorbs[h], Encoded(compress, contents), tail) && store.layouts[h] == Layout(Encoded(compress, contents), 0)
  }

  function Texts(contents: Contents): (r: seq<Bytes>)
    ensures |r| == |contents|
  {
    seq(|contents|, i requires 0 <= i < |contents| => contents[i].1)
  }

  lemma {:induction false} DecodeAllEncoded(lz4: Lz4, compress: Bytes -> Bytes, contents: Contents)
    requires forall b :: lz4(compress(b)) == Some(b)
    requires forall i :: 0 <= i < |contents| ==>
               contents[i].0 <= MAX_SCHEME && ValidChunk(EncodeChunk(compress, contents[i].0, contents[i].1))
    ensures DecodeChunks(lz4, Encoded(compress, contents)) == Ok(Concat(Texts(contents)))
  {
    hide SerializeChunk, DecodeChunk, EncodeChunk, ValidChunk;
    if contents != [] {
      var c := EncodeChunk(compress, contents[0].0, contents[0].1);
      DecodeEncoded(lz4, compress, contents[0].0, contents[0].1);
      EncodedLength(compress, contents[0].0, contents[0].1);
      var s := SerializeChunk(c);
      assert s[0..|s|] == s;
      DecodeAllEncoded(lz4, compress, contents[1..]);
      assert Encoded(compress, contents)[1..] == Encoded(compress, contents[1..]);
      assert Texts(contents)[1..] == Texts(contents[1..]);
    }
  }

  lemma EncodedLength(compress: Bytes -> Bytes, scheme: Byte, content: Bytes)
    requires scheme <= MAX_SCHEME
    ensures EncodeChunk(compress, scheme, content).unpackedLen == |content|
  {
  }

  /** A term over a xorb a client serialized gives back the contents of its chunks. */
  lemma EncodedTerm(lz4: Lz4, compress: Bytes -> Bytes, store: XorbStore, t: TermRecord, contents: Contents)
    requires forall b :: lz4(compress(b)) == Some(b)
    requires LayoutsFit(store) && Holding(compress, store, t.xorb, contents) && t.chunkStart < t.chunkEnd <= |contents|
    ensures TermBytes(lz4, store, t) == Ok(Concat(Texts(contents)[t.chunkStart..t.chunkEnd]))
  {
    hide SerializeChunks, SerializeChunk, DecodeFrom, DecodeChunks, EncodeChunk, ValidChunk;
    var cs := Encoded(compress, contents);
    var tail :| IsXorb(store.xorbs[t.xorb], cs, tail) && store.layouts[t.xorb] == Layout(cs, 0);
    DecodeWindow(lz4, cs, tail, t.chunkStart, t.chunkEnd);
    var part := contents[t.chunkStart..t.chunkEnd];
    DecodeAllEncoded(lz4, compress, part);
    assert cs[t.chunkStart..t.chunkEnd] == Encoded(compress, part);
    assert Texts(contents)[t.chunkStart..t.chunkEnd] == Texts(part);
  }

  /** The texts a record's terms name, one after the other. */
  ghost function NamedTexts(held: Hash -> Contents, terms: seq<TermRecord>): Bytes
    requires forall k :: 0 <= k < |terms| ==> terms[k].chunkStart < terms[k].chunkEnd <= |held(terms[k].xorb)|
  {
    if terms == [] then []
    else
      var t := terms[|terms| - 1];
      NamedTexts(held, terms[..|terms| - 1]) + Concat(Texts(held(t.xorb))[t.chunkStart..t.chunkEnd])
  }

  /** End to end: a file over xorbs that clients serialized, under any of the three schemes,
      reconstructs to the contents its terms name. */
  lemma {:induction false} EncodedFileReconstructs(lz4: Lz4, compress: Bytes -> Bytes, store: XorbStore, terms: seq<TermRecord>,
                                                   held: Hash -> Contents)
    requires forall b :: lz4(compress(b)) == Some(b)
    requires LayoutsFit(store)
    requires forall k :: 0 <= k < |terms| ==>
               Holding(compress, store, terms[k].xorb, held(terms[k].xorb)) &&
               terms[k].chunkStart < terms[k].chunkEnd <= |held(terms[k].xorb)|
    ensures FileBytes(lz4, store, terms) == Ok(NamedTexts(held, terms))
  {
    hide TermBytes, Holding, Concat;
    if terms != [] {
      var n := |terms| - 1;
      EncodedFileReconstructs(lz4, compress, store, terms[..n], held);
      EncodedTerm(lz4, compress, store, terms[n], held(terms[n].xorb));
    }
  }
}
