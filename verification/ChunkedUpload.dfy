/** Chunked blob upload: the client's writer (internal/ociclient/ociclient.go) against a
    registry session that is strict about offsets (internal/fakeregistry/fakeregistry.go),
    after "Pushing a blob in chunks" in the OCI Distribution Specification. One repository. */
module ChunkedUpload {
  import opened Common
  import Decimal

  datatype Status = Accepted | Created | NoSuchUpload | RangeNotSatisfiable | BadRequest

  // ---------------------------------------------------------------- the server's rules

  /** "<start>-<end>", both inclusive, no unit. */
  function ParseRange(s: string): (r: Option<(int, int)>)
    ensures r.Some? ==> r.value.0 <= r.value.1
  {
    match Decimal.CutDash(s)
    case None => None
    case Some(parts) =>
      var from, to := Decimal.ParseInt64(parts.0), Decimal.ParseInt64(parts.1);
      if from.None? || to.None? || from.value > to.value then None else Some((from.value, to.value))
  }

  /** Any text at all: a range is accepted if and only if it is two numbers in order around the
      first dash. */
  lemma RangeAcceptedExactlyWhen(s: string, from: int, to: int)
    ensures ParseRange(s) == Some((from, to)) <==> exists x, y :: IsRange(s, x, y, from, to)
  {
    Decimal.CutDashMeans(s);
    if ParseRange(s) == Some((from, to)) {
      var parts := Decimal.CutDash(s).value;
      assert IsRange(s, parts.0, parts.1, from, to);
    }
    hide Decimal.CutDash, Decimal.ParseInt64;
    if x, y :| IsRange(s, x, y, from, to) {
      Decimal.CutFirstDash(x, y);
    }
  }

  predicate IsRange(s: string, x: string, y: string, from: int, to: int) {
    s == x + "-" + y && '-' !in x && Decimal.ParseInt64(x) == Some(from) && Decimal.ParseInt64(y) == Some(to) && from <= to
  }

  function ChunkRange(from: nat, to: nat): string {
    Decimal.Format(from) + "-" + Decimal.Format(to)
  }

  lemma ChunkRangeRoundTrip(from: nat, to: nat)
    requires from <= Decimal.MAX_INT64 && to <= Decimal.MAX_INT64
    ensures ParseRange(ChunkRange(from, to)) == if from <= to then Some((from as int, to as int)) else None
    ensures ChunkRange(from, to) != ""
  {
    Decimal.CutFormatted(from, Decimal.Format(to));
    Decimal.ParseFormatted(from);
    Decimal.ParseFormatted(to);
  }

  /** The contiguity check: a chunk must start where the session ends. None is a 416. */
  function AppendChunk(session: Bytes, from: int, body: Bytes): Option<Bytes> {
    if from == |session| then Some(session + body) else None
  }

  /** A PATCH: a ranged chunk when both headers are there, a streamed append otherwise. The
      second component is the session afterwards. */
  function PatchOutcome(session: Bytes, contentLength: Option<nat>, contentRange: string, body: Bytes): (Status, Bytes) {
    if contentLength.None? || contentRange == "" then (Accepted, session + body)
    else
      match ParseRange(contentRange)
      case None => (RangeNotSatisfiable, session)
      case Some(range) =>
        if range.1 - range.0 + 1 != contentLength.value then (RangeNotSatisfiable, session)
        else
          match AppendChunk(session, range.0, body)
          case None => (RangeNotSatisfiable, session)
          case Some(appended) => (Accepted, appended)
  }

  /** The bytes a closing PUT leaves in the session, or None when its data is refused. */
  function PutAppends(session: Bytes, contentLength: Option<nat>, contentRange: string, body: Bytes): Option<Bytes> {
    if contentRange != "" then
      match ParseRange(contentRange)
      case None => None
      case Some(range) =>
        if contentLength.Some? && range.1 - range.0 + 1 != contentLength.value then None
        else AppendChunk(session, range.0, body)
    else if contentLength.Some? && contentLength.value > 0 then AppendChunk(session, 0, body)
    else Some(session)
  }

  /** A closing PUT. Created means the session is over and its bytes are the blob. */
  function PutOutcome(session: Bytes, digest: Option<Digest>, contentLength: Option<nat>, contentRange: string, body: Bytes): (Status, Bytes) {
    if digest.None? then (BadRequest, session)
    else if contentLength.None? && contentRange == "" then (BadRequest, session)
    else
      match PutAppends(session, contentLength, contentRange, body)
      case None => (RangeNotSatisfiable, session)
      case Some(all) => (if Sha256(all) == digest.value then Created else BadRequest, all)
  }

  /** A ranged chunk is accepted exactly when it continues the session and fills its range. */
  lemma PatchAcceptedExactlyWhen(session: Bytes, from: nat, to: nat, body: Bytes)
    requires from <= Decimal.MAX_INT64 && to <= Decimal.MAX_INT64
    ensures PatchOutcome(session, Some(|body|), ChunkRange(from, to), body).0 == Accepted <==>
            body != [] && from == |session| && to == |session| + |body| - 1
    ensures PatchOutcome(session, Some(|body|), ChunkRange(from, to), body).1 ==
            if body != [] && from == |session| && to == |session| + |body| - 1 then session + body else session
  {
    ChunkRangeRoundTrip(from, to);
  }

  /** A PATCH without both headers is a streamed append; with both it is a chunk that must start
      where the session ends and have the length it declares, or nothing happens. */
  lemma PatchMeans(session: Bytes, contentLength: Option<nat>, contentRange: string, body: Bytes)
    ensures contentLength.None? || contentRange == "" ==>
              PatchOutcome(session, contentLength, contentRange, body) == (Accepted, session + body)
    ensures contentLength.Some? && contentRange != "" ==>
              PatchOutcome(session, contentLength, contentRange, body) ==
              if ParseRange(contentRange) == Some((|session| as int, |session| + contentLength.value - 1)) then (Accepted, session + body)
              else (RangeNotSatisfiable, session)
  {
    hide ParseRange;
  }

  /** What a closing PUT makes of the session: its data appended as a range, or as the whole when
      nothing was uploaded before, or nothing appended when it has none. */
  predicate ClosesWith(session: Bytes, contentLength: Option<nat>, contentRange: string, body: Bytes, all: Bytes) {
    if contentRange != "" then
      all == session + body && ParseRange(contentRange).Some? && ParseRange(contentRange).value.0 == |session| &&
      (contentLength.Some? ==> ParseRange(contentRange).value.1 == |session| + contentLength.value - 1)
    else
      contentLength.Some? && if contentLength.value > 0 then session == [] && all == body else all == session
  }

  /** A session becomes a blob if and only if a digest is given and is that of what it closes with. */
  lemma CreatedExactlyWhen(session: Bytes, digest: Option<Digest>, contentLength: Option<nat>, contentRange: string, body: Bytes, all: Bytes)
    ensures PutOutcome(session, digest, contentLength, contentRange, body) == (Created, all) <==>
            digest == Some(Sha256(all)) && ClosesWith(session, contentLength, contentRange, body, all)
  {
    hide ParseRange;
    assert [] + body == body;
  }

  /** Every other closing PUT: without a digest, or with neither length nor range, it changes nothing
      and is a bad request; data that does not close the session is refused and changes nothing;
      data that does, under another digest, stays in the session. */
  lemma RefusedPutMeans(session: Bytes, digest: Option<Digest>, contentLength: Option<nat>, contentRange: string, body: Bytes)
    ensures var r := PutOutcome(session, digest, contentLength, contentRange, body);
            if digest.None? || (contentLength.None? && contentRange == "") then r == (BadRequest, session)
            else if exists all :: ClosesWith(session, contentLength, contentRange, body, all) then
              ClosesWith(session, contentLength, contentRange, body, r.1) &&
              r.0 == if digest.value == Sha256(r.1) then Created else BadRequest
            else r == (RangeNotSatisfiable, session)
  {
    hide ParseRange;
    assert [] + body == body;
    var r := PutOutcome(session, digest, contentLength, contentRange, body);
    if digest.Some? && (contentLength.Some? || contentRange != "") && PutAppends(session, contentLength, contentRange, body).Some? {
      assert ClosesWith(session, contentLength, contentRange, body, r.1);
    }
  }

  /** Mixing forms fails: once chunks are in the session, a closing PUT that carries data
      without a Content-Range is refused and the session stays as it was. */
  lemma MixedFormRefused(session: Bytes, digest: Digest, body: Bytes)
    requires body != []
    ensures PutOutcome(session, Some(digest), Some(|body|), "", body) ==
            if session != [] then (RangeNotSatisfiable, session)
            else (if digest == Sha256(body) then Created else BadRequest, body)
  {
    assert [] + body == body;
  }

  class Registry {
    var blobs: map<Digest, Bytes>
    var uploads: map<nat, Bytes>

    constructor ()
      ensures blobs == map[] && uploads == map[]
    {
      blobs := map[];
      uploads := map[];
    }

    /** The session id is drawn at random; it is not one in use. */
    method StartUpload(id: nat)
      requires id !in uploads
      modifies this`uploads
      ensures uploads == old(uploads)[id := []]
    {
      uploads := uploads[id := []];
    }

    method Patch(id: nat, contentLength: Option<nat>, contentRange: string, body: Bytes) returns (status: Status)
      modifies this`uploads
      ensures id !in old(uploads) ==> status == NoSuchUpload && uploads == old(uploads)
      ensures id in old(uploads) ==>
                status == PatchOutcome(old(uploads)[id], contentLength, contentRange, body).0 &&
                uploads == old(uploads)[id := PatchOutcome(old(uploads)[id], contentLength, contentRange, body).1]
    {
      if id !in uploads {
        return NoSuchUpload;
      }
      if contentLength.None? || contentRange == "" {
        uploads := uploads[id := uploads[id] + body];
      } else {
        var range := ParseRange(contentRange);
        if range.None? || range.value.1 - range.value.0 + 1 != contentLength.value {
          return RangeNotSatisfiable;
        }
        var appended := AppendChunk(uploads[id], range.value.0, body);
        if appended.None? {
          return RangeNotSatisfiable;
        }
        uploads := uploads[id := appended.value];
      }
      return Accepted;
    }

    method Put(id: nat, digest: Option<Digest>, contentLength: Option<nat>, contentRange: string, body: Bytes) returns (status: Status)
      modifies this
      ensures id !in old(uploads) ==> status == NoSuchUpload && uploads == old(uploads) && blobs == old(blobs)
      ensures id in old(uploads) ==>
                var outcome := PutOutcome(old(uploads)[id], digest, contentLength, contentRange, body);
                status == outcome.0 &&
                (if status == Created then uploads == old(uploads) - {id} && blobs == old(blobs)[digest.value := outcome.1]
                 else uploads == old(uploads)[id := outcome.1] && blobs == old(blobs))
    {
      if id !in uploads {
        return NoSuchUpload;
      }
      if digest.None? {
        return BadRequest;
      }
      if contentLength.None? && contentRange == "" {
        return BadRequest;
      }
      var up := uploads[id];
      if contentRange != "" {
        var range := ParseRange(contentRange);
        if range.None? || (contentLength.Some? && range.value.1 - range.value.0 + 1 != contentLength.value) {
          return RangeNotSatisfiable;
        }
        var appended := AppendChunk(up, range.value.0, body);
        if appended.None? {
          return RangeNotSatisfiable;
        }
        up := appended.value;
      } else if contentLength.Some? && contentLength.value > 0 {
        var appended := AppendChunk(up, 0, body);
        if appended.None? {
          return RangeNotSatisfiable;
        }
        up := appended.value;
      }
      uploads := uploads[id := up];
      if Sha256(up) != digest.value {
        return BadRequest;
      }
      blobs := blobs[digest.value := up];
      uploads := uploads - {id};
      return Created;
    }
  }

  // ---------------------------------------------------------------- the client

  class BlobWriter {
    const registry: Registry
    const location: nat
    const chunkSize: nat
    /** Everything fed to the hasher. */
    var hashed: Bytes
    var buf: Bytes
    var offset: nat

    /** Session bytes followed by buffered bytes are everything written; less than a chunk
        is ever held back. */
    ghost predicate Valid()
      reads this, registry
    {
      && chunkSize > 0
      && location in registry.uploads
      && |registry.uploads[location]| == offset
      && hashed == registry.uploads[location] + buf
      && |buf| < chunkSize
      && |hashed| <= Decimal.MAX_INT64
    }

    constructor (registry: Registry, id: nat, chunkSize: nat)
      requires id !in registry.uploads && chunkSize > 0
      modifies registry`uploads
      ensures Valid() && hashed == [] && this.registry == registry && location == id && this.chunkSize == chunkSize
      ensures registry.uploads == old(registry.uploads)[id := []]
    {
      this.registry := registry;
      this.location := id;
      this.chunkSize := chunkSize;
      hashed, buf, offset := [], [], 0;
      new;
      registry.StartUpload(id);
    }

    /** PATCHes the buffered chunk; the registry takes it. */
    method Flush() returns (ok: bool)
      requires location in registry.uploads && |registry.uploads[location]| == offset
      requires offset + |buf| <= Decimal.MAX_INT64
      modifies this`buf, this`offset, registry`uploads
      ensures ok && buf == [] && offset == old(offset) + |old(buf)|
      ensures registry.uploads == old(registry.uploads)[location := old(registry.uploads)[location] + old(buf)]
    {
      if |buf| == 0 {
        assert registry.uploads[location] + buf == registry.uploads[location];
        assert registry.uploads == registry.uploads[location := registry.uploads[location]];
        return true;
      }
      var chunk := buf;
      PatchAcceptedExactlyWhen(registry.uploads[location], offset, offset + |chunk| - 1, chunk);
      var status := registry.Patch(location, Some(|chunk|), ChunkRange(offset, offset + |chunk| - 1), chunk);
      if status != Accepted {
        return false;
      }
      offset := offset + |chunk|;
      buf := [];
      return true;
    }

    method Write(p: Bytes) returns (n: nat, ok: bool)
      requires Valid() && |hashed| + |p| <= Decimal.MAX_INT64
      modifies this, registry`uploads
      ensures Valid() && ok && n == |p| && hashed == old(hashed) + p
      ensures registry.uploads == old(registry.uploads)[location := registry.uploads[location]]
    {
      ghost var session := registry.uploads[location];
      assert session + (buf + p) == (session + buf) + p;
      hashed := hashed + p;
      buf := buf + p;
      n := |p|;
      if |buf| >= chunkSize {
        assert (session + buf) + [] == session + buf;
        ok := Flush();
        if !ok {
          return;
        }
      }
      assert registry.uploads[location := registry.uploads[location]] == registry.uploads;
      return n, true;
    }

    /** Closes the session without mixing forms: the whole payload in the PUT when nothing
        was PATCHed, else the tail as one more PATCH and a bodyless PUT. */
    method Commit() returns (r: Option<(Digest, nat)>)
      requires Valid()
      modifies this`buf, this`offset, registry
      ensures r == Some((Sha256(hashed), |hashed|))
      ensures registry.blobs == old(registry.blobs)[Sha256(hashed) := hashed]
      ensures registry.uploads == old(registry.uploads) - {location}
    {
      var digest := Sha256(hashed);
      var total := offset + |buf|;
      ghost var session, tailed := registry.uploads[location], buf;
      var tail: Bytes := [];
      if offset == 0 {
        tail := buf;
        assert [] + buf == buf && session == [];
      } else {
        var ok := Flush();
        if !ok {
          return None;
        }
        assert registry.uploads[location] == session + tailed == hashed;
      }
      var status := registry.Put(location, Some(digest), Some(|tail|), "", tail);
      if status != Created {
        return None;
      }
      return Some((digest, total));
    }
  }

  /** The whole protocol: any writes, any positive chunk size. No request is refused, and what
      is stored under the returned digest is the concatenation of the writes. */
  method Upload(registry: Registry, id: nat, chunkSize: nat, writes: seq<Bytes>) returns (r: Option<(Digest, nat)>)
    requires id !in registry.uploads && chunkSize > 0 && |Concat(writes)| <= Decimal.MAX_INT64
    modifies registry
    ensures r == Some((Sha256(Concat(writes)), |Concat(writes)|))
    ensures registry.blobs == old(registry.blobs)[Sha256(Concat(writes)) := Concat(writes)]
    ensures registry.uploads == old(registry.uploads)
  {
    var w := new BlobWriter(registry, id, chunkSize);
    for i := 0 to |writes|
      invariant w.Valid() && w.registry == registry && w.location == id && fresh(w)
      invariant w.hashed == Concat(writes[..i])
      invariant registry.blobs == old(registry.blobs)
      invariant registry.uploads.Keys == old(registry.uploads).Keys + {id}
      invariant forall k :: k in old(registry.uploads) ==> registry.uploads[k] == old(registry.uploads)[k]
    {
      PrefixConcat(writes, i);
      var n, ok := w.Write(writes[i]);
      if !ok {
        return None;
      }
    }
    assert writes[..|writes|] == writes;
    r := w.Commit();
    assert registry.uploads == old(registry.uploads);
  }

  lemma PrefixConcat(writes: seq<Bytes>, i: nat)
    requires i < |writes|
    ensures Concat(writes[..i + 1]) == Concat(writes[..i]) + writes[i]
    ensures |Concat(writes[..i + 1])| <= |Concat(writes)|
  {
    assert writes[..i + 1] == writes[..i] + [writes[i]];
    ConcatAppend(writes[..i], [writes[i]]);
    assert Concat([writes[i]]) == writes[i] + Concat([]);
    assert writes[i] + [] == writes[i];
    assert writes == writes[..i + 1] + writes[i + 1..];
    ConcatAppend(writes[..i + 1], writes[i + 1..]);
  }

  /** PutBlob: a blob that is there is left alone if the look for it succeeds (seen). Content of
      unknown size (size below 0) goes through a chunked session, so it is stored under its own
      digest even when that is not the one asked for; content of known size is one monolithic PUT,
      answered yes only if size and digest are right. Of content longer than its declared size the
      transport refuses the rest; sent says whether the bytes before had reached the registry,
      which stores them if they are the blob. */
  method PutBlob(registry: Registry, id: nat, chunkSize: nat, digest: Digest, content: seq<Bytes>, size: int,
                 seen: bool, sent: bool)
    returns (ok: bool)
    requires id !in registry.uploads && chunkSize > 0 && |Concat(content)| <= Decimal.MAX_INT64
    modifies registry
    ensures digest in old(registry.blobs) && seen ==>
              ok && registry.blobs == old(registry.blobs) && registry.uploads == old(registry.uploads)
    ensures !(digest in old(registry.blobs) && seen) && size < 0 ==>
              ok == (digest == Sha256(Concat(content))) && registry.uploads == old(registry.uploads) &&
              registry.blobs == old(registry.blobs)[Sha256(Concat(content)) := Concat(content)]
    ensures !(digest in old(registry.blobs) && seen) && size >= 0 ==>
              ok == (size == |Concat(content)| && digest == Sha256(Concat(content))) &&
              registry.blobs == (if Reaches(Concat(content), size, sent) && digest == Sha256(Concat(content)[..size])
                                 then old(registry.blobs)[digest := Concat(content)[..size]] else old(registry.blobs)) &&
              (ok ==> registry.uploads == old(registry.uploads))
  {
    if digest in registry.blobs && seen {
      return true;
    }
    if size < 0 {
      var r := Upload(registry, id, chunkSize, content);
      if r.None? {
        return false;
      }
      return r.value.0 == digest;
    }
    registry.StartUpload(id);
    var body := Concat(content);
    var status := BadRequest;
    if size == 0 && body != [] {
      // A length of zero counts as unknown, so none is sent.
      status := registry.Put(id, Some(digest), None, "", body);
    } else if Reaches(body, size, sent) {
      assert [] + body[..size] == body[..size];
      status := registry.Put(id, Some(digest), Some(size), "", body[..size]);
      assert body[..|body|] == body;
    }
    // The transport refuses a body that does not have the declared length.
    ok := |body| == size && status == Created;
    assert ok ==> registry.uploads == old(registry.uploads);
  }

  /** The declared bytes of a body come to the registry as one PUT. */
  predicate Reaches(body: Bytes, size: nat, sent: bool) {
    size == |body| || (sent && 0 < size < |body|)
  }
}
