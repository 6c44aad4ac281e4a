/** Lazy ranged readers over registry blobs and bucket objects, and the ranged GETs behind
    them (internal/backend/ocibackend/layer.go, internal/s3client/ranged.go,
    internal/ociclient/ociclient.go). */
module RangedReader {
  import opened Common

  // ---------------------------------------------------------------- ranged GETs

  /** What a server makes of an open-ended range (section 14.1.2 of RFC 9110). */
  datatype RangeSupport = Honours | Ignores | Rejects

  datatype Reply = Full(body: Bytes) | Partial(body: Bytes) | NotSatisfiable

  function Serve(blob: Bytes, support: RangeSupport, from: Option<nat>): Reply {
    match from
    case None => Full(blob)
    case Some(offset) =>
      match support
      case Honours => if offset < |blob| then Partial(blob[offset..]) else NotSatisfiable
      case Ignores => Full(blob)
      case Rejects => NotSatisfiable
  }

  datatype GetError = RangeUnsupported | SkipFailed | StatusError

  /** Discards the first n bytes of a body; a shorter body is an error. */
  function Skip(body: Bytes, n: nat): Result<Bytes, GetError> {
    if n <= |body| then Ok(body[n..]) else Err(SkipFailed)
  }

  method GetBlobAttempt(blob: Bytes, support: RangeSupport, offset: nat, useRange: bool) returns (r: Result<Bytes, GetError>)
    ensures r == match Serve(blob, support, if offset > 0 && useRange then Some(offset) else None)
                 case Partial(body) => Ok(body)
                 case Full(body) => Skip(body, offset)
                 case NotSatisfiable => Err(if useRange then RangeUnsupported else StatusError)
  {
    var range: Option<nat> := None;
    if offset > 0 && useRange {
      range := Some(offset);
    }
    var reply := Serve(blob, support, range);
    match reply
    case Partial(body) =>
      return Ok(body);
    case Full(body) =>
      if offset > 0 {
        return Skip(body, offset);
      }
      assert body[0..] == body;
      return Ok(body);
    case NotSatisfiable =>
      return Err(if useRange then RangeUnsupported else StatusError);
  }

  /** Offset semantics whatever the server does with ranges. */
  method GetBlob(blob: Bytes, support: RangeSupport, offset: nat) returns (r: Result<Bytes, GetError>)
    ensures r.Ok? <==> offset <= |blob|
    ensures r.Ok? ==> r.value == blob[offset..]
  {
    r := GetBlobAttempt(blob, support, offset, true);
    if r == Err(RangeUnsupported) {
      r := GetBlobAttempt(blob, support, offset, false);
    }
  }

  /** The bucket client does not retry without a range. */
  method GetObject(blob: Bytes, support: RangeSupport, offset: nat) returns (r: Result<Bytes, GetError>)
    ensures r.Ok? <==> offset == 0 || (support == Honours && offset < |blob|) || (support == Ignores && offset <= |blob|)
    ensures r.Ok? ==> offset <= |blob| && r.value == blob[offset..]
  {
    var reply := Serve(blob, support, if offset > 0 then Some(offset) else None);
    match reply
    case Partial(body) =>
      return Ok(body);
    case Full(body) =>
      return Skip(body, offset);
    case NotSatisfiable =>
      return Err(StatusError);
  }

  // ---------------------------------------------------------------- the in-memory reader

  datatype ReadError = EOF | UnexpectedEOF | Failed

  function Min(a: int, b: int): int { if a < b then a else b }

  /** A reader over bytes held in memory: read up to n bytes at pos. */
  function MemoryRead(window: Bytes, pos: nat, n: nat): Bytes {
    if pos >= |window| then [] else window[pos..Min(pos + n, |window|)]
  }

  /** Bytes [p, p + k) of a window are a memory read of n when they fill it or reach the end. */
  lemma ReadMatches(blob: Bytes, base: nat, size: nat, p: nat, k: nat, n: nat)
    requires base + size <= |blob| && p + k <= size && k <= n && (k == n || p + k == size)
    ensures blob[base + p..base + p + k] == MemoryRead(blob[base..base + size], p, n)
  {
    var window := blob[base..base + size];
    CutSlice(blob, base, p, base + size);
    CutSlice(blob, base + p, k, base + size);
    assert window[p..p + k] == window[p..][..k];
  }

  /** How many of the available bytes one read delivers: some whenever there are any. */
  function Delivered(rest: Bytes, n: nat, net: Delivery): (k: nat)
    ensures k <= n && k <= |rest| && (rest != [] && n > 0 ==> k > 0)
  {
    if rest == [] || n == 0 then 0 else 1 + net.count % Min(n, |rest|)
  }

  datatype Whence = SeekStart | SeekCurrent | SeekEnd | Invalid

  /** The position a seek asks for, or None when it is refused. */
  function SeekTarget(pos: nat, size: nat, offset: int, whence: Whence): Option<nat> {
    var next := match whence
                case SeekStart => Some(offset)
                case SeekCurrent => Some(pos + offset)
                case SeekEnd => Some(size + offset)
                case Invalid => None;
    if next.None? || next.value < 0 then None else Some(next.value)
  }

  lemma CutSlice(b: Bytes, i: nat, k: nat, j: nat)
    requires i + k <= j <= |b|
    ensures b[i..j][..k] == b[i..i + k] && b[i..j][k..] == b[i + k..j]
  {
  }

  // ---------------------------------------------------------------- the lazy reader

  /** How the network delivers one read: how many of the available bytes, and whether the
      end of the stream is reported together with the last bytes. */
  datatype Delivery = Delivery(count: nat, eagerEnd: bool)

  /** A window of a blob. A registry reader has any base and retries without a range; a bucket
      reader has base 0. The stream fetched for the current position is limited to the window. */
  class LazyReader {
    const blob: Bytes
    const support: RangeSupport
    const fromRegistry: bool
    const base: nat
    const size: nat
    var pos: nat
    var cur: Option<Bytes>

    /** The open stream, if any, is the rest of the window at the current position. */
    ghost predicate Valid()
      reads this
    {
      cur.Some? ==>
        pos <= size && base + pos <= |blob| && cur.value == blob[base + pos..Min(base + size, |blob|)]
    }

    /** The blob holds the window and the server can be asked for it. */
    ghost predicate Served() {
      base + size <= |blob| && (fromRegistry || support != Rejects)
    }

    ghost function Window(): Bytes
      requires base + size <= |blob|
    {
      blob[base..base + size]
    }

    constructor (blob: Bytes, support: RangeSupport, fromRegistry: bool, base: nat, size: nat)
      ensures Valid() && pos == 0
      ensures this.blob == blob && this.support == support && this.fromRegistry == fromRegistry
      ensures this.base == base && this.size == size
    {
      this.blob, this.support, this.fromRegistry, this.base, this.size := blob, support, fromRegistry, base, size;
      pos, cur := 0, None;
    }

    method Fetch(offset: nat) returns (r: Result<Bytes, GetError>)
      ensures r.Ok? ==> offset <= |blob| && r.value == blob[offset..]
      ensures Served() && offset < base + size ==> r.Ok?
    {
      if fromRegistry {
        r := GetBlob(blob, support, offset);
      } else {
        r := GetObject(blob, support, offset);
      }
    }

    /** One Read into a buffer of n bytes. End of file is reported only at the window's end;
        a blob shorter than the window is never mistaken for a complete read. */
    method Read(n: nat, net: Delivery) returns (data: Bytes, err: Option<ReadError>)
      requires Valid()
      modifies this
      ensures Valid()
      ensures pos == old(pos) + |data| && |data| <= n
      ensures data != [] ==> base + pos <= |blob| && pos <= size && data == blob[base + old(pos)..base + pos]
      ensures err == Some(EOF) ==> pos >= size
      ensures old(pos) >= size ==> data == [] && err == Some(EOF)
      ensures Served() && old(pos) < size ==> (n > 0 ==> data != []) && (err.Some? ==> err == Some(EOF) && pos == size)
      ensures old(pos) < size && |blob| < base + size && err.None? && n > 0 ==> data != []
    {
      if pos >= size {
        return [], Some(EOF);
      }
      if cur.None? {
        var ok := Open();
        if !ok {
          return [], Some(Failed);
        }
      }
      var rest := cur.value;
      var k := Delivered(rest, n, net);
      CutSlice(blob, base + pos, k, Min(base + size, |blob|));
      data := rest[..k];
      cur := Some(rest[k..]);
      pos := pos + |data|;
      err := None;
      if rest == [] || (k > 0 && k == |rest| && net.eagerEnd) {
        err := if pos < size then Some(UnexpectedEOF) else Some(EOF);
      }
    }

    /** Opens the stream at the current position, limited to the window's end. */
    method Open() returns (ok: bool)
      requires Valid() && pos < size && cur.None?
      modifies this`cur
      ensures Valid() && ok == cur.Some?
      ensures Served() ==> ok
    {
      var rc := Fetch(base + pos);
      if rc.Err? {
        return false;
      }
      CutSlice(blob, base + pos, Min(size - pos, |rc.value|), |blob|);
      cur := Some(rc.value[..Min(size - pos, |rc.value|)]);
      return true;
    }

    /** A seek that leaves the position drops the open stream. */
    method Seek(offset: int, whence: Whence) returns (r: Option<nat>)
      requires Valid()
      modifies this
      ensures Valid()
      ensures r == SeekTarget(old(pos), size, offset, whence)
      ensures r.Some? <==> (whence == SeekStart && offset >= 0) || (whence == SeekCurrent && old(pos) + offset >= 0) ||
                           (whence == SeekEnd && size + offset >= 0)
      ensures r.Some? ==> r.value == offset + if whence == SeekStart then 0 else if whence == SeekCurrent then old(pos) else size
      ensures pos == if r.Some? then r.value else old(pos)
    {
      var next := 0;
      match whence {
        case SeekStart => next := offset;
        case SeekCurrent => next := pos + offset;
        case SeekEnd => next := size + offset;
        case Invalid => return None;
      }
      if next < 0 {
        return None;
      }
      if next != pos && cur.Some? {
        cur := None;
      }
      pos := next;
      return Some(next);
    }

    /** Read until n bytes arrived or the reader reports an end or an error; like io.ReadFull it
        forgets what came together with the last byte wanted. */
    method ReadFull(n: nat, net: nat -> Delivery) returns (data: Bytes, err: Option<ReadError>)
      requires Valid()
      modifies this
      ensures Valid() && pos == old(pos) + |data|
      ensures Served() ==> data == MemoryRead(Window(), old(pos), n)
      ensures Served() && old(pos) <= size ==> data == Window()[old(pos)..][..Min(n, size - old(pos))]
      ensures Served() && old(pos) > size ==> data == []
      ensures Served() ==> err == (if |data| < n then Some(EOF) else None)
      ensures err.None? <==> |data| == n
    {
      data, err := [], None;
      var step := 0;
      while |data| < n && err.None?
        invariant Valid() && pos == old(pos) + |data| && |data| <= n
        invariant data != [] ==> base + pos <= |blob| && pos <= size && data == blob[base + old(pos)..base + pos]
        invariant Served() ==> (err.Some? ==> err == Some(EOF) && pos >= size)
        decreases n - |data|, err.None?
      {
        hide MemoryRead;
        ghost var before, at := data, pos;
        var part;
        part, err := Read(n - |data|, net(step));
        assert part != [] && before != [] ==>
          blob[base + old(pos)..base + at] + blob[base + at..base + pos] == blob[base + old(pos)..base + pos];
        data := data + part;
        step := step + 1;
        if part == [] && err.None? {
          // No progress without an error: a truncated blob; give up like io.ErrNoProgress.
          err := Some(Failed);
        }
      }
      if Served() && (data != [] || old(pos) <= size) {
        ReadMatches(blob, base, size, old(pos), |data|, n);
      }
      if |data| == n {
        err := None;
      }
    }
  }

  // ---------------------------------------------------------------- whole sequences of calls

  datatype Call = ReadCall(n: nat) | SeekCall(offset: int, whence: Whence)
  /** eof: the read came to the end before it had all the bytes wanted. */
  datatype Answer = ReadAnswer(data: Bytes, pos: nat, eof: bool) | SeekAnswer(result: Option<nat>, pos: nat)

  /** One call on the in-memory reader. */
  function MemoryStep(window: Bytes, pos: nat, call: Call): Answer {
    match call
    case ReadCall(n) =>
      var data := MemoryRead(window, pos, n);
      ReadAnswer(data, pos + |data|, |data| < n)
    case SeekCall(offset, whence) =>
      var target := SeekTarget(pos, |window|, offset, whence);
      SeekAnswer(target, if target.Some? then target.value else pos)
  }

  /** In memory, a read meets the end exactly when it wants bytes past the window, and only
      with everything up to the window's end delivered. */
  lemma MemoryEndsAtTheEnd(window: Bytes, pos: nat, n: nat)
    ensures var answer := MemoryStep(window, pos, ReadCall(n));
            (answer.eof <==> n > 0 && pos + n > |window|) &&
            (answer.eof ==> answer.pos >= |window| && answer.data == if pos <= |window| then window[pos..] else [])
  {
  }

  function MemoryRun(window: Bytes, calls: seq<Call>): (r: (seq<Answer>, nat))
    ensures |r.0| == |calls|
  {
    if calls == [] then ([], 0)
    else
      var before := MemoryRun(window, calls[..|calls| - 1]);
      var answer := MemoryStep(window, before.1, calls[|calls| - 1]);
      (before.0 + [answer], answer.pos)
  }

  /** Reading at a position, wherever the reader was before: after a seek to p from the start or to
      p - |window| from the end, the next n bytes are those at p, or all that are left. */
  lemma SeekThenRead(window: Bytes, calls: seq<Call>, p: nat, n: nat, fromEnd: bool)
    requires p <= |window|
    ensures var seek := if fromEnd then SeekCall(p - |window|, SeekEnd) else SeekCall(p, SeekStart);
            var (answers, pos) := MemoryRun(window, calls + [seek, ReadCall(n)]);
            |answers| == |calls| + 2 && answers[|calls|] == SeekAnswer(Some(p), p) &&
            answers[|calls| + 1] == ReadAnswer(window[p..][..Min(n, |window| - p)], pos, p + n > |window|) &&
            pos == p + Min(n, |window| - p)
  {
    hide MemoryRun, MemoryStep;
    var seek := if fromEnd then SeekCall(p - |window|, SeekEnd) else SeekCall(p, SeekStart);
    var before, sought := MemoryRun(window, calls), MemoryRun(window, calls + [seek]);
    RunOneMore(window, calls, seek);
    SeeksTo(window, before.1, p, seek);
    RunOneMore(window, calls + [seek], ReadCall(n));
    ReadsAt(window, p, n);
    assert calls + [seek, ReadCall(n)] == calls + [seek] + [ReadCall(n)];
    assert sought == (before.0 + [SeekAnswer(Some(p), p)], p);
  }

  lemma SeeksTo(window: Bytes, pos: nat, p: nat, seek: Call)
    requires p <= |window| && (seek == SeekCall(p - |window|, SeekEnd) || seek == SeekCall(p, SeekStart))
    ensures MemoryStep(window, pos, seek) == SeekAnswer(Some(p), p)
  {
  }

  lemma ReadsAt(window: Bytes, p: nat, n: nat)
    requires p <= |window|
    ensures var k := Min(n, |window| - p);
            MemoryStep(window, p, ReadCall(n)) == ReadAnswer(window[p..][..k], p + k, p + n > |window|)
  {
    var k := Min(n, |window| - p);
    assert MemoryRead(window, p, n) == window[p..][..k];
  }

  lemma RunOneMore(window: Bytes, calls: seq<Call>, call: Call)
    ensures var before, after := MemoryRun(window, calls), MemoryRun(window, calls + [call]);
            var answer := MemoryStep(window, before.1, call);
            after == (before.0 + [answer], answer.pos)
  {
    hide MemoryStep;
    assert (calls + [call])[..|calls|] == calls;
  }

  /** The refinement: any sequence of reads and seeks answers as the in-memory reader does,
      however the network cuts the bytes up. */
  method RunCalls(reader: LazyReader, calls: seq<Call>, net: (nat, nat) -> Delivery) returns (answers: seq<Answer>)
    requires reader.Valid() && reader.Served() && reader.pos == 0
    modifies reader
    ensures answers == MemoryRun(reader.Window(), calls).0
    ensures reader.Valid() && reader.pos == MemoryRun(reader.Window(), calls).1
  {
    answers := [];
    for i := 0 to |calls|
      invariant reader.Valid()
      invariant (answers, reader.pos) == MemoryRun(reader.Window(), calls[..i])
    {
      assert calls[..i + 1][..i] == calls[..i];
      match calls[i]
      case ReadCall(n) =>
        var data, err := reader.ReadFull(n, (k: nat) => net(i, k));
        answers := answers + [ReadAnswer(data, reader.pos, err == Some(EOF))];
      case SeekCall(offset, whence) =>
        var target := reader.Seek(offset, whence);
        answers := answers + [SeekAnswer(target, reader.pos)];
    }
    assert calls[..|calls|] == calls;
  }
}
